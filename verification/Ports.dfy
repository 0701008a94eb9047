/** The ports of a data network: each colour has its range of them. */
module Ports {
  datatype Range = Range(offset: nat, size: nat)

  const PORT_RANGE := 16

  /** The colours in the order of their ranges; `multi` is apart from them and overlaps all. */
  const COLORS: seq<string> := [
    "white", "grey", "dark_grey", "black", "violet", "blue", "light_blue", "cyan",
    "dark_green", "green", "yellow", "brown", "orange", "red", "magenta", "pink"]

  /** `COLOR_RANGE`, which knows seventeen colours. */
  function RangeOf(color: string): (r: Range)
    requires IsColor(color)
  {
    if color == "multi" then Range(0, PORT_RANGE * 16)
    else match color
      case "white" => Range(0, PORT_RANGE)
      case "grey" => Range(16, PORT_RANGE)
      case "dark_grey" => Range(32, PORT_RANGE)
      case "black" => Range(48, PORT_RANGE)
      case "violet" => Range(64, PORT_RANGE)
      case "blue" => Range(80, PORT_RANGE)
      case "light_blue" => Range(96, PORT_RANGE)
      case "cyan" => Range(112, PORT_RANGE)
      case "dark_green" => Range(128, PORT_RANGE)
      case "green" => Range(144, PORT_RANGE)
      case "yellow" => Range(160, PORT_RANGE)
      case "brown" => Range(176, PORT_RANGE)
      case "orange" => Range(192, PORT_RANGE)
      case "red" => Range(208, PORT_RANGE)
      case "magenta" => Range(224, PORT_RANGE)
      case _ => Range(240, PORT_RANGE)
  }

  predicate IsColor(color: string) {
    color == "multi" || color in COLORS
  }

  predicate InRange(color: string, localPort: int)
    requires IsColor(color)
  {
    1 <= localPort <= RangeOf(color).size
  }

  function NetPort(localPort: int, color: string): int
    requires IsColor(color)
  {
    RangeOf(color).offset + localPort
  }

  function LocalPort(netPort: int, color: string): int
    requires IsColor(color)
  {
    netPort - RangeOf(color).offset
  }

  lemma RangeAt(i: nat)
    requires i < 16
    ensures COLORS[i] != "multi" && RangeOf(COLORS[i]) == Range(16 * i, PORT_RANGE)
  {
  }

  /** Two colours other than `multi` have no network port in common. */
  lemma RangesDisjoint(a: string, b: string, p: int, q: int)
    requires a in COLORS && b in COLORS && InRange(a, p) && InRange(b, q)
    ensures NetPort(p, a) == NetPort(q, b) <==> a == b && p == q
  {
    var i :| 0 <= i < 16 && COLORS[i] == a;
    var j :| 0 <= j < 16 && COLORS[j] == b;
    RangeAt(i);
    RangeAt(j);
  }

  /** The ports of `multi` are exactly those of the other colours together. */
  lemma MultiIsAll(n: int)
    ensures InRange("multi", LocalPort(n, "multi")) <==> exists c :: c in COLORS && InRange(c, LocalPort(n, c))
  {
    if InRange("multi", LocalPort(n, "multi")) {
      RangeAt((n - 1) / 16);
      assert COLORS[(n - 1) / 16] in COLORS;
    }
    if c :| c in COLORS && InRange(c, LocalPort(n, c)) {
      var i :| 0 <= i < 16 && COLORS[i] == c;
      RangeAt(i);
    }
  }
}
