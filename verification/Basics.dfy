/** What all parts of the model share. */
module Basics {
  datatype Option<+T> = None | Some(value: T)

  function Min(a: int, b: int): int {
    if a <= b then a else b
  }

  function Max(a: int, b: int): int {
    if a <= b then b else a
  }

  /** A table never has all ids. */
  lemma FreshId<V>(table: map<nat, V>)
    ensures exists id: nat :: id !in table
  {
    var id := Above(table.Keys);
    assert id !in table;
  }

  lemma Above(ids: set<nat>) returns (id: nat)
    ensures forall i :: i in ids ==> i < id
    decreases ids
  {
    id := 0;
    if ids != {} {
      var i :| i in ids;
      id := Above(ids - {i});
      assert forall j :: j in ids ==> j == i || j in ids - {i};
      id := if id <= i then i + 1 else id;
    }
  }
}
