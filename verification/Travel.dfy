/** From the cables to the values: where a value that is delivered can come from. */
module Travels {
  import opened Grid
  import opened Graphs
  import opened SubNetworks
  import opened NetworkRecords
  import opened Dispatching
  import opened Ports

  /** The sides of devices as the records of a built network have them. */
  function SidesOf(n: Network): Attached
    reads n
  {
    map s | s in n.subNetworkAt && s in n.colors :: Dispatching.Attachment(n.colors[s], n.subNetworkAt[s])
  }

  /** The bus that a slot's side looks at. */
  function BusOf(s: Slot): Vec {
    Step(s.member, s.dir)
  }

  /**
   A delivery goes from a device to a device: both are on buses, and cables and buses, but no device,
   connect the two; if neither bus is `multi`, they have the same colour and the local port is the
   same at both ends.
   */
  ghost predicate Travels(n: Network, d: Delivery)
    reads n
  {
    && TrueSlot(SidesOf(n), d.from) && IsDeviceAt(n.world, d.from.member) && IsDeviceAt(n.world, d.to.member)
    && IsBusAt(n.world, BusOf(d.from)) && IsBusAt(n.world, BusOf(d.to))
    && Reaches(CableGraph(n.world, n.members), BusOf(d.from), BusOf(d.to))
    && var a, b := n.world.PartAt(BusOf(d.from)).color, n.world.PartAt(BusOf(d.to)).color;
      a in COLORS && b in COLORS ==> a == b && PortAt(SidesOf(n), d.from) == d.localPort
  }

  lemma DeliveryTravels(n: Network, heard: set<Vec>, r: Round, d: Delivery)
    requires n.Branches() && n.Attached() && RoundIsServed(SidesOf(n), heard, r) && d in r.news
    ensures Travels(n, d)
  {
    hide CableGraph, RoundIsServed;
    PortComesBack(SidesOf(n), heard, r, d);
    var i := n.subNetworkAt[(d.from.member, d.from.dir)];
    SideIsOnBus(n, (d.from.member, d.from.dir), i);
    SideIsOnBus(n, (d.to.member, d.to.dir), i);
    CableGraphUndirected(n.world, n.members);
    ComponentIsReachSet(CableGraph(n.world, n.members), n.subNetworks[i].cables, BusOf(d.from));
  }

  lemma {:induction false} NewsTravel(n: Network, heard: set<Vec>, rounds: seq<Round>, d: Delivery)
    requires n.Branches() && n.Attached() && d in AllNews(rounds)
    requires forall k :: 0 <= k < |rounds| ==> RoundIsServed(SidesOf(n), heard, rounds[k])
    ensures Travels(n, d)
  {
    hide RoundIsServed, Travels;
    var last := |rounds| - 1;
    if d in rounds[last].news {
      DeliveryTravels(n, heard, rounds[last], d);
    } else {
      NewsTravel(n, heard, rounds[..last], d);
    }
  }

  /** What a member says at one of its sides: at a local port, a value or a state. */
  datatype Word = Word(member: Vec, dir: Dir, localPort: int, text: string) {
    predicate SamePlace(other: Word) {
      member == other.member && dir == other.dir && localPort == other.localPort
    }
  }

  /** Nothing was said at that place later. */
  ghost predicate IsLast(words: seq<Word>, i: nat) {
    i < |words| && forall j :: i < j < |words| ==> !words[j].SamePlace(words[i])
  }

  /** The table has the last word of every place that has a slot. */
  ghost predicate HasLast(d: Dispatcher, words: seq<Word>, t: Table<string>) {
    forall i :: 0 <= i < |words| && IsLast(words, i) && d.HasSlot(words[i].member, words[i].dir, words[i].localPort) ==>
      var s := d.SlotOf(words[i].member, words[i].dir, words[i].localPort);
      s in t.entries && t.entries[s] == words[i].text
  }

  lemma OneMoreWord(d: Dispatcher, words: seq<Word>, n: nat, t: Table<string>, t': Table<string>)
    requires n < |words| && HasLast(d, words[..n], t)
    requires var w := words[n]; t' == if d.HasSlot(w.member, w.dir, w.localPort) then
      t.Bury(d.SlotOf(w.member, w.dir, w.localPort), w.text) else t
    ensures HasLast(d, words[..n + 1], t')
  {
    var later := words[..n + 1];
    forall i | 0 <= i < n && IsLast(later, i) ensures IsLast(words[..n], i) && !words[n].SamePlace(words[i]) {
      assert later[n] == words[n] && later[i] == words[i];
      assert forall j :: i < j < n ==> words[..n][j] == later[j];
    }
  }

  method SendAll(d: Dispatcher, sends: seq<Word>)
    requires d.Valid() && d.delivered == [] && d.readyToSend == NoTable()
    modifies d
    ensures d.Valid() && d.delivered == [] && d.readyToReceive == old(d.readyToReceive) &&
      HasLast(d, sends, d.readyToSend)
  {
    hide HasLast;
    NothingSaid(d);
    assert sends[..0] == [];
    for i := 0 to |sends|
      invariant d.Valid() && d.delivered == [] && d.readyToReceive == old(d.readyToReceive)
      invariant HasLast(d, sends[..i], d.readyToSend)
    {
      ghost var t := d.readyToSend;
      d.SendValue(sends[i].member, sends[i].dir, sends[i].localPort, sends[i].text);
      OneMoreWord(d, sends, i, t, d.readyToSend);
    }
    assert sends[..|sends|] == sends;
  }

  method ListenAll(d: Dispatcher, receives: seq<Word>)
    requires d.Valid() && d.delivered == [] && d.readyToReceive == NoTable()
    modifies d
    ensures d.Valid() && d.delivered == [] && d.readyToSend == old(d.readyToSend) &&
      HasLast(d, receives, d.readyToReceive)
  {
    hide HasLast;
    NothingSaid(d);
    assert receives[..0] == [];
    for i := 0 to |receives|
      invariant d.Valid() && d.delivered == [] && d.readyToSend == old(d.readyToSend)
      invariant HasLast(d, receives[..i], d.readyToReceive)
    {
      ghost var t := d.readyToReceive;
      d.MarkReadyToReceive(receives[i].member, receives[i].dir, receives[i].localPort, receives[i].text);
      OneMoreWord(d, receives, i, t, d.readyToReceive);
    }
    assert receives[..|receives|] == receives;
  }

  /**
   From the parts in the world to the values: a network is built, its members send and get ready to
   receive, and whatever the handlers do then, every value that the dispatch delivers has travelled
   along its cables; and an active receiver that is loaded gets every value that was sent at its local
   port on a side with the same sub-network and colour.
   */
  method BuildAndDispatch(n: Network, heard: set<Vec>, sends: seq<Word>, receives: seq<Word>)
    returns (delivered: seq<Delivery>)
    requires n.Proper() && n.subNetworks == map[] && n.subNetworkOf == map[] && n.colors == map[] &&
      n.subNetworkAt == map[]
    modifies n
    ensures n.Branches() && n.Attached() && EveryBus(n.world, n.members, n.subNetworkOf)
    ensures forall d :: d in delivered ==> Travels(n, d)
    ensures forall i: nat, k: nat :: Arrives(SidesOf(n), heard, sends, receives, i, k) ==>
      Arrived(delivered, sends[i], receives[k])
  {
    hide RoundIsServed, Travels, AreBranches, AreAttached, TrueColors, EveryBus, Delivers, HasLast, Arrived, TrueSlot;
    n.Build();
    var dispatcher := new Dispatcher(SidesOf(n), heard);
    SendAll(dispatcher, sends);
    ghost var send := dispatcher.readyToSend;
    ListenAll(dispatcher, receives);
    ghost var ready := dispatcher.readyToReceive;
    var attempts;
    ghost var rounds;
    attempts, rounds := dispatcher.HandleNetworkDispatch();
    assert dispatcher.attached == SidesOf(n);
    delivered := dispatcher.delivered;
    assert delivered == AllNews(rounds);
    forall d | d in delivered ensures Travels(n, d) {
      NewsTravel(n, heard, rounds, d);
    }
    forall i: nat, k: nat | Arrives(SidesOf(n), heard, sends, receives, i, k)
      ensures Arrived(delivered, sends[i], receives[k])
    {
      WordArrives(dispatcher, sends, receives, send, ready, rounds, i, k);
    }
  }

  /** A value that was sent has come to where it was awaited. */
  ghost predicate Arrived(delivered: seq<Delivery>, sent: Word, awaited: Word) {
    exists d :: d in delivered && d.from.member == sent.member && d.value == sent.text &&
      d.to.member == awaited.member && d.to.dir == awaited.dir && d.localPort == awaited.localPort
  }

  /** The last word at a sending side is for the last word at a receiving one that is active and loaded. */
  ghost predicate Arrives(at: Attached, heard: set<Vec>, sends: seq<Word>, receives: seq<Word>, i: nat, k: nat) {
    && IsLast(sends, i) && IsLast(receives, k) && receives[k].text == "active" && receives[k].member in heard
    && (sends[i].member, sends[i].dir) in at && (receives[k].member, receives[k].dir) in at
    && at[(sends[i].member, sends[i].dir)] == at[(receives[k].member, receives[k].dir)]
    && IsColor(at[(sends[i].member, sends[i].dir)].color)
    && sends[i].localPort == receives[k].localPort
    && 1 <= sends[i].localPort <= RangeOf(at[(sends[i].member, sends[i].dir)].color).size
  }

  lemma NothingSaid(d: Dispatcher)
    ensures HasLast(d, [], NoTable())
  {
  }

  lemma WordArrives(dis: Dispatcher, sends: seq<Word>, receives: seq<Word>, send: Table<string>, ready: Table<string>,
                    rounds: seq<Round>, i: nat, k: nat)
    requires TrueSlots(dis.attached, send) && TrueSlots(dis.attached, ready)
    requires HasLast(dis, sends, send) && HasLast(dis, receives, ready)
    requires Arrives(dis.attached, dis.heard, sends, receives, i, k)
    requires send.subs != {} && ready.subs != {} ==> rounds != [] && rounds[0].send == send && rounds[0].ready == ready
    requires rounds != [] ==>
      TrueSlots(dis.attached, rounds[0].ready) && Delivers(dis.attached, dis.heard, rounds[0])
    ensures Arrived(AllNews(rounds), sends[i], receives[k])
  {
    hide Delivers, AllNews;
    var f := dis.SlotOf(sends[i].member, sends[i].dir, sends[i].localPort);
    var t := dis.SlotOf(receives[k].member, receives[k].dir, receives[k].localPort);
    assert f in send.entries && send.entries[f] == sends[i].text;
    assert t in ready.entries && ready.entries[t] == "active";
    assert f.sub in send.subs && t.sub in ready.subs;
    SameSideReaches(dis.attached, dis.heard, rounds[0], f, t);
    NewsOfRound(rounds, 0, Delivery(f, t, PortAt(dis.attached, t), send.entries[f]));
  }

  lemma SideIsOnBus(n: Network, s: Side, i: nat)
    requires n.Branches() && n.Attached() && s in n.subNetworkAt && n.subNetworkAt[s] == i
    ensures i in n.subNetworks && Component(CableGraph(n.world, n.members), n.subNetworks[i].cables)
    ensures IsDeviceAt(n.world, s.0) && Step(s.0, s.1) in n.subNetworks[i].cables
    ensures IsBusAt(n.world, Step(s.0, s.1)) && s in n.colors && n.colors[s] == n.world.PartAt(Step(s.0, s.1)).color
  {
    assert Holds(n.State().at, s, i) && OnBus(n.world, n.outward, n.members, CablesOf(n.subNetworks, i), s);
    assert i in n.subNetworks && IsBranch(n.world, n.members, n.subNetworks[i].cables);
    assert s in n.State().colored;
  }
}
