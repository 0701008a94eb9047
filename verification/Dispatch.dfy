/** How a data network passes values from the members that send to those that are ready to receive. */
module Dispatching {
  import opened Grid
  import opened Ports

  /** Where a value is sent or awaited: sub-network, network port, member and direction. */
  datatype Slot = Slot(sub: nat, port: int, member: Vec, dir: Dir) {
    predicate Meets(other: Slot) {
      sub == other.sub && port == other.port
    }
  }

  /** The nested tables of a network, and the sub-networks that they hold an inner table for. */
  datatype Table<T> = Table(subs: set<nat>, entries: map<Slot, T>) {
    predicate Proper() {
      forall s :: s in entries ==> s.sub in subs
    }

    function Bury(s: Slot, value: T): Table<T> {
      Table(subs + {s.sub}, entries[s := value])
    }
  }

  function NoTable<T>(): Table<T> {
    Table({}, map[])
  }

  /** A side of a member as the network's records have it: its colour and its sub-network. */
  datatype Attachment = Attachment(color: string, sub: nat)

  type Attached = map<(Vec, Dir), Attachment>

  /** A call of `receive_pdu`, with the entry it comes from. */
  datatype Delivery = Delivery(from: Slot, to: Slot, localPort: int, value: string)

  const ACTIVE := "active"

  /** A slot was made from an attached side and a local port in the range of its colour. */
  predicate TrueSlot(at: Attached, s: Slot) {
    && (s.member, s.dir) in at && IsColor(at[(s.member, s.dir)].color) && at[(s.member, s.dir)].sub == s.sub
    && InRange(at[(s.member, s.dir)].color, LocalPort(s.port, at[(s.member, s.dir)].color))
  }

  predicate TrueSlots<T>(at: Attached, t: Table<T>) {
    t.Proper() && forall s :: s in t.entries ==> TrueSlot(at, s)
  }

  function PortAt(at: Attached, s: Slot): int
    requires TrueSlot(at, s)
  {
    LocalPort(s.port, at[(s.member, s.dir)].color)
  }

  /** The receivers that stay for the next round. */
  function Carried(ready: map<Slot, string>): map<Slot, string> {
    map s | s in ready && ready[s] == ACTIVE :: ready[s]
  }

  function Among(ready: map<Slot, string>, some: set<Slot>): map<Slot, string> {
    map s | s in ready && s in some :: ready[s]
  }

  lemma NothingCarried(ready: map<Slot, string>)
    ensures Carried(Among(ready, {})) == map[]
  {
  }

  lemma CarriedMore(ready: map<Slot, string>, done: set<Slot>, s: Slot)
    requires s in ready
    ensures Carried(Among(ready, done + {s}))
         == if ready[s] == ACTIVE then Carried(Among(ready, done))[s := ready[s]] else Carried(Among(ready, done))
  {
    if ready[s] == ACTIVE {
      var more := Carried(Among(ready, done + {s}));
      assert more.Keys == Carried(Among(ready, done)).Keys + {s};
    }
  }

  /** The receivers that are left once some entries were sent. */
  function Left(ready: map<Slot, string>, done: set<Slot>): map<Slot, string> {
    map t | t in ready && (ready[t] == ACTIVE || forall f :: f in done ==> !f.Meets(t)) :: ready[t]
  }

  /* What a round delivers. */

  ghost predicate Distinct(news: seq<Delivery>) {
    forall i, j :: 0 <= i < j < |news| ==> (news[i].from, news[i].to) != (news[j].from, news[j].to)
  }

  predicate Got(news: seq<Delivery>, f: Slot, t: Slot) {
    exists i :: 0 <= i < |news| && news[i].from == f && news[i].to == t
  }

  /** A delivery carries the value of its sender to the local port that its receiver registered. */
  predicate IsTrue(at: Attached, send: map<Slot, string>, d: Delivery) {
    d.from in send && d.value == send[d.from] && TrueSlot(at, d.to) && d.localPort == PortAt(at, d.to)
  }

  /**
   What was delivered when the entries `done` were sent to the receivers `ready`, of which those in
   `heard` are loaded: an active receiver got every entry on its port once, another one got exactly
   one of them if there was any.
   */
  ghost predicate Served(at: Attached, heard: set<Vec>, send: map<Slot, string>, ready: map<Slot, string>,
                         done: set<Slot>, news: seq<Delivery>) {
    && Distinct(news)
    && (forall i :: 0 <= i < |news| ==> IsTrue(at, send, news[i]))
    && (forall f, t :: Got(news, f, t) ==> f in done && t in ready && f.Meets(t) && t.member in heard)
    && (forall f, t ::
      f in done && t in ready && f.Meets(t) && t.member in heard && ready[t] == ACTIVE ==> Got(news, f, t))
    && (forall f, t :: f in done && t in ready && f.Meets(t) && t.member in heard ==> exists g :: Got(news, g, t))
    && (forall f, g, t :: Got(news, f, t) && Got(news, g, t) && ready[t] != ACTIVE ==> f == g)
  }

  lemma NothingServed(at: Attached, heard: set<Vec>, send: map<Slot, string>, ready: map<Slot, string>)
    ensures Served(at, heard, send, ready, {}, []) && Left(ready, {}) == ready
  {
  }

  /** What was delivered when one entry was sent. */
  ghost predicate SentOne(at: Attached, f: Slot, value: string, tos: set<Slot>, more: seq<Delivery>) {
    && Distinct(more)
    && (forall i ::
      0 <= i < |more| ==>
        more[i].from == f && more[i].value == value && TrueSlot(at, more[i].to) &&
          more[i].localPort == PortAt(at, more[i].to))
    && (forall g, t :: Got(more, g, t) <==> g == f && t in tos)
  }

  function Hearing(ready: map<Slot, string>, heard: set<Vec>, f: Slot): set<Slot> {
    set t | t in ready && f.Meets(t) && t.member in heard
  }

  lemma GotBoth(news: seq<Delivery>, more: seq<Delivery>, f: Slot, t: Slot)
    ensures Got(news + more, f, t) <==> Got(news, f, t) || Got(more, f, t)
  {
    if i :| 0 <= i < |news| && news[i].from == f && news[i].to == t {
      assert (news + more)[i] == news[i];
    }
    if i :| 0 <= i < |more| && more[i].from == f && more[i].to == t {
      assert (news + more)[|news| + i] == more[i];
    }
  }

  lemma DistinctBoth(news: seq<Delivery>, more: seq<Delivery>)
    requires Distinct(news) && Distinct(more) && forall f, t :: Got(more, f, t) ==> !Got(news, f, t)
    ensures Distinct(news + more)
  {
    var all := news + more;
    forall i, j | 0 <= i < j < |all| ensures (all[i].from, all[i].to) != (all[j].from, all[j].to) {
      if i < |news| <= j {
        assert Got(more, all[j].from, all[j].to);
      }
    }
  }

  lemma LeftMore(ready: map<Slot, string>, done: set<Slot>, f: Slot)
    ensures Left(ready, done + {f}) == Left(Left(ready, done), {f})
  {
  }

  /** One more entry is sent to the receivers that are left. */
  lemma ServedMore(at: Attached, heard: set<Vec>, send: map<Slot, string>, ready: map<Slot, string>, done: set<Slot>,
                   news: seq<Delivery>, f: Slot, more: seq<Delivery>)
    requires Served(at, heard, send, ready, done, news) && f in send && f !in done
    requires SentOne(at, f, send[f], Hearing(Left(ready, done), heard, f), more)
    ensures Served(at, heard, send, ready, done + {f}, news + more)
  {
    hide Distinct, TrueSlot, IsTrue;
    DistinctBoth(news, more);
    forall g, t
      ensures Got(news + more, g, t) <==> Got(news, g, t) || (g == f && t in Hearing(Left(ready, done), heard, f))
    {
      GotBoth(news, more, g, t);
    }
    AllTrue(at, send, news, more, f);
    forall g, t | g in done + {f} && t in ready && g.Meets(t) && t.member in heard
      ensures exists h :: Got(news + more, h, t)
    {
      if forall h :: h in done ==> !h.Meets(t) {
        assert g == f && t in Left(ready, done);
        assert Got(news + more, f, t);
      } else {
        var e :| e in done && e.Meets(t);
        var h :| Got(news, h, t);
        assert Got(news + more, h, t);
      }
    }
  }

  lemma AllTrue(at: Attached, send: map<Slot, string>, news: seq<Delivery>, more: seq<Delivery>, f: Slot)
    requires forall i :: 0 <= i < |news| ==> IsTrue(at, send, news[i])
    requires f in send && forall i ::
      0 <= i < |more| ==>
        more[i].from == f && more[i].value == send[f] && TrueSlot(at, more[i].to) &&
          more[i].localPort == PortAt(at, more[i].to)
    ensures forall i :: 0 <= i < |news + more| ==> IsTrue(at, send, (news + more)[i])
  {
  }

  /** One round: the tables it started from and what it delivered. */
  datatype Round = Round(send: Table<string>, ready: Table<string>, news: seq<Delivery>)

  ghost predicate RoundIsServed(at: Attached, heard: set<Vec>, r: Round) {
    && r.send.subs != {} && r.ready.subs != {} && TrueSlots(at, r.send) && TrueSlots(at, r.ready)
    && Served(at, heard, r.send.entries, r.ready.entries, r.send.entries.Keys, r.news)
  }

  /** Sent and awaited in one sub-network on one network port, whichever members and sides they are. */
  predicate SamePort(f: Slot, t: Slot) {
    f.sub == t.sub && f.port == t.port
  }

  /**
   A round delivers all that it should: the value of every entry to every loaded active receiver on
   its port; to any other loaded receiver the value of exactly one entry on its port, if there is
   one; and nothing else.
   */
  ghost predicate Delivers(at: Attached, heard: set<Vec>, r: Round)
    requires TrueSlots(at, r.ready)
  {
    var send, ready := r.send.entries, r.ready.entries;
    && (forall f, t :: f in send && t in ready && SamePort(f, t) && t.member in heard && ready[t] == "active" ==>
      Delivery(f, t, PortAt(at, t), send[f]) in r.news)
    && (forall f, t :: f in send && t in ready && SamePort(f, t) && t.member in heard ==>
      exists g :: g in send && Delivery(g, t, PortAt(at, t), send[g]) in r.news)
    && (forall d :: d in r.news ==> d.from in send && d.to in ready && SamePort(d.from, d.to) && d.to.member in heard)
    && (forall d, e :: d in r.news && e in r.news && d.to == e.to && ready[d.to] != "active" ==> d.from == e.from)
  }

  lemma ServedDelivers(at: Attached, heard: set<Vec>, r: Round)
    requires RoundIsServed(at, heard, r)
    ensures Delivers(at, heard, r)
  {
    var send, ready := r.send.entries, r.ready.entries;
    assert TrueSlots(at, r.ready);
    hide RoundIsServed, TrueSlot, IsTrue, Distinct, Got;
    forall f, t | f in send && t in ready && SamePort(f, t) && t.member in heard
      ensures ready[t] == "active" ==> Delivery(f, t, PortAt(at, t), send[f]) in r.news
      ensures exists g :: g in send && Delivery(g, t, PortAt(at, t), send[g]) in r.news
    {
      MustGet(at, heard, r, f, t);
    }
    forall d | d in r.news
      ensures d.from in send && d.to in ready && SamePort(d.from, d.to) && d.to.member in heard
    {
      MayGet(at, heard, r, d);
    }
    forall d, e | d in r.news && e in r.news && d.to == e.to && ready[d.to] != "active" ensures d.from == e.from {
      GetsOne(at, heard, r, d, e);
    }
  }

  lemma MustGet(at: Attached, heard: set<Vec>, r: Round, f: Slot, t: Slot)
    requires RoundIsServed(at, heard, r) && f in r.send.entries && t in r.ready.entries
    requires SamePort(f, t) && t.member in heard
    ensures r.ready.entries[t] == "active" ==> Delivery(f, t, PortAt(at, t), r.send.entries[f]) in r.news
    ensures exists g :: g in r.send.entries && Delivery(g, t, PortAt(at, t), r.send.entries[g]) in r.news
  {
    hide TrueSlot, Distinct;
    assert f.Meets(t);
    var g :| Got(r.news, g, t);
    GotIsDelivery(at, heard, r, g, t);
    if r.ready.entries[t] == "active" {
      GotIsDelivery(at, heard, r, f, t);
    }
  }

  lemma GotIsDelivery(at: Attached, heard: set<Vec>, r: Round, f: Slot, t: Slot)
    requires RoundIsServed(at, heard, r) && Got(r.news, f, t)
    ensures f in r.send.entries && t in r.ready.entries && TrueSlot(at, t)
    ensures Delivery(f, t, PortAt(at, t), r.send.entries[f]) in r.news
  {
    var i :| 0 <= i < |r.news| && r.news[i].from == f && r.news[i].to == t;
    hide TrueSlot, Distinct;
    assert IsTrue(at, r.send.entries, r.news[i]);
    assert r.news[i] == Delivery(f, t, PortAt(at, t), r.send.entries[f]);
  }

  lemma MayGet(at: Attached, heard: set<Vec>, r: Round, d: Delivery)
    requires RoundIsServed(at, heard, r) && d in r.news
    ensures Got(r.news, d.from, d.to) && d.from in r.send.entries && d.to in r.ready.entries
    ensures SamePort(d.from, d.to) && d.to.member in heard
  {
    hide TrueSlot, Distinct;
    assert Got(r.news, d.from, d.to);
  }

  lemma GetsOne(at: Attached, heard: set<Vec>, r: Round, d: Delivery, e: Delivery)
    requires RoundIsServed(at, heard, r) && d in r.news && e in r.news && d.to == e.to
    requires d.to in r.ready.entries && r.ready.entries[d.to] != "active"
    ensures d.from == e.from
  {
    hide TrueSlot, Distinct, IsTrue;
    MayGet(at, heard, r, d);
    MayGet(at, heard, r, e);
  }

  /**
   What an active receiver gets, by the sides: the value of every entry of a side with the same
   sub-network, colour and local port.
   */
  lemma SameSideReaches(at: Attached, heard: set<Vec>, r: Round, f: Slot, t: Slot)
    requires TrueSlots(at, r.send) && TrueSlots(at, r.ready) && Delivers(at, heard, r)
    requires f in r.send.entries && t in r.ready.entries && t.member in heard && r.ready.entries[t] == "active"
    requires at[(f.member, f.dir)] == at[(t.member, t.dir)] && PortAt(at, f) == PortAt(at, t)
    ensures Delivery(f, t, PortAt(at, t), r.send.entries[f]) in r.news
  {
    assert TrueSlot(at, f) && TrueSlot(at, t);
  }

  /** On a side of colour `multi` the local port is the network port, so it is met by every colour there. */
  lemma MultiReaches(at: Attached, heard: set<Vec>, r: Round, f: Slot, t: Slot)
    requires TrueSlots(at, r.send) && TrueSlots(at, r.ready) && Delivers(at, heard, r)
    requires f in r.send.entries && t in r.ready.entries && t.member in heard && r.ready.entries[t] == "active"
    requires at[(f.member, f.dir)].sub == at[(t.member, t.dir)].sub && at[(f.member, f.dir)].color == "multi"
    requires PortAt(at, f) == RangeOf(at[(t.member, t.dir)].color).offset + PortAt(at, t)
    ensures Delivery(f, t, PortAt(at, t), r.send.entries[f]) in r.news
  {
    assert TrueSlot(at, f) && TrueSlot(at, t);
  }

  ghost predicate AllDeliver(at: Attached, heard: set<Vec>, rounds: seq<Round>) {
    forall k :: 0 <= k < |rounds| ==>
      RoundIsServed(at, heard, rounds[k]) && TrueSlots(at, rounds[k].ready) && Delivers(at, heard, rounds[k])
  }

  lemma NoneDeliver(at: Attached, heard: set<Vec>)
    ensures AllDeliver(at, heard, []) && AllNews([]) == []
  {
  }

  lemma OneMoreDelivers(at: Attached, heard: set<Vec>, rounds: seq<Round>, r: Round)
    requires AllDeliver(at, heard, rounds) && RoundIsServed(at, heard, r) && TrueSlots(at, r.ready) &&
      Delivers(at, heard, r)
    ensures AllDeliver(at, heard, rounds + [r]) && AllNews(rounds + [r]) == AllNews(rounds) + r.news
  {
    hide RoundIsServed, Delivers, TrueSlots;
    assert (rounds + [r])[..|rounds|] == rounds;
  }

  function AllNews(rounds: seq<Round>): seq<Delivery> {
    if rounds == [] then [] else AllNews(rounds[..|rounds| - 1]) + rounds[|rounds| - 1].news
  }

  lemma {:induction false} NewsOfRound(rounds: seq<Round>, k: nat, d: Delivery)
    requires k < |rounds| && d in rounds[k].news
    ensures d in AllNews(rounds)
  {
    if k < |rounds| - 1 {
      NewsOfRound(rounds[..|rounds| - 1], k, d);
    }
  }

  class Dispatcher {
    const attached: Attached
    const heard: set<Vec>  // members that are loaded and have a data interface

    var readyToSend: Table<string>
    var readyToReceive: Table<string>
    var delivered: seq<Delivery>

    predicate Valid()
      reads this
    {
      TrueSlots(attached, readyToSend) && TrueSlots(attached, readyToReceive)
    }

    constructor (attached: Attached, heard: set<Vec>)
      ensures this.attached == attached && this.heard == heard
      ensures Valid() && readyToSend == NoTable() && readyToReceive == NoTable() && delivered == []
    {
      this.attached, this.heard := attached, heard;
      readyToSend, readyToReceive, delivered := NoTable(), NoTable(), [];
    }

    /** The slot of a local port, if the side has a colour and a sub-network and the port is in range. */
    predicate HasSlot(member: Vec, dir: Dir, localPort: int) {
      && (member, dir) in attached && IsColor(attached[(member, dir)].color)
      && InRange(attached[(member, dir)].color, localPort)
    }

    function SlotOf(member: Vec, dir: Dir, localPort: int): (s: Slot)
      requires HasSlot(member, dir, localPort)
      ensures TrueSlot(attached, s) && PortAt(attached, s) == localPort
      ensures s.member == member && s.dir == dir
    {
      Slot(attached[(member, dir)].sub, NetPort(localPort, attached[(member, dir)].color), member, dir)
    }

    /** Two local ports meet exactly when their sides are of one sub-network and their network ports are equal. */
    lemma SlotsMeet(a: Vec, d: Dir, p: int, b: Vec, e: Dir, q: int)
      requires HasSlot(a, d, p) && HasSlot(b, e, q)
      ensures SlotOf(a, d, p).Meets(SlotOf(b, e, q)) <==>
        attached[(a, d)].sub == attached[(b, e)].sub &&
        RangeOf(attached[(a, d)].color).offset + p == RangeOf(attached[(b, e)].color).offset + q
      ensures attached[(a, d)] == attached[(b, e)] ==> (SlotOf(a, d, p).Meets(SlotOf(b, e, q)) <==> p == q)
    {
    }

    method SendValue(member: Vec, dir: Dir, localPort: int, value: string)
      requires Valid()
      modifies this`readyToSend
      ensures Valid()
      ensures readyToSend == if HasSlot(member, dir, localPort) then
        old(readyToSend).Bury(SlotOf(member, dir, localPort), value) else old(readyToSend)
    {
      if HasSlot(member, dir, localPort) {
        readyToSend := readyToSend.Bury(SlotOf(member, dir, localPort), value);
      }
    }

    method MarkReadyToReceive(member: Vec, dir: Dir, localPort: int, state: string)
      requires Valid()
      modifies this`readyToReceive
      ensures Valid()
      ensures readyToReceive == if HasSlot(member, dir, localPort) then
        old(readyToReceive).Bury(SlotOf(member, dir, localPort), state) else old(readyToReceive)
    {
      if HasSlot(member, dir, localPort) {
        readyToReceive := readyToReceive.Bury(SlotOf(member, dir, localPort), state);
      }
    }

    /** A handler may send and get ready as it likes, so the tables may become anything they can be. */
    method ReceivePdu(from: Slot, to: Slot, localPort: int, value: string)
      requires Valid()
      modifies this
      ensures Valid() && delivered == old(delivered) + [Delivery(from, to, localPort, value)]
    {
      delivered := delivered + [Delivery(from, to, localPort, value)];
      var send: Table<string> :| TrueSlots(attached, send);
      var ready: Table<string> :| TrueSlots(attached, ready);
      readyToSend, readyToReceive := send, ready;
    }

    /** The active receivers are ready again. */
    method CarryActive(ready: Table<string>)
      requires Valid() && TrueSlots(attached, ready) && readyToReceive == NoTable()
      modifies this`readyToReceive
      ensures Valid() && readyToReceive.entries == Carried(ready.entries)
    {
      hide TrueSlot, Carried;
      var todo := ready.entries.Keys;
      ghost var done: set<Slot> := {};
      NothingCarried(ready.entries);
      while todo != {}
        invariant todo + done == ready.entries.Keys && todo * done == {} && Valid()
        invariant readyToReceive.entries == Carried(Among(ready.entries, done))
        decreases todo
      {
        var s :| s in todo;
        CarriedMore(ready.entries, done, s);
        if ready.entries[s] == ACTIVE {
          readyToReceive := readyToReceive.Bury(s, ready.entries[s]);
        }
        todo, done := todo - {s}, done + {s};
      }
      assert Among(ready.entries, done) == ready.entries;
    }

    /** One entry goes to the receivers that are left on its port. */
    method SendTo(from: Slot, value: string, ready: map<Slot, string>)
      returns (left: map<Slot, string>, ghost more: seq<Delivery>)
      requires Valid() && forall t :: t in ready ==> TrueSlot(attached, t)
      modifies this
      ensures Valid() && delivered == old(delivered) + more
      ensures left == Left(ready, {from}) && SentOne(attached, from, value, Hearing(ready, heard, from), more)
      ensures more == [] ==> readyToSend == old(readyToSend) && readyToReceive == old(readyToReceive)
    {
      hide TrueSlots, TrueSlot, Got, Distinct;
      left, more := ready, [];
      var todo := set t | t in ready && from.Meets(t);
      ghost var done: set<Slot> := {};
      NoneSent(attached, from, value);
      while todo != {}
        invariant todo + done == (set t | t in ready && from.Meets(t)) && todo * done == {}
        invariant Valid() && delivered == old(delivered) + more
        invariant left == map t | t in ready && (t !in done || ready[t] == ACTIVE) :: ready[t]
        invariant SentOne(attached, from, value, (set t | t in done && t.member in heard), more)
        invariant more == [] ==> readyToSend == old(readyToSend) && readyToReceive == old(readyToReceive)
        decreases todo
      {
        var t :| t in todo;
        if t.member in heard {
          var localPort := LocalOf(t);
          ReceivePdu(from, t, localPort, value);
          OneMoreSent(attached, from, value, heard, done, more, t);
          more := more + [Delivery(from, t, localPort, value)];
        } else {
          assert (set u | u in done + {t} && u.member in heard) == (set u | u in done && u.member in heard);
        }
        if ready[t] != ACTIVE {
          left := left - {t};
        }
        todo, done := todo - {t}, done + {t};
      }
      assert (set t | t in done && t.member in heard) == Hearing(ready, heard, from);
    }

    function LocalOf(t: Slot): int
      requires TrueSlot(attached, t)
    {
      PortAt(attached, t)
    }

    /** One round: all entries are sent, in any order. */
    method DispatchRound() returns (ghost r: Round)
      requires Valid() && readyToSend.subs != {} && readyToReceive.subs != {}
      modifies this
      ensures Valid() && r.send == old(readyToSend) && r.ready == old(readyToReceive) &&
        delivered == old(delivered) + r.news
      ensures RoundIsServed(attached, heard, r) && Delivers(attached, heard, r)
      ensures r.news == [] ==> readyToSend == NoTable() && readyToReceive.entries == Carried(r.ready.entries)
    {
      hide Served, Left, SentOne, TrueSlot;
      var oldSend, oldReceive := readyToSend, readyToReceive;
      readyToSend, readyToReceive := NoTable(), NoTable();
      CarryActive(oldReceive);
      ghost var news: seq<Delivery>, carried := [], readyToReceive;
      var left := oldReceive.entries;
      var todo := oldSend.entries.Keys;
      ghost var done: set<Slot> := {};
      NothingServed(attached, heard, oldSend.entries, oldReceive.entries);
      while todo != {}
        invariant todo + done == oldSend.entries.Keys && todo * done == {}
        invariant Valid() && delivered == old(delivered) + news
        invariant left == Left(oldReceive.entries, done)
        invariant Served(attached, heard, oldSend.entries, oldReceive.entries, done, news)
        invariant news == [] ==> readyToSend == NoTable() && readyToReceive == carried
        decreases todo
      {
        var from :| from in todo;
        ghost var more;
        LeftIsPart(oldReceive.entries, done);
        LeftMore(oldReceive.entries, done, from);
        left, more := SendTo(from, oldSend.entries[from], left);
        ServedMore(attached, heard, oldSend.entries, oldReceive.entries, done, news, from, more);
        news := news + more;
        todo, done := todo - {from}, done + {from};
      }
      r := Round(oldSend, oldReceive, news);
      assert done == oldSend.entries.Keys;
      ServedDelivers(attached, heard, r);
    }

    /**
     At most seventeen rounds, whatever the handlers send and get ready for, and fewer only when
     nothing is to be sent or nobody is ready any more.
     */
    method HandleNetworkDispatch() returns (attempts: nat, ghost rounds: seq<Round>)
      requires Valid()
      modifies this
      ensures Valid() && attempts == |rounds| <= 17
      ensures attempts < 17 ==> readyToSend.subs == {} || readyToReceive.subs == {}
      ensures old(readyToSend.subs != {} && readyToReceive.subs != {}) ==>
        rounds != [] && rounds[0].send == old(readyToSend) && rounds[0].ready == old(readyToReceive)
      ensures delivered == old(delivered) + AllNews(rounds)
      ensures AllDeliver(attached, heard, rounds)
    {
      hide RoundIsServed, Delivers, TrueSlot, AllDeliver;
      attempts, rounds := 0, [];
      NoneDeliver(attached, heard);
      while readyToSend.subs != {} && readyToReceive.subs != {}
        invariant Valid() && attempts == |rounds| <= 17
        invariant delivered == old(delivered) + AllNews(rounds)
        invariant if rounds == [] then readyToSend == old(readyToSend) && readyToReceive == old(readyToReceive)
          else rounds[0].send == old(readyToSend) && rounds[0].ready == old(readyToReceive)
        invariant AllDeliver(attached, heard, rounds)
        decreases 17 - attempts
      {
        if attempts > 16 {
          break;
        }
        attempts := attempts + 1;
        ghost var r := DispatchRound();
        OneMoreDelivers(attached, heard, rounds, r);
        rounds := rounds + [r];
      }
    }
  }

  lemma NoneSent(at: Attached, f: Slot, value: string)
    ensures SentOne(at, f, value, {}, [])
  {
  }

  lemma OneMoreSent(at: Attached, f: Slot, value: string, heard: set<Vec>, done: set<Slot>, more: seq<Delivery>,
                    t: Slot)
    requires SentOne(at, f, value, (set u | u in done && u.member in heard), more)
    requires t !in done && t.member in heard && TrueSlot(at, t)
    ensures SentOne(at, f, value, (set u | u in done + {t} && u.member in heard),
      more + [Delivery(f, t, PortAt(at, t), value)])
  {
    hide TrueSlot;
    var one := [Delivery(f, t, PortAt(at, t), value)];
    forall g, u ensures Got(more + one, g, u) <==> g == f && u in (set v | v in done + {t} && v.member in heard) {
      GotBoth(more, one, g, u);
      assert Got(one, g, u) <==> g == f && u == t by {
        assert one[0].from == f && one[0].to == t;
      }
    }
    assert Distinct(one) && forall g, u :: Got(one, g, u) ==> u == t;
    DistinctBoth(more, one);
  }

  lemma LeftIsPart(ready: map<Slot, string>, done: set<Slot>)
    ensures Left(ready, done).Keys <= ready.Keys
  {
  }

  /**
   A receiver gets the value on a local port of its own, the one it registered; and when neither
   side is `multi`, both have the same colour and the value was sent to the same local port.
   */
  lemma PortComesBack(at: Attached, heard: set<Vec>, r: Round, d: Delivery)
    requires RoundIsServed(at, heard, r) && d in r.news
    ensures TrueSlot(at, d.from) && TrueSlot(at, d.to) && d.localPort == PortAt(at, d.to)
    ensures at[(d.to.member, d.to.dir)].color in COLORS && at[(d.from.member, d.from.dir)].color in COLORS ==>
      at[(d.to.member, d.to.dir)].color == at[(d.from.member, d.from.dir)].color && PortAt(at, d.from) == d.localPort
    ensures d.from.sub == d.to.sub && at[(d.to.member, d.to.dir)].sub == at[(d.from.member, d.from.dir)].sub
  {
    var i :| 0 <= i < |r.news| && r.news[i] == d;
    assert Got(r.news, d.from, d.to) && IsTrue(at, r.send.entries, r.news[i]);
    var a, b := at[(d.to.member, d.to.dir)].color, at[(d.from.member, d.from.dir)].color;
    if a in COLORS && b in COLORS {
      RangesDisjoint(a, b, d.localPort, PortAt(at, d.from));
    }
  }
}
