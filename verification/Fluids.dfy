/** Inventories of fluids: lists of slots, and what adding a stack of fluid does to them. */
module Fluids {
  import opened Basics

  /** A fluid by its canonical name, and how much of it. */
  datatype Stack = Stack(name: Option<string>, amount: int) {
    predicate IsEmpty() {
      amount <= 0
    }
  }

  const NO_FLUID := Stack(None, 0)

  datatype FluidList = FluidList(max: int, entries: seq<Stack>)

  datatype Code = ErrOk | ErrOutOfRange | ErrListNotFound

  function Total(entries: seq<Stack>): int {
    if entries == [] then 0 else Total(entries[..|entries| - 1]) + entries[|entries| - 1].amount
  }

  lemma {:induction false} TotalUpdate(entries: seq<Stack>, i: nat, s: Stack)
    requires i < |entries|
    ensures Total(entries[i := s]) == Total(entries) - entries[i].amount + s.amount
  {
    var n := |entries| - 1;
    if i < n {
      TotalUpdate(entries[..n], i, s);
      assert entries[i := s][..n] == entries[..n][i := s];
    } else {
      assert entries[i := s][..n] == entries[..n];
    }
  }

  /** A slot takes a stack when it is empty or has the same fluid. */
  predicate Accepts(slot: Stack, stack: Stack) {
    slot.IsEmpty() || slot.name == stack.name
  }

  predicate NoneAccepts(entries: seq<Stack>, stack: Stack) {
    forall i :: 0 <= i < |entries| ==> !Accepts(entries[i], stack)
  }

  /** The first `n` slots took what they could of a stack, of which `left` is left. */
  ghost predicate Filled(before: seq<Stack>, after: seq<Stack>, n: nat, max: int, stack: Stack, left: Stack) {
    && |after| == |before| && n <= |before| && left.name == stack.name
    && (forall i :: n <= i < |before| ==> after[i] == before[i])
    && (forall i :: 0 <= i < n && !Accepts(before[i], stack) ==> after[i] == before[i])
    && (forall i :: 0 <= i < n && after[i] != before[i] ==> Accepts(before[i], stack) && after[i].name == stack.name)
    && (max >= 0 ==> (forall i :: 0 <= i < n && after[i] != before[i] ==> after[i].amount <= max))
    && (max >= 0 && left.amount > 0 ==> forall i :: 0 <= i < n && Accepts(before[i], stack) ==> after[i].amount == max)
    && (max >= 0 ==> forall i, j ::
      0 <= i < j < n && Accepts(before[i], stack) && after[j] != before[j] ==> after[i].amount == max)
    && (max >= 0 && stack.amount > 0 ==> forall i ::
      0 <= i < n && Accepts(before[i], stack) && NoneAccepts(before[..i], stack) ==>
        after[i].name == stack.name && after[i].amount == Min(max, stack.amount + Held(before[i])))
    && (max < 0 || NoneAccepts(before[..n], stack) ==> left == stack)
    && (max < 0 && stack.amount > 0 ==> forall i :: 0 <= i < n && Accepts(before[i], stack) ==>
        after[i].amount == stack.amount + Held(before[i]))
  }

  function Held(slot: Stack): int {
    if slot.IsEmpty() then 0 else slot.amount
  }

  /**
   In terms of names and amounts: slots of another fluid stay as they are; the first slot that is empty
   or has the fluid takes as much as the limit lets it, or all when there is no limit; and when
   something is left every such slot is full.
   */
  ghost predicate TakesWhereItFits(was: FluidList, after: seq<Stack>, stack: Stack, left: Stack) {
    var before := was.entries;
    && |after| == |before| && left.name == stack.name
    && (forall i :: 0 <= i < |before| && before[i].amount > 0 && before[i].name != stack.name ==> after[i] == before[i])
    && (stack.amount > 0 ==> forall i ::
      0 <= i < |before| && (before[i].amount <= 0 || before[i].name == stack.name) &&
        (forall k :: 0 <= k < i ==> before[k].amount > 0 && before[k].name != stack.name) ==>
        var all := stack.amount + Max(0, before[i].amount);
        after[i] == Stack(stack.name, if was.max >= 0 then Min(was.max, all) else all))
    && (was.max >= 0 && left.amount > 0 ==> forall i ::
      0 <= i < |before| && (before[i].amount <= 0 || before[i].name == stack.name) ==> after[i].amount == was.max)
  }

  lemma FilledWhereItFits(was: FluidList, after: seq<Stack>, stack: Stack, left: Stack)
    requires Filled(was.entries, after, |was.entries|, was.max, stack, left)
    ensures TakesWhereItFits(was, after, stack, left)
  {
    var before := was.entries;
    forall i | 0 <= i < |before| && (before[i].amount <= 0 || before[i].name == stack.name) &&
      (forall k :: 0 <= k < i ==> before[k].amount > 0 && before[k].name != stack.name)
      ensures Accepts(before[i], stack) && NoneAccepts(before[..i], stack)
    {
    }
  }

  class FluidInventory {
    var lists: map<string, FluidList>

    constructor ()
      ensures lists == map[]
    {
      lists := map[];
    }

    /** The slots that remain keep their fluid; what is in the others is lost. */
    method SetSize(name: string, size: int)
      modifies this
      ensures size <= 0 ==> lists == old(lists) - {name}
      ensures size > 0 ==> lists.Keys == old(lists).Keys + {name} && |lists[name].entries| == size
      ensures forall l :: l in old(lists) && l != name ==> l in lists && lists[l] == old(lists)[l]
      ensures size > 0 && name in old(lists) ==> var was := old(lists)[name];
        && lists[name].max == was.max
        && (forall i ::
          0 <= i < size ==> lists[name].entries[i] == if i < |was.entries| then was.entries[i] else NO_FLUID)
        && (size >= |was.entries| ==> Total(lists[name].entries) == Total(was.entries))
      ensures size > 0 && name !in old(lists) ==> lists[name].max == -1 && Total(lists[name].entries) == 0
    {
      if size > 0 {
        var was := if name in lists then lists[name].entries else [];
        var max := if name in lists then lists[name].max else -1;
        var entries := Resized(was, size);
        assert was[..|was|] == was;
        lists := lists[name := FluidList(max, entries)];
      } else {
        lists := lists - {name};
      }
    }

    method Resized(was: seq<Stack>, size: nat) returns (entries: seq<Stack>)
      ensures |entries| == size && forall k :: 0 <= k < size ==> entries[k] == if k < |was| then was[k] else NO_FLUID
      ensures Total(entries) == Total(was[..if size < |was| then size else |was|])
    {
      entries := [];
      for i := 0 to size
        invariant |entries| == i && forall k :: 0 <= k < i ==> entries[k] == if k < |was| then was[k] else NO_FLUID
        invariant Total(entries) == Total(was[..if i < |was| then i else |was|])
      {
        var entry := if i < |was| then was[i] else NO_FLUID;
        assert (entries + [entry])[..i] == entries;
        if i < |was| {
          assert was[..i + 1][..i] == was[..i];
        }
        entries := entries + [entry];
      }
    }

    method SetFluidStack(name: string, index: int, stack: Option<Stack>) returns (code: Code)
      modifies this
      ensures code == if name !in old(lists) then ErrListNotFound
        else if 1 <= index <= |old(lists)[name].entries| then ErrOk else ErrOutOfRange
      ensures code == ErrOk ==> var l := old(lists)[name];
        lists == old(lists)[name := l.(entries := l.entries[index - 1 :=
          if stack.None? then NO_FLUID
            else stack.value.(amount := if 0 <= l.max < stack.value.amount then l.max else stack.value.amount)])]
      ensures code != ErrOk ==> lists == old(lists)
    {
      if name !in lists {
        return ErrListNotFound;
      }
      var l := lists[name];
      if index < 1 || index > |l.entries| {
        return ErrOutOfRange;
      }
      var slot := NO_FLUID;
      if stack.Some? {
        slot := stack.value;
        if l.max >= 0 {
          slot := slot.(amount := if slot.amount <= l.max then slot.amount else l.max);
        }
      }
      lists := lists[name := l.(entries := l.entries[index - 1 := slot])];
      return ErrOk;
    }

    /**
     The slots in order take what they can. What is added and what is left make up the stack exactly
     when the list has a limit, or there was nothing to add, or no slot takes it: without a limit
     every slot that takes it takes all of it.
     */
    method AddFluidStack(name: string, stack: Stack) returns (left: Stack, code: Code)
      modifies this
      ensures code == if name in old(lists) then ErrOk else ErrListNotFound
      ensures code == ErrListNotFound ==> left == stack && lists == old(lists)
      ensures code == ErrOk ==>
        name in lists && lists == old(lists)[name := lists[name]] && lists[name].max == old(lists)[name].max
      ensures code == ErrOk ==> var l := old(lists)[name];
        && Filled(l.entries, lists[name].entries, |l.entries|, l.max, stack, left)
        && (Total(lists[name].entries) + left.amount == Total(l.entries) + stack.amount
            <==> l.max >= 0 || stack.amount <= 0 || NoneAccepts(l.entries, stack))
      ensures code == ErrOk ==> TakesWhereItFits(old(lists)[name], lists[name].entries, stack, left)
    {
      if name !in lists {
        return stack, ErrListNotFound;
      }
      var l := lists[name];
      var entries;
      entries, left := FillSlots(l.entries, l.max, stack);
      FilledWhereItFits(l, entries, stack, left);
      lists := lists[name := l.(entries := entries)];
      return left, ErrOk;
    }

    method FillSlots(before: seq<Stack>, max: int, stack: Stack) returns (entries: seq<Stack>, left: Stack)
      ensures Filled(before, entries, |before|, max, stack, left)
      ensures Total(entries) + left.amount == Total(before) + stack.amount <==>
        max >= 0 || stack.amount <= 0 || NoneAccepts(before, stack)
    {
      hide Filled, Total;
      entries, left := before, stack;
      ghost var taken := false;
      NothingFilled(before, max, stack);
      for i := 0 to |before|
        invariant |entries| == |before| && left.name == stack.name
        invariant Filled(before, entries, i, max, stack, left)
        invariant max >= 0 ==> Total(entries) + left.amount == Total(before) + stack.amount
        invariant max < 0 ==> left == stack && if taken then Total(entries) > Total(before) else entries == before
        invariant if i == 0 then left == stack else stack.amount > 0
        invariant taken <==> stack.amount > 0 && exists k :: 0 <= k < i && Accepts(before[k], stack)
      {
        if left.amount <= 0 {
          NothingLeft(before, entries, i, max, stack, left);
          break;
        }
        var slot := entries[i];
        SlotFills(before, entries, i, max, stack, left);
        if Accepts(slot, left) {
          taken := true;
          var slot' := if slot.IsEmpty() then left else Stack(slot.name, slot.amount + left.amount);
          if max >= 0 {
            var amount := if slot'.amount <= max then slot'.amount else max;
            left := left.(amount := left.amount - (amount - slot.amount));
            slot' := slot'.(amount := amount);
          }
          TotalUpdate(entries, i, slot');
          entries := entries[i := slot'];
        } else {
          assert entries[i := slot] == entries;
        }
      }
    }
  }

  lemma NothingFilled(before: seq<Stack>, max: int, stack: Stack)
    ensures Filled(before, before, 0, max, stack, stack)
  {
  }

  lemma NothingLeft(before: seq<Stack>, after: seq<Stack>, n: nat, max: int, stack: Stack, left: Stack)
    requires Filled(before, after, n, max, stack, left) && left.amount <= 0
    ensures Filled(before, after, |before|, max, stack, left)
    ensures max < 0 ==> stack.amount <= 0
  {
    if stack.amount > 0 {
      forall i | n <= i < |before| && Accepts(before[i], stack) ensures !NoneAccepts(before[..i], stack) {
        var k :| 0 <= k < n && Accepts(before[..n][k], stack);
        assert before[..i][k] == before[k];
      }
      forall i | n <= i < |before| && !NoneAccepts(before[..n], stack) ensures !NoneAccepts(before[..i], stack) {
        var k :| 0 <= k < n && Accepts(before[..n][k], stack);
        assert before[..i][k] == before[k];
      }
    }
  }

  /** What one slot makes of a stack: the slot, and what is left. */
  function TakeIn(slot: Stack, left: Stack, max: int): (Stack, Stack) {
    if !Accepts(slot, left) then (slot, left)
    else
      var merged := if slot.IsEmpty() then left else Stack(slot.name, slot.amount + left.amount);
      if max < 0 then (merged, left)
      else
        var amount := if merged.amount <= max then merged.amount else max;
        (merged.(amount := amount), left.(amount := left.amount - (amount - slot.amount)))
  }

  lemma SlotFills(before: seq<Stack>, after: seq<Stack>, n: nat, max: int, stack: Stack, left: Stack)
    requires Filled(before, after, n, max, stack, left) && n < |before| && left.amount > 0
    ensures after[n] == before[n]
    ensures var (slot, rest) := TakeIn(before[n], left, max); Filled(before, after[n := slot], n + 1, max, stack, rest)
  {
    assert before[..n + 1] == before[..n] + [before[n]];
    if NoneAccepts(before[..n + 1], stack) {
      assert before[..n + 1][n] == before[n];
      assert forall k :: 0 <= k < n ==> before[..n + 1][k] == before[..n][k];
    }
  }
}
