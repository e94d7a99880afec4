/**
 The list with which a foreign node finds out, on line, which of its own
 references the primary node lacks.
 */
module PropagationLists {
  import opened MessageRefs

  /** Index of the first occurrence of `r`, or -1. */
  function FindIndex(items: seq<MessageRef>, r: MessageRef): (index: int)
    ensures -1 <= index < |items|
    ensures index == -1 <==> r !in items
    ensures index != -1 ==> items[index] == r && r !in items[..index]
  {
    if items == [] then -1
    else if items[0] == r then 0
    else
      var rest := FindIndex(items[1..], r);
      assert items == [items[0]] + items[1..];
      assert rest != -1 ==> items[..rest + 1] == [items[0]] + items[1..][..rest];
      if rest == -1 then -1 else rest + 1
  }

  /** Number of leading references that are not after `bound`. */
  function CountUpTo(items: seq<MessageRef>, bound: MessageRef): (n: nat)
    ensures n <= |items|
    ensures forall k | 0 <= k < n :: items[k].AtMost(bound)
    ensures n < |items| ==> !items[n].AtMost(bound)
  {
    if items == [] || !items[0].AtMost(bound) then 0 else 1 + CountUpTo(items[1..], bound)
  }

  /** The value of a list. */
  datatype State = State(
    primaryItems: seq<MessageRef>,
    latestPrimary: Option<MessageRef>,
    isPrimaryFinalized: bool,
    foreignItems: seq<MessageRef>,
    isForeignFinalized: bool)
  {
    predicate IsFinalized() {
      isPrimaryFinalized && isForeignFinalized
    }

    function PushPrimary(r: MessageRef): State {
      var s := this.(latestPrimary := Some(r));
      var index := FindIndex(foreignItems, r);
      if index != -1 then s.(foreignItems := foreignItems[..index] + foreignItems[index + 1..])
      else s.(primaryItems := primaryItems + [r])
    }

    function PushForeign(r: MessageRef): State {
      var index := FindIndex(primaryItems, r);
      if index != -1 then this.(primaryItems := primaryItems[index + 1..])
      else this.(foreignItems := foreignItems + [r])
    }

    /** How many foreign items the next difference returns. */
    function DiffLength(): (n: nat)
      ensures n <= |foreignItems|
    {
      if isPrimaryFinalized then |foreignItems|
      else if latestPrimary.None? then 0
      else CountUpTo(foreignItems, latestPrimary.value)
    }

    function Diff(): seq<MessageRef> {
      foreignItems[..DiffLength()]
    }

    function Shrunk(): State {
      this.(foreignItems := foreignItems[DiffLength()..])
    }
  }

  const EMPTY: State := State([], None, false, [], false)

  class PropagationList {
    var primaryItems: seq<MessageRef>
    var latestPrimary: Option<MessageRef>
    var isPrimaryFinalized: bool
    var foreignItems: seq<MessageRef>
    var isForeignFinalized: bool

    ghost function View(): State
      reads this
    {
      State(primaryItems, latestPrimary, isPrimaryFinalized, foreignItems, isForeignFinalized)
    }

    constructor ()
      ensures View() == EMPTY
    {
      primaryItems, latestPrimary, isPrimaryFinalized := [], None, false;
      foreignItems, isForeignFinalized := [], false;
    }

    method PushPrimary(messageRef: MessageRef)
      modifies this
      ensures View() == old(View()).PushPrimary(messageRef)
    {
      latestPrimary := Some(messageRef);
      var index := FindIndex(foreignItems, messageRef);
      if index != -1 {
        foreignItems := foreignItems[..index] + foreignItems[index + 1..];
      } else {
        primaryItems := primaryItems + [messageRef];
      }
    }

    method PushForeign(messageRef: MessageRef)
      modifies this
      ensures View() == old(View()).PushForeign(messageRef)
    {
      var index := FindIndex(primaryItems, messageRef);
      if index != -1 {
        primaryItems := primaryItems[index + 1..];
      } else {
        foreignItems := foreignItems + [messageRef];
      }
    }

    method FinalizePrimary()
      modifies this
      ensures View() == old(View()).(isPrimaryFinalized := true)
    {
      isPrimaryFinalized := true;
    }

    method FinalizeForeign()
      modifies this
      ensures View() == old(View()).(isForeignFinalized := true)
    {
      isForeignFinalized := true;
    }

    method GetDiffAndShrink() returns (diff: seq<MessageRef>)
      modifies this
      ensures diff == old(View()).Diff()
      ensures View() == old(View()).Shrunk()
      ensures diff + foreignItems == old(foreignItems)
      ensures isPrimaryFinalized ==> foreignItems == []
      ensures !isPrimaryFinalized && latestPrimary == None ==> diff == []
      ensures !isPrimaryFinalized && latestPrimary.Some? ==>
        && (forall x | x in diff :: x.AtMost(latestPrimary.value))
        && (foreignItems != [] ==> !foreignItems[0].AtMost(latestPrimary.value))
    {
      if isPrimaryFinalized {
        diff := foreignItems;
        foreignItems := [];
        return;
      }
      if latestPrimary.None? {
        return [];
      }
      var i := 0;
      while i < |foreignItems| && foreignItems[i].CompareTo(latestPrimary.value) <= 0
        invariant 0 <= i <= |foreignItems|
        invariant CountUpTo(foreignItems, latestPrimary.value)
               == i + CountUpTo(foreignItems[i..], latestPrimary.value)
      {
        i := i + 1;
      }
      diff := foreignItems[..i];
      foreignItems := foreignItems[i..];
    }
  }

  /**
   What a list knows after the primary references `p` and the foreign references
   `f` have been pushed and `shipped` is everything the differences returned.
   */
  ghost predicate Inv(s: State, p: seq<MessageRef>, f: seq<MessageRef>, shipped: seq<MessageRef>) {
    && Ascending(p) && Ascending(f)
    && s.latestPrimary == (if p == [] then None else Some(p[|p| - 1]))
    && Ascending(shipped + s.foreignItems)
    && (forall x :: x in shipped + s.foreignItems <==> x in f && x !in p)
    && Ascending(s.primaryItems)
    && (forall x | x in s.primaryItems :: x in p)
    && (forall x | x in p && AllBefore(f, x) :: x in s.primaryItems)
    && (!s.isPrimaryFinalized ==> forall x | x in shipped :: p != [] && x.AtMost(p[|p| - 1]))
  }

  lemma PushPrimaryKeeps(s: State, p: seq<MessageRef>, f: seq<MessageRef>, shipped: seq<MessageRef>, r: MessageRef)
    requires Inv(s, p, f, shipped) && !s.isPrimaryFinalized
    requires AllBefore(p, r)
    ensures Inv(s.PushPrimary(r), p + [r], f, shipped)
  {
    AscendingAppend(p, r);
    assert p != [] ==> p[|p| - 1] in p;
    assert forall x | x in shipped :: x.Before(r);
    if FindIndex(s.foreignItems, r) != -1 {
      PushPrimaryMatches(s, p, f, shipped, r);
    } else {
      forall x | x in s.primaryItems ensures x.Before(r) { assert x in p; }
      AscendingAppend(s.primaryItems, r);
      assert r in shipped + s.foreignItems <==> r in f;
    }
  }

  lemma PushPrimaryMatches(s: State, p: seq<MessageRef>, f: seq<MessageRef>, shipped: seq<MessageRef>, r: MessageRef)
    requires Inv(s, p, f, shipped) && !s.isPrimaryFinalized
    requires Ascending(p + [r]) && (forall x | x in shipped :: x.Before(r)) && FindIndex(s.foreignItems, r) != -1
    ensures Inv(s.PushPrimary(r), p + [r], f, shipped)
  {
    var t, all := s.PushPrimary(r), shipped + s.foreignItems;
    var k := |shipped| + FindIndex(s.foreignItems, r);
    assert shipped + t.foreignItems == all[..k] + all[k + 1..];
    assert all[k] == r;
    RemoveFromAscending(all, k);
    assert r in f;
  }

  lemma RemoveFromAscending(s: seq<MessageRef>, k: nat)
    requires Ascending(s) && k < |s|
    ensures Ascending(s[..k] + s[k + 1..])
    ensures forall x :: x in s[..k] + s[k + 1..] <==> x in s && x != s[k]
  {
  }

  lemma PushForeignMatches(s: State, p: seq<MessageRef>, f: seq<MessageRef>, shipped: seq<MessageRef>, r: MessageRef)
    requires Inv(s, p, f, shipped) && AllBefore(f, r) && FindIndex(s.primaryItems, r) != -1
    ensures Inv(s.PushForeign(r), p, f + [r], shipped)
  {
    AscendingAppend(f, r);
    var t := s.PushForeign(r);
    var index := FindIndex(s.primaryItems, r);
    assert forall x :: x in f + [r] <==> x in f || x == r;
    forall x | x in p && AllBefore(f + [r], x) ensures x in t.primaryItems {
      assert x in s.primaryItems;
      var i :| 0 <= i < |s.primaryItems| && s.primaryItems[i] == x;
      assert r in f + [r] && r.Before(x);
      assert i > index;
      assert x == t.primaryItems[i - index - 1];
    }
  }

  lemma PushForeignAppends(s: State, p: seq<MessageRef>, f: seq<MessageRef>, shipped: seq<MessageRef>, r: MessageRef)
    requires Inv(s, p, f, shipped) && AllBefore(f, r) && FindIndex(s.primaryItems, r) == -1
    ensures Inv(s.PushForeign(r), p, f + [r], shipped)
  {
    AscendingAppend(f, r);
    var t, all := s.PushForeign(r), shipped + s.foreignItems;
    assert forall x :: x in f + [r] <==> x in f || x == r;
    assert r !in p;
    assert AllBefore(all, r);
    AscendingAppend(all, r);
    assert shipped + t.foreignItems == all + [r];
    forall x | x in p && AllBefore(f + [r], x) ensures x in t.primaryItems {
      assert AllBefore(f, x) by { forall y | y in f ensures y.Before(x) { assert y in f + [r]; } }
    }
  }

  lemma PushForeignKeeps(s: State, p: seq<MessageRef>, f: seq<MessageRef>, shipped: seq<MessageRef>, r: MessageRef)
    requires Inv(s, p, f, shipped)
    requires AllBefore(f, r)
    ensures Inv(s.PushForeign(r), p, f + [r], shipped)
  {
    hide Inv, State.PushForeign;
    if FindIndex(s.primaryItems, r) != -1 {
      PushForeignMatches(s, p, f, shipped, r);
    } else {
      PushForeignAppends(s, p, f, shipped, r);
    }
  }

  lemma GetDiffKeeps(s: State, p: seq<MessageRef>, f: seq<MessageRef>, shipped: seq<MessageRef>)
    requires Inv(s, p, f, shipped)
    ensures Inv(s.Shrunk(), p, f, shipped + s.Diff())
    ensures s.isPrimaryFinalized ==> s.Shrunk().foreignItems == []
  {
    assert shipped + s.foreignItems == (shipped + s.Diff()) + s.Shrunk().foreignItems;
    forall x | x in shipped + s.Diff() && !s.isPrimaryFinalized
      ensures p != [] && x.AtMost(p[|p| - 1])
    {
    }
  }

  /** One call of the list's public interface. */
  datatype Call =
    | CallPushPrimary(r: MessageRef)
    | CallPushForeign(r: MessageRef)
    | CallFinalizePrimary
    | CallFinalizeForeign
    | CallGetDiffAndShrink

  /** A list together with everything pushed to it and everything it returned. */
  datatype History = History(
    list: State,
    primary: seq<MessageRef>,
    foreign: seq<MessageRef>,
    shipped: seq<MessageRef>)
  {
    /** Both streams are ascending and nothing is pushed after its finalisation. */
    ghost predicate Allows(c: Call) {
      match c
      case CallPushPrimary(r) => !list.isPrimaryFinalized && AllBefore(primary, r)
      case CallPushForeign(r) => !list.isForeignFinalized && AllBefore(foreign, r)
      case _ => true
    }

    function After(c: Call): History {
      match c
      case CallPushPrimary(r) => this.(list := list.PushPrimary(r), primary := primary + [r])
      case CallPushForeign(r) => this.(list := list.PushForeign(r), foreign := foreign + [r])
      case CallFinalizePrimary => this.(list := list.(isPrimaryFinalized := true))
      case CallFinalizeForeign => this.(list := list.(isForeignFinalized := true))
      case CallGetDiffAndShrink => this.(list := list.Shrunk(), shipped := shipped + list.Diff())
    }
  }

  const START: History := History(EMPTY, [], [], [])

  function Run(h: History, calls: seq<Call>): History
    decreases |calls|
  {
    if calls == [] then h else Run(h.After(calls[0]), calls[1..])
  }

  ghost predicate Legal(h: History, calls: seq<Call>)
    decreases |calls|
  {
    calls == [] || (h.Allows(calls[0]) && Legal(h.After(calls[0]), calls[1..]))
  }

  lemma CallKeeps(h: History, c: Call)
    requires Inv(h.list, h.primary, h.foreign, h.shipped) && h.Allows(c)
    ensures var t := h.After(c); Inv(t.list, t.primary, t.foreign, t.shipped)
  {
    match c
    case CallPushPrimary(r) => PushPrimaryKeeps(h.list, h.primary, h.foreign, h.shipped, r);
    case CallPushForeign(r) => PushForeignKeeps(h.list, h.primary, h.foreign, h.shipped, r);
    case CallGetDiffAndShrink => GetDiffKeeps(h.list, h.primary, h.foreign, h.shipped);
    case _ =>
  }

  lemma {:induction false} RunKeeps(h: History, calls: seq<Call>)
    requires Inv(h.list, h.primary, h.foreign, h.shipped) && Legal(h, calls)
    ensures var t := Run(h, calls); Inv(t.list, t.primary, t.foreign, t.shipped)
    decreases |calls|
  {
    if calls != [] {
      CallKeeps(h, calls[0]);
      RunKeeps(h.After(calls[0]), calls[1..]);
    }
  }

  lemma {:induction false} RunAppend(h: History, a: seq<Call>, b: seq<Call>)
    ensures Run(h, a + b) == Run(Run(h, a), b)
    ensures Legal(h, a + b) ==> Legal(h, a) && Legal(Run(h, a), b)
    decreases |a|
  {
    if a == [] {
      assert a + b == b;
    } else {
      assert (a + b)[1..] == a[1..] + b;
      RunAppend(h.After(a[0]), a[1..], b);
    }
  }

  lemma {:induction false} RunOnlyExtends(h: History, calls: seq<Call>)
    ensures h.primary <= Run(h, calls).primary
    ensures h.shipped <= Run(h, calls).shipped
    decreases |calls|
  {
    if calls != [] {
      RunOnlyExtends(h.After(calls[0]), calls[1..]);
    }
  }

  /**
   Whatever the interleaving, the chunking and the schedule of differences: the
   differences taken together are ascending and never hold a reference that the
   primary has reported or reports later in the run.
   */
  lemma DifferencesAvoidPrimary(calls: seq<Call>, more: seq<Call>)
    requires Legal(START, calls + more)
    ensures Ascending(Run(START, calls).shipped)
    ensures forall x | x in Run(START, calls).shipped ::
      x in Run(START, calls).foreign && x !in Run(START, calls + more).primary
  {
    RunAppend(START, calls, more);
    var h, t := Run(START, calls), Run(START, calls + more);
    RunKeeps(START, calls);
    RunKeeps(START, calls + more);
    RunOnlyExtends(h, more);
    AscendingParts(h.shipped, h.list.foreignItems);
    forall x | x in h.shipped ensures x in h.foreign && x !in t.primary {
      assert x in h.shipped + h.list.foreignItems;
      assert x in t.shipped + t.list.foreignItems;
    }
  }

  /** The references that a list keeps after a difference lie after the latest primary reference. */
  lemma KeptIsAfter(s: State, shipped: seq<MessageRef>, x: MessageRef)
    requires Ascending(shipped + s.foreignItems) && !s.isPrimaryFinalized && s.latestPrimary.Some?
    ensures x in s.Shrunk().foreignItems ==> s.latestPrimary.value.Before(x)
    ensures x in s.Diff() ==> x.AtMost(s.latestPrimary.value)
  {
    AscendingParts(shipped, s.foreignItems);
    var n, rest := s.DiffLength(), s.Shrunk().foreignItems;
    if x in rest {
      var i :| 0 <= i < |rest| && rest[i] == x;
      assert s.foreignItems[n] == rest[0] && s.foreignItems[n + i] == x;
    }
  }

  lemma DiffIsComplete(s: State, p: seq<MessageRef>, f: seq<MessageRef>, shipped: seq<MessageRef>, x: MessageRef)
    requires Inv(s, p, f, shipped)
    ensures x in shipped + s.Diff() <==>
      x in f && x !in p && (s.isPrimaryFinalized || (p != [] && x.AtMost(p[|p| - 1])))
  {
    var diff, rest := s.Diff(), s.Shrunk().foreignItems;
    assert s.foreignItems == diff + rest;
    assert x in shipped + s.foreignItems <==> x in f && x !in p;
    if !s.isPrimaryFinalized && p != [] {
      KeptIsAfter(s, shipped, x);
    }
    hide State.DiffLength, State.Diff, State.Shrunk;
  }

  /**
   How far a difference goes: with it, exactly those references of foreign minus
   primary are shipped that the primary has passed, and all once it is final.
   */
  lemma DifferenceIsComplete(calls: seq<Call>, x: MessageRef)
    requires Legal(START, calls)
    ensures var h := Run(START, calls);
      x in h.After(CallGetDiffAndShrink).shipped <==>
        && x in h.foreign && x !in h.primary
        && (h.list.isPrimaryFinalized || (h.primary != [] && x.AtMost(h.primary[|h.primary| - 1])))
  {
    hide Legal, Run, Inv;
    RunKeeps(START, calls) by { StartInv(); }
    var h := Run(START, calls);
    DiffIsComplete(h.list, h.primary, h.foreign, h.shipped, x);
  }

  lemma StartInv()
    ensures Inv(START.list, START.primary, START.foreign, START.shipped)
  {
  }

  /** Once both streams are finalised, one last difference completes foreign minus primary. */
  lemma FinalDifferenceIsExact(calls: seq<Call>)
    requires Legal(START, calls)
    requires Run(START, calls).list.IsFinalized()
    ensures var h := Run(START, calls).After(CallGetDiffAndShrink);
      h.shipped == Minus(h.foreign, h.primary) && h.list.foreignItems == []
  {
    var g := Run(START, calls);
    RunKeeps(START, calls);
    GetDiffKeeps(g.list, g.primary, g.foreign, g.shipped);
    var h := g.After(CallGetDiffAndShrink);
    assert h.shipped + h.list.foreignItems == h.shipped;
    MinusMembers(h.foreign, h.primary);
    MinusAscending(h.foreign, h.primary);
    AscendingUnique(h.shipped, Minus(h.foreign, h.primary));
  }
}
