/**
 The list with which the primary node tracks which references it has to deliver
 and which of them are already in its own store.
 */
module AggregationLists {
  import opened MessageRefs

  datatype Item = Item(messageRef: MessageRef, isReady: bool)

  ghost predicate SortedByRef(items: seq<Item>) {
    forall i, j | 0 <= i < j < |items| :: items[i].messageRef.Before(items[j].messageRef)
  }

  /** Index of the item with reference `r`, or -1. */
  function Find(items: seq<Item>, r: MessageRef): (index: int)
    ensures -1 <= index < |items|
    ensures index == -1 ==> forall i | 0 <= i < |items| :: items[i].messageRef != r
    ensures index != -1 ==> items[index].messageRef == r
  {
    if items == [] then -1
    else if items[0].messageRef == r then 0
    else
      var rest := Find(items[1..], r);
      if rest == -1 then -1 else rest + 1
  }

  function Insert(x: Item, sorted: seq<Item>): seq<Item> {
    if sorted == [] || x.messageRef.CompareTo(sorted[0].messageRef) <= 0 then [x] + sorted
    else [sorted[0]] + Insert(x, sorted[1..])
  }

  /** What sorting an array by `CompareTo` yields. */
  function SortItems(items: seq<Item>): seq<Item> {
    if items == [] then [] else Insert(items[0], SortItems(items[1..]))
  }

  /** Length of the longest prefix of ready items. */
  function ReadyCount(items: seq<Item>): (n: nat)
    ensures n <= |items|
    ensures forall k | 0 <= k < n :: items[k].isReady
    ensures n < |items| ==> !items[n].isReady
  {
    if items == [] || !items[0].isReady then 0 else 1 + ReadyCount(items[1..])
  }

  /** Number of leading items that are not after `bound`. */
  function CountUpTo(items: seq<Item>, bound: MessageRef): (n: nat)
    ensures n <= |items|
    ensures forall k | 0 <= k < n :: items[k].messageRef.AtMost(bound)
    ensures n < |items| ==> !items[n].messageRef.AtMost(bound)
  {
    if items == [] || !items[0].messageRef.AtMost(bound) then 0 else 1 + CountUpTo(items[1..], bound)
  }

  /** The value of a list. */
  datatype State = State(items: seq<Item>, threshold: Option<MessageRef>) {

    ghost predicate Valid() {
      && SortedByRef(items)
      && (threshold.Some? ==> forall i | 0 <= i < |items| :: threshold.value.Before(items[i].messageRef))
    }

    /** References at or below the threshold are no longer accepted. */
    predicate Drops(r: MessageRef) {
      threshold.Some? && r.AtMost(threshold.value)
    }

    function Push(r: MessageRef, isReady: bool): State {
      if Drops(r) then this
      else
        var index := Find(items, r);
        if index != -1 then
          this.(items := items[index := Item(items[index].messageRef, items[index].isReady || isReady)])
        else this.(items := SortItems(items + [Item(r, isReady)]))
    }

    function ReadyFrom(): Option<MessageRef> {
      if items != [] && items[0].isReady then Some(items[0].messageRef) else None
    }

    function ReadyTo(): Option<MessageRef> {
      var n := ReadyCount(items);
      if n == 0 then None else Some(items[n - 1].messageRef)
    }

    function Shrink(bound: MessageRef): State {
      State(items[CountUpTo(items, bound)..], Some(bound))
    }

    /** The list as a map from reference to readiness: where it is defined ... */
    ghost predicate Lists(r: MessageRef) {
      Item(r, true) in items || Item(r, false) in items
    }

    /** ... and where it is true. */
    ghost predicate Ready(r: MessageRef) {
      Item(r, true) in items
    }
  }

  const EMPTY: State := State([], None)

  class AggregationList {
    var items: seq<Item>
    var threshold: Option<MessageRef>

    ghost function View(): State
      reads this
    {
      State(items, threshold)
    }

    constructor ()
      ensures View() == EMPTY
    {
      items, threshold := [], None;
    }

    method IsEmpty() returns (empty: bool)
      ensures empty <==> View().items == []
    {
      empty := |items| == 0;
    }

    method ReadyFrom() returns (r: Option<MessageRef>)
      ensures r == View().ReadyFrom()
    {
      if |items| > 0 && items[0].isReady {
        return Some(items[0].messageRef);
      }
      r := None;
    }

    method ReadyTo() returns (r: Option<MessageRef>)
      ensures r == View().ReadyTo()
    {
      if |items| == 0 || !items[0].isReady {
        return None;
      }
      var i := 1;
      while i < |items| && items[i].isReady
        invariant 1 <= i <= |items|
        invariant ReadyCount(items) == i + ReadyCount(items[i..])
      {
        i := i + 1;
      }
      if i <= |items| {
        return Some(items[i - 1].messageRef);
      }
      r := None;
    }

    method Push(messageRef: MessageRef, isReady: bool)
      modifies this
      ensures View() == old(View()).Push(messageRef, isReady)
    {
      if threshold.Some? && threshold.value.CompareTo(messageRef) >= 0 {
        return;
      }
      var index := Find(items, messageRef);
      if index != -1 {
        items := items[index := Item(items[index].messageRef, items[index].isReady || isReady)];
      } else {
        items := SortItems(items + [Item(messageRef, isReady)]);
      }
    }

    method Shrink(bound: MessageRef)
      modifies this
      ensures View() == old(View()).Shrink(bound)
    {
      var i := 0;
      while i < |items| && items[i].messageRef.CompareTo(bound) <= 0
        invariant 0 <= i <= |items|
        invariant CountUpTo(items, bound) == i + CountUpTo(items[i..], bound)
      {
        i := i + 1;
      }
      if i > 0 {
        items := items[i..];
      }
      threshold := Some(bound);
    }
  }

  // ---------- The list refines a map ----------

  /** A sorted list is determined by its items. */
  lemma {:induction false} SortedUnique(a: seq<Item>, b: seq<Item>)
    requires SortedByRef(a) && SortedByRef(b)
    requires forall x :: x in a <==> x in b
    ensures a == b
  {
    assert a != [] ==> a[0] in a;
    assert b != [] ==> b[0] in b;
    if a != [] && b != [] {
      assert a[0] in b && b[0] in a;
      assert a[0] == b[0];
      forall x ensures x in a[1..] <==> x in b[1..] {
        assert x in a <==> x == a[0] || x in a[1..];
        assert x in b <==> x == b[0] || x in b[1..];
      }
      SortedUnique(a[1..], b[1..]);
    }
  }

  ghost predicate DistinctRefs(items: seq<Item>) {
    forall i, j | 0 <= i < j < |items| :: items[i].messageRef != items[j].messageRef
  }

  lemma {:induction false} InsertSorts(x: Item, t: seq<Item>)
    requires SortedByRef(t)
    requires forall y | y in t :: y.messageRef != x.messageRef
    ensures SortedByRef(Insert(x, t))
    ensures forall y :: y in Insert(x, t) <==> y == x || y in t
  {
    if t == [] || x.messageRef.CompareTo(t[0].messageRef) <= 0 {
      assert t != [] ==> t[0] in t;
    } else {
      InsertSorts(x, t[1..]);
      forall y | y in Insert(x, t[1..]) ensures t[0].messageRef.Before(y.messageRef) {
      }
      assert forall y :: y in t <==> y == t[0] || y in t[1..];
    }
  }

  lemma {:induction false} SortSorts(items: seq<Item>)
    requires DistinctRefs(items)
    ensures SortedByRef(SortItems(items))
    ensures forall y :: y in SortItems(items) <==> y in items
  {
    if items != [] {
      SortSorts(items[1..]);
      InsertSorts(items[0], SortItems(items[1..]));
      assert forall y :: y in items <==> y == items[0] || y in items[1..];
    }
  }

  lemma MemberIsListed(s: State, x: Item)
    requires x in s.items
    ensures s.Lists(x.messageRef) && (x.isReady ==> s.Ready(x.messageRef))
  {
  }

  lemma OneItemPerRef(s: State, x: Item, y: Item)
    requires s.Valid() && x in s.items && y in s.items && x.messageRef == y.messageRef
    ensures x == y
  {
  }

  /** A valid list is determined by its map. */
  lemma MapDeterminesList(s: State, t: State)
    requires s.Valid() && t.Valid()
    requires forall r :: s.Lists(r) <==> t.Lists(r)
    requires forall r :: s.Ready(r) <==> t.Ready(r)
    ensures s.items == t.items
  {
    SameMembers(s, t);
    SameMembers(t, s);
    SortedUnique(s.items, t.items);
  }

  lemma SameMembers(s: State, t: State)
    requires s.Valid() && t.Valid()
    requires forall r :: s.Lists(r) <==> t.Lists(r)
    requires forall r :: s.Ready(r) <==> t.Ready(r)
    ensures forall x | x in s.items :: x in t.items
  {
    forall x | x in s.items ensures x in t.items {
      MemberIsListed(s, x);
      assert t.Lists(x.messageRef);
      if !x.isReady && s.Ready(x.messageRef) {
        OneItemPerRef(s, x, Item(x.messageRef, true));
      }
    }
  }

  /** `Push` is a disjunctive update of the map, unless the threshold drops the reference. */
  lemma PushRefines(s: State, r: MessageRef, isReady: bool)
    requires s.Valid()
    ensures var t := s.Push(r, isReady);
      && t.Valid() && t.threshold == s.threshold
      && (forall x :: t.Lists(x) <==> s.Lists(x) || (x == r && !s.Drops(r)))
      && (forall x :: t.Ready(x) <==> s.Ready(x) || (x == r && !s.Drops(r) && isReady))
  {
    if !s.Drops(r) {
      if Find(s.items, r) != -1 {
        PushUpdates(s, r, isReady);
      } else {
        PushInserts(s, r, isReady);
      }
    }
  }

  lemma PushUpdates(s: State, r: MessageRef, isReady: bool)
    requires s.Valid() && !s.Drops(r) && Find(s.items, r) != -1
    ensures var t := s.Push(r, isReady);
      && t.Valid()
      && (forall x :: t.Lists(x) <==> s.Lists(x))
      && (forall x :: t.Ready(x) <==> s.Ready(x) || (x == r && isReady))
  {
    var t, k := s.Push(r, isReady), Find(s.items, r);
    var was := s.items[k];
    assert was in s.items && t.items[k] in t.items;
    forall x: Item | x.messageRef != r ensures x in t.items <==> x in s.items {
      if x in s.items {
        var i :| 0 <= i < |s.items| && s.items[i] == x;
        assert t.items[i] == x;
      }
      if x in t.items {
        var i :| 0 <= i < |t.items| && t.items[i] == x;
        assert s.items[i] == x;
      }
    }
    forall b ensures Item(r, b) in s.items <==> b == was.isReady {
      if Item(r, b) in s.items {
        OneItemPerRef(s, Item(r, b), was);
      }
    }
    assert t.Valid();
    forall b ensures Item(r, b) in t.items <==> b == (was.isReady || isReady) {
      if Item(r, b) in t.items {
        OneItemPerRef(t, Item(r, b), t.items[k]);
      }
    }
  }

  lemma PushInserts(s: State, r: MessageRef, isReady: bool)
    requires s.Valid() && !s.Drops(r) && Find(s.items, r) == -1
    ensures var t := s.Push(r, isReady);
      && t.Valid()
      && (forall x :: t.Lists(x) <==> s.Lists(x) || x == r)
      && (forall x :: t.Ready(x) <==> s.Ready(x) || (x == r && isReady))
  {
    var t, x := s.Push(r, isReady), Item(r, isReady);
    SortSorts(s.items + [x]);
    assert forall y :: y in t.items <==> y in s.items || y == x;
    forall i | 0 <= i < |t.items| && s.threshold.Some?
      ensures s.threshold.value.Before(t.items[i].messageRef)
    {
      assert t.items[i] in t.items;
    }
  }

  /** `Shrink` restricts the map to the references after the bound. */
  lemma ShrinkRefines(s: State, bound: MessageRef)
    requires s.Valid()
    ensures var t := s.Shrink(bound);
      && t.Valid() && t.threshold == Some(bound)
      && (forall x :: t.Lists(x) <==> s.Lists(x) && bound.Before(x))
      && (forall x :: t.Ready(x) <==> s.Ready(x) && bound.Before(x))
  {
  }

  /**
   `ReadyFrom` and `ReadyTo` delimit the longest ready prefix: everything the list
   holds up to `ReadyTo` is ready, and the next reference, if any, is not.
   */
  lemma ReadyRange(s: State)
    requires s.Valid()
    ensures s.ReadyFrom().Some? <==> s.ReadyTo().Some?
    ensures s.ReadyTo().None? ==> s.items == [] || !s.items[0].isReady
    ensures s.ReadyTo().Some? ==>
      var from, to := s.ReadyFrom().value, s.ReadyTo().value;
      && s.Ready(from) && s.Ready(to) && from.AtMost(to)
      && (forall r | s.Lists(r) && r.AtMost(to) :: s.Ready(r) && from.AtMost(r))
      && (s.threshold.Some? ==> s.threshold.value.Before(from))
      && (s.Shrink(to).items != [] ==> !s.Shrink(to).items[0].isReady)
  {
  }

  // ---------- Between two shrinks the order of pushes does not matter ----------

  function PushAll(s: State, pushes: seq<(MessageRef, bool)>): State
    decreases |pushes|
  {
    if pushes == [] then s else PushAll(s.Push(pushes[0].0, pushes[0].1), pushes[1..])
  }

  /** The map after any pushes, told from the set of pushes alone. */
  lemma {:induction false} PushAllRefines(s: State, pushes: seq<(MessageRef, bool)>)
    requires s.Valid()
    ensures var t := PushAll(s, pushes);
      && t.Valid() && t.threshold == s.threshold
      && (forall r :: t.Lists(r) <==> s.Lists(r) || (!s.Drops(r) && ((r, true) in pushes || (r, false) in pushes)))
      && (forall r :: t.Ready(r) <==> s.Ready(r) || (!s.Drops(r) && (r, true) in pushes))
    decreases |pushes|
  {
    if pushes != [] {
      var (r, isReady) := pushes[0];
      PushRefines(s, r, isReady);
      PushAllRefines(s.Push(r, isReady), pushes[1..]);
      assert forall x :: x in pushes <==> x == pushes[0] || x in pushes[1..];
    }
  }

  /** Two lists of pushes with the same members leave the same list. */
  lemma PushOrderIrrelevant(s: State, a: seq<(MessageRef, bool)>, b: seq<(MessageRef, bool)>)
    requires s.Valid()
    requires forall x :: x in a <==> x in b
    ensures PushAll(s, a) == PushAll(s, b)
  {
    PushAllRefines(s, a);
    PushAllRefines(s, b);
    MapDeterminesList(PushAll(s, a), PushAll(s, b));
  }
}
