/**
 A foreign node's side of a query: it compares its own references with those the
 primary announces and ships the rows that the primary lacks.
 */
module Propagators {
  import opened MessageRefs
  import PropagationLists

  /**
   An open query by references that is piped into the propagation stream, with
   the rows it has still to write. `closes` says whether its end ends the stream.
   */
  datatype ByRefQuery = ByRefQuery(refs: seq<MessageRef>, closes: bool)

  /**
   The value of a propagator. `queries` are the open queries in issue order,
   `asked` every reference ever queried, `written` the rows written to the
   propagation stream and `ended` whether that stream was ended.
   */
  datatype State = State(
    list: PropagationLists.State,
    queries: seq<ByRefQuery>,
    asked: seq<MessageRef>,
    written: seq<MessageRef>,
    ended: bool)
  {
    function DoCheck(): State {
      var diff := list.Diff();
      if |diff| > 0 then
        this.(list := list.Shrunk(), queries := queries + [ByRefQuery(diff, list.IsFinalized())], asked := asked + diff)
      else if list.IsFinalized() && queries == [] then
        this.(list := list.Shrunk(), ended := true)
      else
        this.(list := list.Shrunk())
    }

    function OnForeignRow(r: MessageRef): State {
      this.(list := list.PushForeign(r)).DoCheck()
    }

    function OnForeignEnd(): State {
      this.(list := list.(isForeignFinalized := true)).DoCheck()
    }

    function OnPrimaryResponse(refs: seq<MessageRef>, isFinal: bool): State {
      var l := PushPrimary(list, refs);
      this.(list := if isFinal then l.(isPrimaryFinalized := true) else l).DoCheck()
    }

    /** Query `i` writes its next row to the propagation stream. */
    function OnByRefRow(i: nat): State
      requires i < |queries| && queries[i].refs != []
    {
      var q := queries[i];
      this.(queries := queries[i := q.(refs := q.refs[1..])], written := written + [q.refs[0]])
    }

    /** Query `i` ends: first the handler of the propagator runs, then that of the pipe. */
    function OnByRefEnd(i: nat): State
      requires i < |queries|
    {
      var s := this.(queries := queries[..i] + queries[i + 1..]).DoCheck();
      if queries[i].closes then s.(ended := true) else s
    }
  }

  function PushPrimary(list: PropagationLists.State, refs: seq<MessageRef>): PropagationLists.State
    decreases |refs|
  {
    if refs == [] then list else PushPrimary(list.PushPrimary(refs[0]), refs[1..])
  }

  const INITIAL: State := State(PropagationLists.EMPTY, [], [], [], false)

  class Propagator {
    const propagationList: PropagationLists.PropagationList
    var queryStreams: seq<ByRefQuery>
    var asked: seq<MessageRef>
    var written: seq<MessageRef>
    var ended: bool

    ghost function View(): State
      reads this, propagationList
    {
      State(propagationList.View(), queryStreams, asked, written, ended)
    }

    constructor ()
      ensures View() == INITIAL
      ensures fresh(propagationList)
    {
      propagationList := new PropagationLists.PropagationList();
      queryStreams, asked, written, ended := [], [], [], false;
    }

    method DoCheck()
      modifies this, propagationList
      ensures View() == old(View()).DoCheck()
    {
      var messageRefs := propagationList.GetDiffAndShrink();
      var isFinalized := propagationList.isPrimaryFinalized && propagationList.isForeignFinalized;
      if |messageRefs| > 0 {
        queryStreams := queryStreams + [ByRefQuery(messageRefs, isFinalized)];
        asked := asked + messageRefs;
      } else if isFinalized && queryStreams == [] {
        ended := true;
      }
    }

    method OnForeignRow(messageRef: MessageRef)
      modifies this, propagationList
      ensures View() == old(View()).OnForeignRow(messageRef)
    {
      propagationList.PushForeign(messageRef);
      DoCheck();
    }

    method OnForeignEnd()
      modifies this, propagationList
      ensures View() == old(View()).OnForeignEnd()
    {
      propagationList.FinalizeForeign();
      DoCheck();
    }

    method OnPrimaryResponse(messageRefs: seq<MessageRef>, isFinal: bool)
      modifies this, propagationList
      ensures View() == old(View()).OnPrimaryResponse(messageRefs, isFinal)
    {
      var i := 0;
      while i < |messageRefs|
        modifies propagationList
        invariant 0 <= i <= |messageRefs|
        invariant PushPrimary(propagationList.View(), messageRefs[i..])
               == PushPrimary(old(propagationList.View()), messageRefs)
      {
        propagationList.PushPrimary(messageRefs[i]);
        i := i + 1;
      }
      if isFinal {
        propagationList.FinalizePrimary();
      }
      DoCheck();
    }

    method OnByRefRow(i: nat)
      requires i < |queryStreams| && queryStreams[i].refs != []
      modifies this
      ensures View() == old(View()).OnByRefRow(i)
    {
      var q := queryStreams[i];
      queryStreams := queryStreams[i := q.(refs := q.refs[1..])];
      written := written + [q.refs[0]];
    }

    method OnByRefEnd(i: nat)
      requires i < |queryStreams|
      modifies this, propagationList
      ensures View() == old(View()).OnByRefEnd(i)
    {
      var closes := queryStreams[i].closes;
      queryStreams := queryStreams[..i] + queryStreams[i + 1..];
      DoCheck();
      if closes {
        ended := true;
      }
    }
  }

  // ---------- What a propagator keeps when no closing query overtakes one with rows ----------

  ghost predicate InOpenQuery(s: State, r: MessageRef) {
    exists q | q in s.queries :: r in q.refs
  }

  /** No query has a row left to write to an ended stream. */
  ghost predicate NothingToWrite(s: State) {
    s.ended ==> forall q | q in s.queries :: q.refs == []
  }

  /** A stream ends only when both lists are final, and only the last query may close it. */
  ghost predicate NoWriteAfterEnd(s: State) {
    && NothingToWrite(s) && (s.ended ==> s.list.IsFinalized())
    && (forall i | 0 <= i < |s.queries| && s.queries[i].closes :: i == |s.queries| - 1 && s.list.IsFinalized())
  }

  /** Query `i` may end: all its rows are written and, if it closes the stream, those of the others, too. */
  predicate MayEnd(s: State, i: nat) {
    && i < |s.queries| && s.queries[i].refs == []
    && (s.queries[i].closes ==> forall q | q in s.queries :: q.refs == [])
  }

  /** Once both lists are final nothing is left to ask for, and the stream has ended or will. */
  ghost predicate Settled(s: State) {
    s.list.IsFinalized() ==> s.list.foreignItems == [] && (s.queries != [] || s.ended)
  }

  /**
   `p` and `f` are the references announced by the primary and read from the own
   store. Whatever the list handed out is on its way or written.
   */
  ghost predicate Inv(s: State, p: seq<MessageRef>, f: seq<MessageRef>) {
    && PropagationLists.Inv(s.list, p, f, s.asked)
    && NoWriteAfterEnd(s)
    && (forall r | r in s.asked :: r in s.written || InOpenQuery(s, r))
    && (forall r | r in s.written :: r in s.asked)
    && (forall q, r | q in s.queries && r in q.refs :: r in s.asked)
  }

  /** `Inv` just before a check: the list may have become final in this very step. */
  ghost predicate PreCheck(s: State, p: seq<MessageRef>, f: seq<MessageRef>) {
    Inv(s, p, f) && (s.ended ==> s.list.foreignItems == []) &&
    ((exists q | q in s.queries :: q.closes) ==> s.list.foreignItems == [])
  }

  lemma CheckKeeps(s: State, p: seq<MessageRef>, f: seq<MessageRef>)
    requires PreCheck(s, p, f)
    ensures var t := s.DoCheck();
      && Inv(t, p, f) && Settled(t)
      && t.list.isPrimaryFinalized == s.list.isPrimaryFinalized
      && t.list.isForeignFinalized == s.list.isForeignFinalized
      && t.written == s.written
  {
    var t, diff := s.DoCheck(), s.list.Diff();
    PropagationLists.GetDiffKeeps(s.list, p, f, s.asked);
    if |diff| > 0 {
      var q := ByRefQuery(diff, s.list.IsFinalized());
      assert t.queries == s.queries + [q];
      assert forall x :: x in t.queries <==> x in s.queries || x == q;
      forall r | r in t.asked ensures r in t.written || InOpenQuery(t, r) {
        if r in diff {
          assert q in t.queries;
        } else {
          assert r in s.asked;
        }
      }
      forall i | 0 <= i < |t.queries| && t.queries[i].closes ensures i == |t.queries| - 1 {
        assert t.queries[i] in t.queries;
      }
    } else {
      assert s.asked + diff == s.asked;
    }
  }

  lemma ForeignRowKeeps(s: State, p: seq<MessageRef>, f: seq<MessageRef>, r: MessageRef)
    requires Inv(s, p, f) && Settled(s)
    requires !s.list.isForeignFinalized && AllBefore(f, r)
    ensures var t := s.OnForeignRow(r); Inv(t, p, f + [r]) && Settled(t)
    ensures s.OnForeignRow(r).written == s.written
    ensures s.OnForeignRow(r).list.isPrimaryFinalized == s.list.isPrimaryFinalized
    ensures !s.OnForeignRow(r).list.isForeignFinalized
  {
    PropagationLists.PushForeignKeeps(s.list, p, f, s.asked, r);
    NoneCloses(s);
    CheckKeeps(s.(list := s.list.PushForeign(r)), p, f + [r]);
  }

  lemma NoneCloses(s: State)
    requires NoWriteAfterEnd(s) && !s.list.IsFinalized()
    ensures forall q | q in s.queries :: !q.closes
  {
  }

  lemma ForeignEndKeeps(s: State, p: seq<MessageRef>, f: seq<MessageRef>)
    requires Inv(s, p, f) && Settled(s) && !s.list.isForeignFinalized
    ensures var t := s.OnForeignEnd(); Inv(t, p, f) && Settled(t)
    ensures s.OnForeignEnd().written == s.written
    ensures s.OnForeignEnd().list.isPrimaryFinalized == s.list.isPrimaryFinalized
    ensures s.OnForeignEnd().list.isForeignFinalized
  {
    NoneCloses(s);
    CheckKeeps(s.(list := s.list.(isForeignFinalized := true)), p, f);
  }

  lemma {:induction false} PushPrimaryKeeps(l: PropagationLists.State, p: seq<MessageRef>, f: seq<MessageRef>,
                                            asked: seq<MessageRef>, refs: seq<MessageRef>)
    requires PropagationLists.Inv(l, p, f, asked) && !l.isPrimaryFinalized
    requires Ascending(p + refs)
    ensures var t := PushPrimary(l, refs);
      && PropagationLists.Inv(t, p + refs, f, asked)
      && !t.isPrimaryFinalized && t.isForeignFinalized == l.isForeignFinalized
    decreases |refs|
  {
    if refs == [] {
      assert p + refs == p;
    } else {
      AscendingParts(p, refs);
      assert refs[0] in refs;
      PropagationLists.PushPrimaryKeeps(l, p, f, asked, refs[0]);
      assert p + refs == (p + [refs[0]]) + refs[1..];
      PushPrimaryKeeps(l.PushPrimary(refs[0]), p + [refs[0]], f, asked, refs[1..]);
    }
  }

  lemma PrimaryResponseKeeps(s: State, p: seq<MessageRef>, f: seq<MessageRef>, refs: seq<MessageRef>, isFinal: bool)
    requires Inv(s, p, f) && Settled(s)
    requires !s.list.isPrimaryFinalized && Ascending(p + refs)
    ensures var t := s.OnPrimaryResponse(refs, isFinal); Inv(t, p + refs, f) && Settled(t)
    ensures s.OnPrimaryResponse(refs, isFinal).written == s.written
    ensures s.OnPrimaryResponse(refs, isFinal).list.isPrimaryFinalized == isFinal
    ensures s.OnPrimaryResponse(refs, isFinal).list.isForeignFinalized == s.list.isForeignFinalized
  {
    PushPrimaryKeeps(s.list, p, f, s.asked, refs);
    NoneCloses(s);
    var l := PushPrimary(s.list, refs);
    CheckKeeps(s.(list := if isFinal then l.(isPrimaryFinalized := true) else l), p + refs, f);
  }

  lemma ByRefRowKeeps(s: State, p: seq<MessageRef>, f: seq<MessageRef>, i: nat)
    requires Inv(s, p, f) && Settled(s)
    requires i < |s.queries| && s.queries[i].refs != []
    ensures !s.ended
    ensures var t := s.OnByRefRow(i); Inv(t, p, f) && Settled(t)
  {
    var t, q := s.OnByRefRow(i), s.queries[i];
    assert q in s.queries && t.queries[i] in t.queries;
    assert q.refs[0] in q.refs;
    forall r | r in s.asked && r !in t.written ensures InOpenQuery(t, r) {
      var x :| x in s.queries && r in x.refs;
      var k :| 0 <= k < |s.queries| && s.queries[k] == x;
      assert t.queries[k] in t.queries;
      assert k == i ==> r in t.queries[i].refs;
    }
    forall x, r | x in t.queries && r in x.refs ensures r in t.asked {
      var k :| 0 <= k < |t.queries| && t.queries[k] == x;
      assert s.queries[k] in s.queries;
      assert r in s.queries[k].refs;
    }
  }

  /** A query writes its rows in order: what is written and what is left of it stay one sequence. */
  lemma ByRefRowsInOrder(s: State, i: nat)
    requires i < |s.queries| && s.queries[i].refs != []
    ensures var t := s.OnByRefRow(i);
      && t.written + t.queries[i].refs == s.written + s.queries[i].refs && |t.written| == |s.written| + 1
      && t.queries[i].closes == s.queries[i].closes && |t.queries| == |s.queries|
      && forall k | 0 <= k < |s.queries| && k != i :: t.queries[k] == s.queries[k]
  {
  }

  lemma ByRefEndKeeps(s: State, p: seq<MessageRef>, f: seq<MessageRef>, i: nat)
    requires Inv(s, p, f) && Settled(s) && MayEnd(s, i)
    ensures var t := s.OnByRefEnd(i); Inv(t, p, f) && Settled(t)
    ensures s.OnByRefEnd(i).written == s.written
    ensures s.OnByRefEnd(i).list.isPrimaryFinalized == s.list.isPrimaryFinalized
    ensures s.OnByRefEnd(i).list.isForeignFinalized == s.list.isForeignFinalized
  {
    var u := s.(queries := s.queries[..i] + s.queries[i + 1..]);
    assert s.queries == s.queries[..i] + [s.queries[i]] + s.queries[i + 1..];
    assert forall q | q in s.queries :: q == s.queries[i] || q in u.queries;
    forall r | r in u.asked && r !in u.written ensures InOpenQuery(u, r) {
      var q :| q in s.queries && r in q.refs;
    }
    forall q | q in u.queries && q.closes ensures u.list.foreignItems == [] {
      assert q in s.queries;
      var k :| 0 <= k < |s.queries| && s.queries[k] == q;
    }
    CheckKeeps(u, p, f);
    if s.queries[i].closes {
      assert s.list.Diff() == [];
    }
  }

  /** Some query other than `i` has rows left. */
  ghost predicate OthersWrite(queries: seq<ByRefQuery>, i: nat) {
    exists j | 0 <= j < |queries| && j != i :: queries[j].refs != []
  }

  lemma OthersRemain(queries: seq<ByRefQuery>, i: nat)
    requires i < |queries|
    ensures OthersWrite(queries, i) <==> exists q | q in queries[..i] + queries[i + 1..] :: q.refs != []
  {
    var rest := queries[..i] + queries[i + 1..];
    forall j | 0 <= j < |queries| && j != i ensures queries[j] in rest {
      assert rest[if j < i then j else j - 1] == queries[j];
    }
    forall q | q in rest && q.refs != [] ensures OthersWrite(queries, i) {
      var k :| 0 <= k < |rest| && rest[k] == q;
      assert q == queries[if k < i then k else k + 1];
    }
  }

  /**
   Out of issue order the stream may end under a query: the end of query `i`
   leaves no row to be written to an ended stream exactly when it is not a closing
   query that overtakes one with rows left.
   */
  lemma EndInOrderIff(s: State, p: seq<MessageRef>, f: seq<MessageRef>, i: nat)
    requires Inv(s, p, f) && Settled(s) && i < |s.queries|
    ensures NothingToWrite(s.OnByRefEnd(i)) <==> !(s.queries[i].closes && OthersWrite(s.queries, i))
  {
    hide PropagationLists.Inv, OthersWrite;
    OthersRemain(s.queries, i);
    var u := s.(queries := s.queries[..i] + s.queries[i + 1..]);
    assert forall q | q in u.queries :: q in s.queries;
    if s.list.IsFinalized() {
      assert s.list.Diff() == [];
    }
  }

  // ---------- What a propagator has asked for ----------

  /**
   Asked for are exactly the references of foreign minus primary that the primary
   has passed, and all of them once it is final: none early, and none late.
   */
  ghost predicate AsksExactly(s: State, p: seq<MessageRef>, f: seq<MessageRef>) {
    forall x :: x in s.asked <==>
      x in f && x !in p && (s.list.isPrimaryFinalized || (p != [] && x.AtMost(p[|p| - 1])))
  }

  lemma CheckAsksExactly(s: State, p: seq<MessageRef>, f: seq<MessageRef>)
    requires PropagationLists.Inv(s.list, p, f, s.asked)
    ensures AsksExactly(s.DoCheck(), p, f)
  {
    hide PropagationLists.Inv;
    var t := s.DoCheck();
    assert t.asked == s.asked + s.list.Diff();
    forall x ensures x in t.asked <==>
      x in f && x !in p && (t.list.isPrimaryFinalized || (p != [] && x.AtMost(p[|p| - 1])))
    {
      PropagationLists.DiffIsComplete(s.list, p, f, s.asked, x);
    }
  }

  /** That is so after each call, whatever has been asked for before it. */
  lemma ForeignRowAsksExactly(s: State, p: seq<MessageRef>, f: seq<MessageRef>, r: MessageRef)
    requires PropagationLists.Inv(s.list, p, f, s.asked) && AllBefore(f, r)
    ensures AsksExactly(s.OnForeignRow(r), p, f + [r])
  {
    PropagationLists.PushForeignKeeps(s.list, p, f, s.asked, r);
    CheckAsksExactly(s.(list := s.list.PushForeign(r)), p, f + [r]);
  }

  lemma ForeignEndAsksExactly(s: State, p: seq<MessageRef>, f: seq<MessageRef>)
    requires PropagationLists.Inv(s.list, p, f, s.asked)
    ensures AsksExactly(s.OnForeignEnd(), p, f)
  {
    CheckAsksExactly(s.(list := s.list.(isForeignFinalized := true)), p, f);
  }

  lemma PrimaryResponseAsksExactly(s: State, p: seq<MessageRef>, f: seq<MessageRef>, refs: seq<MessageRef>,
                                   isFinal: bool)
    requires PropagationLists.Inv(s.list, p, f, s.asked) && !s.list.isPrimaryFinalized && Ascending(p + refs)
    ensures AsksExactly(s.OnPrimaryResponse(refs, isFinal), p + refs, f)
  {
    PushPrimaryKeeps(s.list, p, f, s.asked, refs);
    var l := PushPrimary(s.list, refs);
    CheckAsksExactly(s.(list := if isFinal then l.(isPrimaryFinalized := true) else l), p + refs, f);
  }

  lemma ByRefEndAsksExactly(s: State, p: seq<MessageRef>, f: seq<MessageRef>, i: nat)
    requires PropagationLists.Inv(s.list, p, f, s.asked) && i < |s.queries|
    ensures AsksExactly(s.OnByRefEnd(i), p, f)
  {
    CheckAsksExactly(s.(queries := s.queries[..i] + s.queries[i + 1..]), p, f);
  }

  // ---------- A closing query that overtakes another ----------

  /** A row of the own store that the primary has passed, and one that it has not. */
  function Overtaken(a: MessageRef, b: MessageRef, c: MessageRef): State {
    INITIAL.OnForeignRow(a).OnPrimaryResponse([b], false).OnForeignRow(c)
  }

  lemma OvertakenQueries(a: MessageRef, b: MessageRef, c: MessageRef)
    requires a.Before(b) && b.Before(c)
    ensures Overtaken(a, b, c) ==
      State(PropagationLists.State([b], Some(b), false, [c], false), [ByRefQuery([a], false)], [a], [], false)
  {
    var s1 := INITIAL.OnForeignRow(a);
    assert s1 == State(PropagationLists.State([], None, false, [a], false), [], [], [], false);
    var l := s1.list.PushPrimary(b);
    assert PushPrimary(s1.list, [b]) == PushPrimary(l, [b][1..]) == l;
    assert l == PropagationLists.State([b], Some(b), false, [a], false);
    assert PropagationLists.CountUpTo([a], b) == 1;
    assert [a][..1] == [a] && [a][1..] == [];
    var s2 := s1.OnPrimaryResponse([b], false);
    assert s2 ==
      State(PropagationLists.State([b], Some(b), false, [], false), [ByRefQuery([a], false)], [a], [], false);
    assert s2.list.PushForeign(c) == PropagationLists.State([b], Some(b), false, [c], false);
    assert PropagationLists.CountUpTo([c], b) == 0;
    assert [c][..0] == [] && [c][0..] == [c];
  }

  lemma OvertakenEnds(b: MessageRef, c: MessageRef, s: State)
    requires s.list == PropagationLists.State([b], Some(b), false, [c], false) && b.Before(c)
    ensures var t := s.OnForeignEnd().OnPrimaryResponse([], true);
      t == s.(list := PropagationLists.State([b], Some(b), true, [], true),
              queries := s.queries + [ByRefQuery([c], true)], asked := s.asked + [c])
  {
    assert PropagationLists.CountUpTo([c], b) == 0;
    assert [c][..0] == [] && [c][0..] == [c];
    var t := s.OnForeignEnd();
    assert t == s.(list := PropagationLists.State([b], Some(b), false, [c], true));
    assert [c][..1] == [c] && [c][1..] == [];
  }

  lemma OvertakingEnd(a: MessageRef, b: MessageRef, c: MessageRef, s: State)
    requires s.list == PropagationLists.State([b], Some(b), true, [], true) && !s.ended
    requires s.queries == [ByRefQuery([a], false), ByRefQuery([c], true)]
    ensures var t := s.OnByRefRow(1).OnByRefEnd(1); t.ended && t.queries == [ByRefQuery([a], false)]
  {
    var u := s.OnByRefRow(1);
    assert [c][1..] == [];
    assert u.queries == [ByRefQuery([a], false), ByRefQuery([], true)];
    assert u.queries[..1] + u.queries[2..] == [ByRefQuery([a], false)];
  }

  /** Both streams then end, and the closing query for `c` overtakes the one for `a`. */
  lemma EndOutOfOrderLosesRow()
    ensures var a, b, c := MessageRef(1, 0), MessageRef(2, 0), MessageRef(3, 0);
      var s := Overtaken(a, b, c).OnForeignEnd().OnPrimaryResponse([], true);
      && s.queries == [ByRefQuery([a], false), ByRefQuery([c], true)]
      && var t := s.OnByRefRow(1).OnByRefEnd(1);
      t.ended && t.queries == [ByRefQuery([a], false)]
  {
    var a, b, c := MessageRef(1, 0), MessageRef(2, 0), MessageRef(3, 0);
    OvertakenQueries(a, b, c);
    OvertakenEnds(b, c, Overtaken(a, b, c));
    hide Overtaken, State.OnForeignRow, State.OnForeignEnd, State.OnPrimaryResponse, State.OnByRefRow, State.OnByRefEnd;
    OvertakingEnd(a, b, c, Overtaken(a, b, c).OnForeignEnd().OnPrimaryResponse([], true));
  }
}
