/**
 Message references and ordered sequences of them.

 A reference is the pair (timestamp, sequenceNumber); references are compared
 lexicographically.
 */
module MessageRefs {

  datatype Option<+T> = None | Some(value: T)

  /** What a condition adds to a count. */
  function One(b: bool): nat {
    if b then 1 else 0
  }

  datatype MessageRef = MessageRef(timestamp: int, sequenceNumber: int) {

    /** Strictly earlier in the lexicographic order. */
    predicate Before(other: MessageRef) {
      || timestamp < other.timestamp
      || (timestamp == other.timestamp && sequenceNumber < other.sequenceNumber)
    }

    predicate AtMost(other: MessageRef) {
      this == other || Before(other)
    }

    /** Negative, zero or positive, as the comparators of the source expect. */
    function CompareTo(other: MessageRef): (c: int)
      ensures c < 0 <==> Before(other)
      ensures c == 0 <==> this == other
      ensures c > 0 <==> other.Before(this)
    {
      if timestamp != other.timestamp then timestamp - other.timestamp
      else sequenceNumber - other.sequenceNumber
    }
  }

  /** Strictly ascending, hence duplicate-free. */
  ghost predicate Ascending(s: seq<MessageRef>) {
    forall i, j | 0 <= i < j < |s| :: s[i].Before(s[j])
  }

  /** Every reference of `s` is strictly before `r`. */
  ghost predicate AllBefore(s: seq<MessageRef>, r: MessageRef) {
    forall x | x in s :: x.Before(r)
  }

  /** The elements of `s` that are not in `t`, in the order of `s`. */
  ghost function Minus(s: seq<MessageRef>, t: seq<MessageRef>): seq<MessageRef> {
    if s == [] then []
    else if s[0] in t then Minus(s[1..], t)
    else [s[0]] + Minus(s[1..], t)
  }

  lemma {:induction false} MinusMembers(s: seq<MessageRef>, t: seq<MessageRef>)
    ensures forall x :: x in Minus(s, t) <==> x in s && x !in t
  {
    if s != [] {
      MinusMembers(s[1..], t);
      assert s == [s[0]] + s[1..];
    }
  }

  lemma {:induction false} MinusAscending(s: seq<MessageRef>, t: seq<MessageRef>)
    requires Ascending(s)
    ensures Ascending(Minus(s, t))
  {
    if s != [] {
      MinusAscending(s[1..], t);
      MinusMembers(s[1..], t);
      assert forall x | x in s[1..] :: s[0].Before(x);
    }
  }

  lemma AscendingParts(a: seq<MessageRef>, b: seq<MessageRef>)
    requires Ascending(a + b)
    ensures Ascending(a) && Ascending(b)
    ensures forall x, y | x in a && y in b :: x.Before(y)
  {
    var s := a + b;
    assert forall i | 0 <= i < |a| :: a[i] == s[i];
    assert forall i | 0 <= i < |b| :: b[i] == s[|a| + i];
  }

  /** An ascending sequence is determined by its elements. */
  lemma {:induction false} AscendingUnique(a: seq<MessageRef>, b: seq<MessageRef>)
    requires Ascending(a) && Ascending(b)
    requires forall x :: x in a <==> x in b
    ensures a == b
  {
    assert a != [] ==> a[0] in a;
    assert b != [] ==> b[0] in b;
    if a != [] && b != [] {
      assert a[0] in b && b[0] in a;
      assert a[0] == b[0];
      forall x ensures x in a[1..] <==> x in b[1..] {
        assert x in a <==> x == a[0] || x in a[1..];
        assert x in b <==> x == b[0] || x in b[1..];
      }
      AscendingUnique(a[1..], b[1..]);
    }
  }

  /** Appending a later reference keeps a sequence ascending. */
  lemma AscendingAppend(s: seq<MessageRef>, r: MessageRef)
    requires Ascending(s) && AllBefore(s, r)
    ensures Ascending(s + [r])
  {
  }
}
