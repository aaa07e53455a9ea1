/**
 * Facts about sequences that the model uses for every element type: the last
 * element, concatenation of a sequence of sequences, and first-seen orders.
 * Stated once for any element type, they keep the proofs about intervals and
 * records small.
 */
module Seqs {

  function Last<T>(s: seq<T>): T
    requires s != []
  {
    s[|s| - 1]
  }

  function Flatten<T>(ss: seq<seq<T>>): seq<T>
  {
    if ss == [] then [] else Flatten(ss[..|ss| - 1]) + Last(ss)
  }

  /** `order` extended by `x` when `x` is not yet in it. */
  function AppendNew<T(==)>(order: seq<T>, x: T): seq<T>
  {
    if x in order then order else order + [x]
  }

  lemma AppendNewMembers<T>(order: seq<T>, x: T, y: T)
    ensures y in AppendNew(order, x) <==> y in order || y == x
  {
  }

  /** A first-seen order stays free of repetitions and grows by at most one. */
  lemma AppendNewDistinct<T>(order: seq<T>, x: T)
    requires Distinct(order)
    ensures Distinct(AppendNew(order, x)) && |AppendNew(order, x)| <= |order| + 1
  {
  }

  predicate Distinct<T(==)>(s: seq<T>)
  {
    forall i, j :: 0 <= i < j < |s| ==> s[i] != s[j]
  }

  /** The parts of a sequence with one more element at its end. */
  lemma SnocParts<T>(a: seq<T>, x: T)
    ensures (a + [x])[..|a|] == a && (a + [x])[|a|] == x
  {
  }

  /** A non-empty sequence is its front followed by its last element. */
  lemma FrontLast<T>(s: seq<T>)
    requires s != []
    ensures s[..|s| - 1] + [Last(s)] == s
  {
  }

  lemma AppendEmpty<T>(a: seq<T>)
    ensures a + [] == a
  {
  }

  lemma AppendAssociates<T>(a: seq<T>, b: seq<T>, c: seq<T>)
    ensures a + b + c == a + (b + c)
  {
  }

  /** Dropping the last element of a concatenation drops it from its second part. */
  lemma DropLastOfAppend<T>(a: seq<T>, b: seq<T>)
    requires b != []
    ensures (a + b)[..|a + b| - 1] == a + b[..|b| - 1]
    ensures (a + b)[|a + b| - 1] == b[|b| - 1]
  {
  }

  lemma FlattenSnoc<T>(ss: seq<seq<T>>, s: seq<T>)
    ensures Flatten(ss + [s]) == Flatten(ss) + s
  {
    SnocParts(ss, s);
  }

  /** Growing the last part by one element grows the concatenation by that element. */
  lemma FlattenGrowLast<T>(ss: seq<seq<T>>, y: T)
    requires ss != []
    ensures Flatten(ss[..|ss| - 1] + [Last(ss) + [y]]) == Flatten(ss) + [y]
  {
    var front := ss[..|ss| - 1];
    FlattenSnoc(front, Last(ss) + [y]);
    AppendAssociates(Flatten(front), Last(ss), [y]);
  }

  lemma {:induction false} FlattenMember<T>(ss: seq<seq<T>>, j: nat, i: nat)
    requires j < |ss| && i < |ss[j]|
    ensures ss[j][i] in Flatten(ss)
    decreases |ss|
  {
    var init := ss[..|ss| - 1];
    if j < |ss| - 1 {
      FlattenMember(init, j, i);
    }
  }

  /** Every element of the concatenation comes from one of the parts. */
  lemma {:induction false} FlattenFind<T>(ss: seq<seq<T>>, x: T)
    requires x in Flatten(ss)
    ensures exists j :: 0 <= j < |ss| && x in ss[j]
    decreases |ss|
  {
    var init := ss[..|ss| - 1];
    if x !in Last(ss) {
      FlattenFind(init, x);
      var j :| 0 <= j < |init| && x in init[j];
      assert x in ss[j];
    }
  }

  /** A non-empty sequence is its head followed by its tail. */
  lemma HeadTail<T>(s: seq<T>)
    requires s != []
    ensures s == [s[0]] + s[1..]
    ensures multiset(s) == multiset{s[0]} + multiset(s[1..])
    ensures forall y :: y in s[1..] ==> y in s
  {
    assert s == [s[0]] + s[1..];
  }

  /** Putting `x` in front is splitting at position 0. */
  lemma SplitAtFront<T>(s: seq<T>, x: T)
    ensures [x] + s == s[..0] + [x] + s[0..]
  {
  }

  /** Splitting the tail at `k` is splitting the whole sequence at `k + 1`. */
  lemma SplitBehindHead<T>(s: seq<T>, k: nat, x: T)
    requires s != [] && k <= |s| - 1
    ensures [s[0]] + (s[1..][..k] + [x] + s[1..][k..]) == s[..k + 1] + [x] + s[k + 1..]
  {
    assert s[..k + 1] == [s[0]] + s[1..][..k];
    assert s[k + 1..] == s[1..][k..];
  }
}
