/** Generic facts about sequences used by several modules. */
module Seqs {

  /** No element occurs twice. */
  predicate Distinct<T(==)>(s: seq<T>) {
    forall i, j :: 0 <= i < j < |s| ==> s[i] != s[j]
  }

  /** The set of elements of a sequence. */
  function Elems<T>(s: seq<T>): set<T> {
    set x | x in s
  }

  /** A sequence without repetitions has as many elements as its set. */
  lemma {:induction false} DistinctCard<T>(s: seq<T>)
    requires Distinct(s)
    ensures |Elems(s)| == |s|
  {
    if s != [] {
      var t := s[1..];
      assert Distinct(t);
      DistinctCard(t);
      assert forall k :: 0 <= k < |t| ==> t[k] == s[k + 1] && t[k] != s[0];
      assert s[0] !in t;
      assert Elems(s) == {s[0]} + Elems(t);
    }
  }

  /** A sequence has at most as many distinct elements as entries. */
  lemma {:induction false} ElemsAtMost<T>(s: seq<T>)
    ensures |Elems(s)| <= |s|
  {
    if s != [] {
      ElemsAtMost(s[1..]);
      assert Elems(s) == {s[0]} + Elems(s[1..]);
    }
  }

  /** A subset is no larger than its superset. */
  lemma SubsetCard<T>(a: set<T>, b: set<T>)
    requires a <= b
    ensures |a| <= |b|
  {
    assert b == a + (b - a);
  }

  /** The first occurrences of each element, in their original order. */
  function Dedup<T(==)>(s: seq<T>): (r: seq<T>)
    ensures Distinct(r)
    ensures Elems(r) == Elems(s)
    ensures |r| <= |s|
  {
    if s == [] then []
    else
      var init := s[..|s| - 1];
      var rest := Dedup(init);
      var last := s[|s| - 1];
      assert s == init + [last];
      assert Elems(s) == Elems(init) + {last};
      if last in rest then rest
      else
        assert Elems(rest + [last]) == Elems(rest) + {last};
        rest + [last]
  }

  /** A sequence that is already free of repetitions is its own `Dedup`. */
  lemma {:induction false} DedupOfDistinct<T>(s: seq<T>)
    requires Distinct(s)
    ensures Dedup(s) == s
  {
    if s != [] {
      var init := s[..|s| - 1];
      assert Distinct(init);
      DedupOfDistinct(init);
      assert forall k :: 0 <= k < |init| ==> init[k] == s[k] && init[k] != s[|s| - 1];
      assert s[|s| - 1] !in init;
      assert s == init + [s[|s| - 1]];
    }
  }

  /** Sum of a sequence of reals, left to right. */
  function SumReals(s: seq<real>): real {
    if s == [] then 0.0 else s[0] + SumReals(s[1..])
  }

  /** Sum of a sequence of naturals, left to right. */
  function SumNats(s: seq<nat>): nat {
    if s == [] then 0 else s[0] + SumNats(s[1..])
  }

  /** Summing a concatenation sums its parts. */
  lemma {:induction false} SumNatsAppend(a: seq<nat>, b: seq<nat>)
    ensures SumNats(a + b) == SumNats(a) + SumNats(b)
  {
    if a == [] {
      assert a + b == b;
    } else {
      assert (a + b)[1..] == a[1..] + b;
      SumNatsAppend(a[1..], b);
    }
  }
}
