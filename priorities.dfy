/**
 * The ordering step of assignPriorities: the non-primary peers, each with
 * its ranking latency, sorted by ascending latency. Health is not consulted.
 */
module Priorities {

  /** assignPriorities' peerLatency record. */
  datatype PeerLatency = PeerLatency(name: string, latency: int)

  predicate SortedByLatency(s: seq<PeerLatency>)
  {
    forall i, j :: 0 <= i < j < |s| ==> s[i].latency <= s[j].latency
  }

  predicate DistinctNames(s: seq<PeerLatency>)
  {
    forall i, j :: 0 <= i < j < |s| ==> s[i].name != s[j].name
  }

  function NameSet(s: seq<PeerLatency>): set<string>
  {
    set i | 0 <= i < |s| :: s[i].name
  }

  /**
   * The sort.Slice step, as an insertion sort: the result is ordered by
   * latency and is a permutation of the input, so distinct names stay distinct.
   */
  method SortByLatency(xs: seq<PeerLatency>) returns (ys: seq<PeerLatency>)
    ensures SortedByLatency(ys)
    ensures multiset(ys) == multiset(xs)
    ensures |ys| == |xs| && NameSet(ys) == NameSet(xs)
    ensures DistinctNames(xs) ==> DistinctNames(ys)
  {
    ys := [];
    var i := 0;
    while i < |xs|
      invariant 0 <= i <= |xs|
      invariant SortedByLatency(ys)
      invariant multiset(ys) == multiset(xs[..i])
      invariant DistinctNames(xs) ==> DistinctNames(ys)
    {
      var x := xs[i];
      if DistinctNames(xs) {
        NotYetInserted(xs, i, ys);
      }
      ys := InsertSorted(ys, x);
      assert xs[..i + 1] == xs[..i] + [x];
      i := i + 1;
    }
    assert xs[..|xs|] == xs;
    MultisetKeepsNames(ys, xs);
  }

  /** One insertion step: x goes after every element not larger than it. */
  method InsertSorted(ys: seq<PeerLatency>, x: PeerLatency) returns (zs: seq<PeerLatency>)
    requires SortedByLatency(ys)
    ensures SortedByLatency(zs)
    ensures multiset(zs) == multiset(ys) + multiset{x}
    ensures DistinctNames(ys) && (forall k :: 0 <= k < |ys| ==> ys[k].name != x.name) ==> DistinctNames(zs)
  {
    var j := InsertionPoint(ys, x);
    InsertKeepsOrder(ys, j, x);
    InsertKeepsElements(ys, j, x);
    if DistinctNames(ys) && (forall k :: 0 <= k < |ys| ==> ys[k].name != x.name) {
      InsertKeepsNamesDistinct(ys, j, x);
    }
    zs := InsertAt(ys, j, x);
  }

  /** The first position whose latency exceeds x's; everything before it is not larger. */
  method InsertionPoint(ys: seq<PeerLatency>, x: PeerLatency) returns (j: nat)
    requires SortedByLatency(ys)
    ensures j <= |ys|
    ensures forall k :: 0 <= k < j ==> ys[k].latency <= x.latency
    ensures forall k :: j <= k < |ys| ==> x.latency < ys[k].latency
  {
    j := 0;
    while j < |ys| && ys[j].latency <= x.latency
      invariant 0 <= j <= |ys|
      invariant forall k :: 0 <= k < j ==> ys[k].latency <= x.latency
    {
      j := j + 1;
    }
  }

  /** ys with x inserted at position j. */
  function InsertAt(ys: seq<PeerLatency>, j: nat, x: PeerLatency): (zs: seq<PeerLatency>)
    requires j <= |ys|
    ensures |zs| == |ys| + 1
    ensures forall k :: 0 <= k < |zs| ==> zs[k] == if k < j then ys[k] else if k == j then x else ys[k - 1]
  {
    ys[..j] + [x] + ys[j..]
  }

  lemma InsertKeepsOrder(ys: seq<PeerLatency>, j: nat, x: PeerLatency)
    requires j <= |ys| && SortedByLatency(ys)
    requires forall k :: 0 <= k < j ==> ys[k].latency <= x.latency
    requires forall k :: j <= k < |ys| ==> x.latency < ys[k].latency
    ensures SortedByLatency(InsertAt(ys, j, x))
  {
    var zs := InsertAt(ys, j, x);
    forall a, b | 0 <= a < b < |zs|
      ensures zs[a].latency <= zs[b].latency
    {
      if b < j {
      } else if b == j {
      } else if a == j {
      } else if a < j {
        assert zs[a].latency <= x.latency < zs[b].latency;
      } else {
      }
    }
  }

  lemma InsertKeepsElements(ys: seq<PeerLatency>, j: nat, x: PeerLatency)
    requires j <= |ys|
    ensures multiset(InsertAt(ys, j, x)) == multiset(ys) + multiset{x}
  {
    assert ys == ys[..j] + ys[j..];
  }

  lemma InsertKeepsNamesDistinct(ys: seq<PeerLatency>, j: nat, x: PeerLatency)
    requires j <= |ys| && DistinctNames(ys)
    requires forall k :: 0 <= k < |ys| ==> ys[k].name != x.name
    ensures DistinctNames(InsertAt(ys, j, x))
  {
    var zs := InsertAt(ys, j, x);
    forall a, b | 0 <= a < b < |zs|
      ensures zs[a].name != zs[b].name
    {
      if a == j {
        assert zs[b] == ys[b - 1];
      } else if b == j {
        assert zs[a] == ys[a];
      }
    }
  }

  /** The element about to be inserted has a name that is not yet in the sorted prefix. */
  lemma NotYetInserted(xs: seq<PeerLatency>, i: nat, ys: seq<PeerLatency>)
    requires DistinctNames(xs) && i < |xs|
    requires multiset(ys) == multiset(xs[..i])
    ensures forall k :: 0 <= k < |ys| ==> ys[k].name != xs[i].name
  {
    forall k | 0 <= k < |ys|
      ensures ys[k].name != xs[i].name
    {
      assert ys[k] in multiset(xs[..i]);
      var m :| 0 <= m < i && xs[..i][m] == ys[k];
    }
  }

  lemma MultisetKeepsNames(ys: seq<PeerLatency>, xs: seq<PeerLatency>)
    requires multiset(ys) == multiset(xs)
    ensures |ys| == |xs| && NameSet(ys) == NameSet(xs)
  {
    assert |ys| == |multiset(ys)| == |multiset(xs)| == |xs|;
    forall n | n in NameSet(ys)
      ensures n in NameSet(xs)
    {
      var k :| 0 <= k < |ys| && ys[k].name == n;
      assert ys[k] in multiset(xs);
      var m :| 0 <= m < |xs| && xs[m] == ys[k];
    }
    forall n | n in NameSet(xs)
      ensures n in NameSet(ys)
    {
      var k :| 0 <= k < |xs| && xs[k].name == n;
      assert xs[k] in multiset(ys);
      var m :| 0 <= m < |ys| && ys[m] == xs[k];
    }
  }

  /** Appending a record with a fresh name adds that name and keeps names distinct. */
  lemma AppendFreshName(s: seq<PeerLatency>, x: PeerLatency)
    requires DistinctNames(s) && x.name !in NameSet(s)
    ensures NameSet(s + [x]) == NameSet(s) + {x.name}
    ensures DistinctNames(s + [x])
  {
    var t := s + [x];
    forall n | n in NameSet(t)
      ensures n in NameSet(s) + {x.name}
    {
      var k :| 0 <= k < |t| && t[k].name == n;
      if k < |s| {
        assert t[k] == s[k];
      }
    }
    forall n | n in NameSet(s)
      ensures n in NameSet(t)
    {
      var k :| 0 <= k < |s| && s[k].name == n;
      assert t[k] == s[k];
    }
    assert t[|s|] == x;
    forall a, b | 0 <= a < b < |t|
      ensures t[a].name != t[b].name
    {
      assert t[a] == s[a];
      if b == |s| {
        assert s[a].name in NameSet(s);
      } else {
        assert t[b] == s[b];
      }
    }
  }

  lemma {:induction false} DistinctNameSetSize(s: seq<PeerLatency>)
    requires DistinctNames(s)
    ensures |NameSet(s)| == |s|
    decreases |s|
  {
    if s != [] {
      var init := s[..|s| - 1];
      var last := s[|s| - 1];
      assert s == init + [last];
      assert DistinctNames(init);
      DistinctNameSetSize(init);
      forall k | 0 <= k < |init|
        ensures init[k].name != last.name
      {
        assert s[k] == init[k];
      }
      AppendFreshName(init, last);
    }
  }

  /**
   * assignPriorities' result is a bijection from its keys onto 1..N, where
   * N is the number of keys.
   */
  predicate IsRankPermutation(prio: map<string, int>)
  {
    prio.Values == Ranks(|prio|) &&
    (forall a, b :: a in prio && b in prio && a != b ==> prio[a] != prio[b])
  }

  /** The ranks 1..n. */
  function Ranks(n: nat): (r: set<int>)
    ensures forall i :: i in r <==> 1 <= i <= n
  {
    if n == 0 then {} else Ranks(n - 1) + {n}
  }

  /**
   * A map giving the primary 1 and the i-th name of a duplicate-free list
   * i + 2 is a rank permutation.
   */
  lemma RanksFromOrder(sorted: seq<PeerLatency>, primary: string, prio: map<string, int>)
    requires DistinctNames(sorted) && primary !in NameSet(sorted)
    requires prio.Keys == {primary} + NameSet(sorted)
    requires prio[primary] == 1
    requires forall j :: 0 <= j < |sorted| ==> prio[sorted[j].name] == j + 2
    ensures |prio| == |sorted| + 1
    ensures IsRankPermutation(prio)
  {
    DistinctNameSetSize(sorted);
    assert |prio| == |prio.Keys| == |NameSet(sorted)| + 1;
    forall k | k in prio && k != primary
      ensures exists j :: 0 <= j < |sorted| && sorted[j].name == k && prio[k] == j + 2
    {
      assert k in NameSet(sorted);
      var j :| 0 <= j < |sorted| && sorted[j].name == k;
    }
    forall n | n in Ranks(|prio|)
      ensures n in prio.Values
    {
      if n == 1 {
        assert prio[primary] == n;
      } else {
        assert prio[sorted[n - 2].name] == n;
      }
    }
    forall v | v in prio.Values
      ensures v in Ranks(|prio|)
    {
      var k :| k in prio && prio[k] == v;
    }
  }
}
