/** PFS/FAT.c: the in-memory table and the two counters of the FSInfo sector.  Clusters are
    numbered from the first of the data region; entry = cluster + `first`. */
module Fat {
  import opened FatChains

  /** The last cluster number the allocator looks at. */
  const LAST_ENTRY := 130816

  predicate InRange(clusters: seq<int>, first: nat, size: nat) {
    forall i :: 0 <= i < |clusters| ==> 0 <= clusters[i] + first < size
  }

  /** The table entries of the clusters. */
  function Entries(clusters: seq<int>, first: nat): (e: seq<nat>)
    requires forall i :: 0 <= i < |clusters| ==> 0 <= clusters[i] + first
    ensures |e| == |clusters| && forall i :: 0 <= i < |e| ==> e[i] == clusters[i] + first
  {
    seq(|clusters|, i requires 0 <= i < |clusters| => clusters[i] + first)
  }

  function Clusters(e: seq<nat>, first: nat): (c: seq<int>)
    ensures |c| == |e| && forall i :: 0 <= i < |c| ==> c[i] == e[i] - first
    ensures Entries(c, first) == e
  {
    seq(|e|, i requires 0 <= i < |e| => e[i] - first)
  }

  /** How far the allocator may look for entries never used. */
  function Horizon(size: nat, first: nat): (h: nat)
    ensures h <= size
  {
    if LAST_ENTRY + first + 1 < size then LAST_ENTRY + first + 1 else size
  }

  /** The entries never used of a stretch of the table, in order. */
  function ZerosList(t: seq<nat>, lo: nat, hi: nat): (e: seq<nat>)
    requires lo <= hi <= |t|
    ensures |e| == ZerosIn(t, lo, hi)
    decreases hi - lo
  {
    if lo == hi then [] else ZerosList(t, lo, hi - 1) + if t[hi - 1] == FREE then [hi - 1] else []
  }

  lemma {:induction false} ZerosListIs(t: seq<nat>, lo: nat, hi: nat)
    requires lo <= hi <= |t|
    ensures var e := ZerosList(t, lo, hi);
            && (forall i :: 0 <= i < |e| ==> lo <= e[i] < hi && t[e[i]] == FREE)
            && (forall i, j :: 0 <= i < j < |e| ==> e[i] < e[j])
            && (forall x :: lo <= x < hi && t[x] == FREE ==> x in e)
    decreases hi - lo
  {
    if lo < hi {
      ZerosListIs(t, lo, hi - 1);
      var most, e := ZerosList(t, lo, hi - 1), ZerosList(t, lo, hi);
      forall x | lo <= x < hi && t[x] == FREE
        ensures x in e
      {
        if x == hi - 1 { assert e[|most|] == x; } else { assert x in most; }
      }
    }
  }

  /** From the first entry never used on, they are the least. */
  lemma ZerosListLeast(t: seq<nat>, lo: nat, hi: nat)
    requires LeastZero(t, lo) && lo < hi <= |t|
    ensures LeastZeros(t, ZerosIn(t, lo, hi), ZerosList(t, lo, hi))
  {
    ZerosListIs(t, lo, hi);
  }

  /** The allocator has come to `cluster` and found these so far. */
  predicate Collecting(t: seq<nat>, first: nat, lo: nat, n: nat, clusters: seq<int>, cluster: int) {
    && InRange(clusters, first, |t|) && lo <= cluster + first < |t|
    && Entries(clusters, first) == ZerosList(t, lo, cluster + first + 1)
    && (n > 0 ==> |clusters| <= n && cluster + first < Horizon(|t|, first))
  }

  function Collected(t: seq<nat>, first: nat, clusters: seq<int>, cluster: int): seq<int>
    requires 0 <= cluster + first < |t|
  {
    if t[cluster + first] == FREE then clusters + [cluster] else clusters
  }

  lemma EntriesCollected(t: seq<nat>, first: nat, clusters: seq<int>, cluster: int)
    requires InRange(clusters, first, |t|) && 0 <= cluster + first < |t|
    ensures InRange(Collected(t, first, clusters, cluster), first, |t|)
    ensures Entries(Collected(t, first, clusters, cluster), first) ==
            Entries(clusters, first) + if t[cluster + first] == FREE then [cluster + first] else []
  {
  }

  lemma CollectFirst(t: seq<nat>, first: nat, lo: nat, n: nat)
    requires LeastZero(t, lo) && (n > 0 ==> lo < Horizon(|t|, first))
    ensures Collecting(t, first, lo, n, [lo - first], lo - first)
  {
    assert ZerosList(t, lo, lo + 1) == ZerosList(t, lo, lo) + [lo];
  }

  lemma CollectNext(t: seq<nat>, first: nat, lo: nat, n: nat, clusters: seq<int>, cluster: int)
    requires Collecting(t, first, lo, n, clusters, cluster) && n > |clusters| && cluster < LAST_ENTRY
    requires lo < Horizon(|t|, first) && ZerosIn(t, lo, Horizon(|t|, first)) >= n
    ensures cluster + 1 + first < |t|
    ensures Collecting(t, first, lo, n, Collected(t, first, clusters, cluster + 1), cluster + 1)
  {
    var x := cluster + first + 1;
    MoreAhead(t, lo, x, Horizon(|t|, first), n);
    EntriesCollected(t, first, clusters, cluster + 1);
    var more := Collected(t, first, clusters, cluster + 1);
    assert Entries(more, first) == ZerosList(t, lo, x + 1);
    assert |more| <= |clusters| + 1;
  }

  lemma MoreAhead(t: seq<nat>, lo: nat, x: nat, horizon: nat, n: nat)
    requires lo <= x <= horizon <= |t| && ZerosIn(t, lo, x) < n <= ZerosIn(t, lo, horizon)
    ensures x < horizon
  {
  }

  lemma CollectDone(t: seq<nat>, first: nat, lo: nat, n: nat, clusters: seq<int>, cluster: int)
    requires Collecting(t, first, lo, n, clusters, cluster) && 0 < n && (n <= |clusters| || cluster >= LAST_ENTRY)
    requires LeastZero(t, lo) && lo < Horizon(|t|, first) && ZerosIn(t, lo, Horizon(|t|, first)) >= n
    ensures LeastZeros(t, n, Entries(clusters, first))
  {
    ZerosListLeast(t, lo, cluster + first + 1);
  }

  class Table {
    const first: nat
    const entry: array<nat>
    var freeClusters: int
    var mostRecentlyAlloc: int

    constructor (first: nat, entry: array<nat>, freeClusters: int, mostRecentlyAlloc: int)
      ensures this.first == first && this.entry == entry
      ensures this.freeClusters == freeClusters && this.mostRecentlyAlloc == mostRecentlyAlloc
    {
      this.first, this.entry := first, entry;
      this.freeClusters, this.mostRecentlyAlloc := freeClusters, mostRecentlyAlloc;
    }

    /** The entry after `mostRecentlyAlloc` is the first one never used. */
    predicate Ready()
      reads this, entry
    {
      mostRecentlyAlloc + 1 >= 0 && LeastZero(entry[..], mostRecentlyAlloc + 1)
    }

    /** The clusters of a file, from its first one. */
    method GetFileClusters(start: int, ghost chain: seq<nat>) returns (clusters: seq<int>)
      requires Chain(entry[..], chain) && start + first == chain[0] && entry.Length <= LAST2
      ensures clusters == Clusters(chain, first)
    {
      clusters := [start];
      var n := start + first;
      while entry[n] != LAST && entry[n] != LAST2
        invariant 1 <= |clusters| <= |chain| && n == chain[|clusters| - 1]
        invariant clusters == Clusters(chain[..|clusters|], first)
        decreases |chain| - |clusters|
      {
        ghost var i := |clusters| - 1;
        if i + 1 < |chain| { NextLink(entry[..], chain, i); }
        n := entry[n];
        clusters := clusters + [n - first];
      }
      if |clusters| < |chain| {
        NextLink(entry[..], chain, |clusters| - 1);
      }
      assert chain[..|chain|] == chain;
    }

    /** The cluster `x` places after the first one, or the last when there are fewer.  A chain
        that ends with the other end mark must not be left. */
    method XthCluster(start: int, x: int, ghost chain: seq<nat>) returns (cluster: int)
      requires Chain(entry[..], chain) && start + first == chain[0] && entry.Length <= LAST2
      requires x < |chain| || entry[chain[|chain| - 1]] == LAST
      ensures cluster + first == chain[if x < 0 then 0 else if x < |chain| then x else |chain| - 1]
    {
      var last := start + first;
      var left := x;
      ghost var i := 0;
      while left > 0 && entry[last] != LAST
        invariant 0 <= i < |chain| && last == chain[i]
        invariant x <= 0 ==> i == 0 && left == x
        invariant x > 0 ==> left == x - i >= 0
        decreases left
      {
        if i + 1 < |chain| { NextLink(entry[..], chain, i); }
        last := entry[last];
        left := left - 1;
        i := i + 1;
      }
      if left > 0 && i + 1 < |chain| { NextLink(entry[..], chain, i); }
      cluster := last - first;
    }

    /** The first entries never used, when that many lie ahead; refused when the counter is
        too low. */
    method GetFreeClusters(n: nat) returns (ok: bool, clusters: seq<int>)
      requires Ready()
      requires 0 < n <= freeClusters ==>
                 mostRecentlyAlloc + 1 < Horizon(entry.Length, first) &&
                 ZerosIn(entry[..], mostRecentlyAlloc + 1, Horizon(entry.Length, first)) >= n
      ensures ok <==> n <= freeClusters
      ensures ok && n > 0 ==>
               InRange(clusters, first, entry.Length) && LeastZeros(entry[..], n, Entries(clusters, first))
    {
      if n > freeClusters {
        return false, [];
      }
      var cluster := mostRecentlyAlloc - first + 1;
      clusters := [cluster];
      ghost var t := entry[..];
      ghost var lo := mostRecentlyAlloc + 1;
      CollectFirst(t, first, lo, n);
      while n > |clusters| && cluster < LAST_ENTRY
        invariant Collecting(t, first, lo, n, clusters, cluster)
        decreases LAST_ENTRY - cluster
      {
        CollectNext(t, first, lo, n, clusters, cluster);
        ghost var more := Collected(t, first, clusters, cluster + 1);
        cluster := cluster + 1;
        if entry[cluster + first] == FREE {
          clusters := clusters + [cluster];
        }
        assert clusters == more;
      }
      if n > 0 { CollectDone(t, first, lo, n, clusters, cluster); }
      ok := true;
    }

    /** Chains the clusters in the order given and looks for the first entry never used, of which
        there must be one left. */
    method WriteEntry(clusters: seq<int>, ghost spare: nat)
      requires clusters != [] && InRange(clusters, first, entry.Length)
      requires spare < entry.Length && entry[spare] == FREE && spare !in Entries(clusters, first)
      modifies this`freeClusters, this`mostRecentlyAlloc, entry
      ensures var e := Entries(clusters, first);
              && entry[..] == Link(old(entry[..]), e)
              && freeClusters == old(freeClusters) - Taken(old(entry[..]), e)
      ensures Ready()
    {
      ghost var e := Entries(clusters, first);
      var i := 0;
      while i < |clusters| - 1
        invariant 0 <= i < |clusters|
        invariant InTable(entry[..], e[i..])
        invariant Link(entry[..], e[i..]) == Link(old(entry[..]), e)
        invariant freeClusters - Taken(entry[..], e[i..]) == old(freeClusters) - Taken(old(entry[..]), e)
      {
        assert e[i..][0] == e[i] && e[i..][1] == e[i + 1] && e[i..][1..] == e[i + 1..];
        SetEntry(clusters[i] + first, clusters[i + 1] + first);
        i := i + 1;
      }
      assert e[i..] == [e[i]];
      SetEntry(clusters[i] + first, LAST);
      LinkElsewhere(old(entry[..]), e, spare);
      Rescan(spare);
    }

    /** An entry in use from now on. */
    method SetEntry(n: nat, value: nat)
      requires n < entry.Length
      modifies this`freeClusters, entry
      ensures entry[..] == old(entry[..])[n := value]
      ensures freeClusters == old(freeClusters) - if Unused(old(entry[n])) then 1 else 0
    {
      if entry[n] == FREE || entry[n] == FREE_USED {
        freeClusters := freeClusters - 1;
      }
      entry[n] := value;
    }

    method Rescan(ghost spare: nat)
      requires spare < entry.Length && entry[spare] == FREE
      modifies this`mostRecentlyAlloc
      ensures Ready()
    {
      var i := 0;
      while entry[i] != FREE
        invariant 0 <= i <= spare
        invariant forall j :: 0 <= j < i ==> entry[j] != FREE
        decreases spare - i
      {
        i := i + 1;
      }
      mostRecentlyAlloc := i - 1;
    }

    /** Marks the clusters as free, used before. */
    method WriteFreeEntry(clusters: seq<int>)
      requires InRange(clusters, first, entry.Length)
      modifies this`freeClusters, entry
      ensures var e := Entries(clusters, first);
              && entry[..] == Mark(old(entry[..]), e)
              && freeClusters == old(freeClusters) + Given(old(entry[..]), e)
      ensures old(Ready()) && mostRecentlyAlloc + 1 !in Entries(clusters, first) ==> Ready()
    {
      ghost var e := Entries(clusters, first);
      ghost var t := entry[..];
      for i := 0 to |clusters|
        invariant InTable(entry[..], e[i..])
        invariant Mark(entry[..], e[i..]) == Mark(t, e)
        invariant freeClusters + Given(entry[..], e[i..]) == old(freeClusters) + Given(t, e)
      {
        assert e[i..][0] == e[i] && e[i..][1..] == e[i + 1..];
        FreeEntry(clusters[i] + first);
      }
      forall x | 0 <= x < |t|
        ensures entry[..][x] == if x in e then FREE_USED else t[x]
      {
        MarkAt(t, e, x);
      }
    }

    method FreeEntry(n: nat)
      requires n < entry.Length
      modifies this`freeClusters, entry
      ensures entry[..] == old(entry[..])[n := FREE_USED]
      ensures freeClusters == old(freeClusters) + if Unused(old(entry[n])) then 0 else 1
    {
      if entry[n] != FREE && entry[n] != FREE_USED {
        freeClusters := freeClusters + 1;
      }
      entry[n] := FREE_USED;
    }
  }
}
