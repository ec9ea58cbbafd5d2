/** `FUSE_truncate` (PFS/FUSE.c) and the directory fields it works on (PFS/PFS.c): files as
    chains of clusters, grown and cut. */
module Files {
  import opened FatChains
  import opened Fat

  const ENOENT := 2
  /** The highest entry number that survives in the two 16-bit fields of a directory entry. */
  const MAX_FIRST := 65792

  datatype Path = Path(text: string)

  datatype DirEntry = DirEntry(high: nat, low: nat, size: nat)

  /** Bytes in `n` clusters; sizeof(Cluster) is 4096. */
  function Capacity(n: nat): nat {
    n * 4096
  }

  function ClustersFor(bytes: nat): nat {
    (bytes + 4095) / 4096
  }

  function SetFirst(d: DirEntry, n: nat): DirEntry {
    var high := n / 256 % 0x10000;
    d.(high := high, low := (n - high) % 0x10000)
  }

  function FirstCluster(d: DirEntry, first: nat): int {
    d.high + d.low - first
  }

  /** The number of the first cluster is read back as written if and only if it is small
      enough: `PFS_set_first_n_cluster_entry` splits it by 256, not by 65536. */
  lemma FirstClusterRoundTrip(d: DirEntry, n: nat, first: nat)
    ensures FirstCluster(SetFirst(d, n), first) == n - first <==> n <= MAX_FIRST
  {
  }

  /** A file of `n` clusters and `size` bytes that is truncated to `offset` is to have `m` of them.  If
      it grows, those it has or just enough; if it is cut, those up to the one that byte `offset` is
      in, or would be. */
  predicate Fitting(n: nat, size: nat, offset: nat, m: nat) {
    if offset == size then m == n
    else if offset == 0 then m == 0
    else if offset > size then
      if offset <= Capacity(n) then m == n else m > n && Capacity(m - 1) < offset <= Capacity(m)
    else 0 < m <= n && Capacity(m - 1) <= offset && (m == n || offset < Capacity(m))
  }

  /** Clusters of a file of `n` clusters and `size` bytes once truncated to `offset`. */
  function NewLength(n: nat, size: nat, offset: nat): (m: nat)
    ensures size <= Capacity(n) ==> Fitting(n, size, offset, m)
  {
    if offset == size then n
    else if offset == 0 then 0
    else if offset > size then (if n < ClustersFor(offset) then ClustersFor(offset) else n)
    else if n < offset / 4096 + 1 then n
    else offset / 4096 + 1
  }

  // ---- what the table and the directory say together

  predicate FileOk(t: seq<nat>, first: nat, d: DirEntry, c: seq<nat>) {
    && (c == [] ==> d.high + d.low < first && d.size == 0)
    && (c != [] ==> Chain(t, c) && d.high + d.low == c[0] && forall i :: 0 <= i < |c| ==> c[i] >= first)
    && (d.size == 0 ==> |c| <= 1)
    && d.size <= Capacity(|c|)
  }

  predicate Reserved(t: seq<nat>, first: nat) {
    first > 0 && |t| <= LAST2 && forall x :: 0 <= x < first && x < |t| ==> t[x] != FREE
  }

  ghost predicate FilesOk(t: seq<nat>, first: nat, dir: map<Path, DirEntry>, chains: map<Path, seq<nat>>) {
    dir.Keys == chains.Keys && forall f :: f in dir ==> FileOk(t, first, dir[f], chains[f])
  }

  ghost predicate Separate(chains: map<Path, seq<nat>>) {
    forall f, g :: f in chains && g in chains && f != g ==> Apart(chains[f], chains[g])
  }

  ghost predicate Sound(t: seq<nat>, first: nat, dir: map<Path, DirEntry>, chains: map<Path, seq<nat>>) {
    Reserved(t, first) && FilesOk(t, first, dir, chains) && Separate(chains)
  }

  predicate Room(t: seq<nat>, first: nat, mostRecent: int, freeClusters: int, n: nat) {
    && n <= freeClusters && 0 <= mostRecent + 1 < Horizon(|t|, first)
    && ZerosIn(t, mostRecent + 1, Horizon(|t|, first)) > n
  }

  // ---- the three edits

  lemma EntriesAfter(last: int, free: seq<int>, first: nat)
    requires last + first >= 0 && forall i :: 0 <= i < |free| ==> 0 <= free[i] + first
    ensures Entries([last] + free, first) == [last + first] + Entries(free, first)
  {
  }

  /** Clusters never used, and their entries. */
  method FindFree(table: Table, n: nat) returns (free: seq<int>, ghost f: seq<nat>)
    requires table.Ready() && n > 0
    requires Room(table.entry[..], table.first, table.mostRecentlyAlloc, table.freeClusters, n)
    ensures InRange(free, table.first, table.entry.Length) && f == Entries(free, table.first)
    ensures free == Clusters(f, table.first) && LeastZeros(table.entry[..], n, f)
  {
    var ok;
    ok, free := table.GetFreeClusters(n);
    f := Entries(free, table.first);
    assert forall i :: 0 <= i < |free| ==> Clusters(f, table.first)[i] == free[i];
  }

  /** New clusters after the last one of a file. */
  method Extend(table: Table, last: int, n: nat, ghost c: seq<nat>) returns (free: seq<int>, ghost f: seq<nat>)
    requires table.Ready() && n > 0
    requires Room(table.entry[..], table.first, table.mostRecentlyAlloc, table.freeClusters, n)
    requires Chain(table.entry[..], c) && last + table.first == c[|c| - 1]
    requires forall i :: 0 <= i < |c| ==> table.entry[c[i]] != FREE
    modifies table, table.entry
    ensures table.Ready() && LeastZeros(old(table.entry[..]), n, f) && free == Clusters(f, table.first)
    ensures table.entry[..] == Link(old(table.entry[..]), [c[|c| - 1]] + f)
    ensures Chain(table.entry[..], c + f)
    ensures table.freeClusters == old(table.freeClusters) - n
  {
    ghost var t := table.entry[..];
    free, f := FindFree(table, n);
    ghost var x := MayLink(t, table.first, table.mostRecentlyAlloc, last, free, c, f);
    NewClusters(t, c, n, f);
    table.WriteEntry([last] + free, x);
  }

  /** The new entries after the last one, and one more that stays unused. */
  lemma MayLink(t: seq<nat>, first: nat, m: int, last: int, free: seq<int>, c: seq<nat>, f: seq<nat>) returns (x: nat)
    requires Chain(t, c) && last + first == c[|c| - 1] && t[c[|c| - 1]] != FREE
    requires InRange(free, first, |t|) && f == Entries(free, first)
    requires 0 <= m + 1 < Horizon(|t|, first) && ZerosIn(t, m + 1, Horizon(|t|, first)) > |f|
    ensures InRange([last] + free, first, |t|) && Entries([last] + free, first) == [c[|c| - 1]] + f
    ensures x < |t| && t[x] == FREE && x !in [c[|c| - 1]] + f
  {
    EntriesAfter(last, free, first);
    x := OneLeft(t, m + 1, Horizon(|t|, first), f);
  }

  /** Entries never used are no part of a chain; linked after it, they are. */
  lemma NewClusters(t: seq<nat>, c: seq<nat>, n: nat, f: seq<nat>)
    requires Chain(t, c) && LeastZeros(t, n, f) && n > 0
    requires forall i :: 0 <= i < |c| ==> t[c[i]] != FREE
    ensures Apart(c, f) && Chain(Link(t, [c[|c| - 1]] + f), c + f) && Taken(t, [c[|c| - 1]] + f) == n
  {
    forall i, j | 0 <= i < |c| && 0 <= j < |f|
      ensures c[i] != f[j]
    {
      assert t[c[i]] != FREE;
    }
    ChainAppend(t, c, f);
    TakenAppend(t, c, f);
  }

  /** The first cluster of an empty file. */
  method Begin(table: Table) returns (ok: bool, start: int)
    requires table.Ready()
    requires table.freeClusters > 0 ==>
               Room(table.entry[..], table.first, table.mostRecentlyAlloc, table.freeClusters, 1)
    modifies table, table.entry
    ensures ok <==> old(table.freeClusters) > 0
    ensures table.Ready()
    ensures !ok ==> table.entry[..] == old(table.entry[..]) && table.freeClusters == old(table.freeClusters)
    ensures ok ==> var x := old(table.mostRecentlyAlloc) + 1;
                   && start == x - table.first
                   && table.entry[..] == Link(old(table.entry[..]), [x]) && Chain(table.entry[..], [x])
                   && table.freeClusters == old(table.freeClusters) - 1
  {
    ghost var t := table.entry[..];
    var free;
    ok, free := table.GetFreeClusters(1);
    start := 0;
    if ok {
      start := free[0];
      ghost var x := table.mostRecentlyAlloc + 1;
      ghost var e := Entries(free, table.first);
      assert t[x] == FREE && e[0] == x && e == [x] by {
        assert e == [e[0]];
      }
      ghost var y := OneLeft(t, x, Horizon(|t|, table.first), e);
      ChainNew(t, e);
      table.WriteEntry(free, y);
    }
  }

  /** By how much the counter of free clusters falls short when a file is cut to `k` clusters:
      by one if a cluster freed, other than the first of the file, is entry 229, because the
      entry before it looks free already. */
  function Miscount(c: seq<nat>, k: nat): nat
    requires k < |c|
  {
    if FREE_USED in c[if k > 0 then k else 1..] then 1 else 0
  }

  /** The clusters of a file from the `k`-th on are freed, and the last one kept becomes its
      end. */
  method Shorten(table: Table, clusters: seq<int>, k: nat, ghost c: seq<nat>)
    requires table.Ready() && Chain(table.entry[..], c) && clusters == Clusters(c, table.first) && k < |c|
    requires forall i :: 0 <= i < |c| ==> c[i] > 0
    requires table.entry.Length <= LAST2
    modifies table, table.entry
    ensures table.Ready() && table.entry[..] == Cut(old(table.entry[..]), c, k)
    ensures k > 0 ==> Chain(table.entry[..], c[..k])
    ensures table.freeClusters == old(table.freeClusters) + |c| - k - Miscount(c, k)
  {
    ghost var t := table.entry[..];
    CutCount(t, c, k);
    FreedEntries(t, clusters, c, k, table.first);
    UnusedApart(t, c, k, table.mostRecentlyAlloc + 1);
    FreeAndEnd(table, clusters[k..], k > 0, if k > 0 then clusters[k - 1] else 0, c[k..]);
    assert c[0..] == c;
  }

  /** The entries `e` are freed, then the last one kept is given the end mark. */
  method FreeAndEnd(table: Table, freed: seq<int>, ends: bool, last: int, ghost e: seq<nat>)
    requires table.Ready() && InRange(freed, table.first, table.entry.Length) && Entries(freed, table.first) == e
    requires table.mostRecentlyAlloc + 1 !in e
    requires ends ==> 0 <= last + table.first < table.entry.Length && last + table.first != table.mostRecentlyAlloc + 1
    modifies table, table.entry
    ensures table.Ready()
    ensures var t1 := Mark(old(table.entry[..]), e);
            var freedCount := old(table.freeClusters) + Given(old(table.entry[..]), e);
            if ends
            then table.entry[..] == Link(t1, [last + table.first]) &&
                 table.freeClusters == freedCount - Taken(t1, [last + table.first])
            else table.entry[..] == t1 && table.freeClusters == freedCount
  {
    table.WriteFreeEntry(freed);
    if ends {
      MakeLast(table, last, last + table.first);
    }
  }

  function Cut(t: seq<nat>, c: seq<nat>, k: nat): seq<nat>
    requires Chain(t, c) && k < |c|
  {
    if k > 0 then Link(Mark(t, c[k..]), [c[k - 1]]) else Mark(t, c)
  }

  lemma CutCount(t: seq<nat>, c: seq<nat>, k: nat)
    requires Chain(t, c) && k < |c| && forall i :: 0 <= i < |c| ==> c[i] > 0
    ensures var t1 := Mark(t, c[k..]);
            && Given(t, c[k..]) - (if k > 0 then Taken(t1, [c[k - 1]]) else 0) == |c| - k - Miscount(c, k)
            && (k > 0 ==> t1[c[k - 1]] != FREE && Chain(Cut(t, c, k), c[..k]))
            && c[0..] == c
  {
    GivenSuffix(t, c, k);
    if k > 0 {
      CutTaken(t, c, k);
      ChainCut(t, c, k);
    }
  }

  lemma FreedEntries(t: seq<nat>, clusters: seq<int>, c: seq<nat>, k: nat, first: nat)
    requires InTable(t, c) && clusters == Clusters(c, first) && k <= |c|
    ensures InRange(clusters[k..], first, |t|) && Entries(clusters[k..], first) == c[k..]
    ensures k > 0 ==> clusters[k - 1] + first == c[k - 1] < |t|
  {
  }

  lemma UnusedApart(t: seq<nat>, c: seq<nat>, k: nat, x: nat)
    requires Chain(t, c) && k <= |c| && (forall i :: 0 <= i < |c| ==> c[i] > 0) && x < |t| && t[x] == FREE
    ensures x !in c[k..] && (k > 0 ==> c[k - 1] != x)
  {
    ChainInUse(t, c);
    forall i | 0 <= i < |c[k..]|
      ensures c[k..][i] != x
    {
      assert c[k..][i] == c[k + i];
    }
  }

  method MakeLast(table: Table, cluster: int, ghost e: nat)
    requires table.Ready() && e < table.entry.Length && cluster + table.first == e && e != table.mostRecentlyAlloc + 1
    modifies table, table.entry
    ensures table.Ready() && table.entry[..] == Link(old(table.entry[..]), [e])
    ensures table.freeClusters == old(table.freeClusters) - Taken(old(table.entry[..]), [e])
  {
    assert Entries([cluster], table.first) == [e];
    table.WriteEntry([cluster], table.mostRecentlyAlloc + 1);
  }

  lemma ChainInUse(t: seq<nat>, c: seq<nat>)
    requires Chain(t, c) && forall i :: 0 <= i < |c| ==> c[i] > 0
    ensures forall i :: 0 <= i < |c| ==> t[c[i]] != FREE
  {
    forall i | 0 <= i < |c|
      ensures t[c[i]] != FREE
    {
      if i + 1 < |c| { NextLink(t, c, i); }
    }
  }

  lemma CutTaken(t: seq<nat>, c: seq<nat>, k: nat)
    requires Chain(t, c) && 0 < k < |c| && forall i :: 0 <= i < |c| ==> c[i] > 0
    ensures Mark(t, c[k..])[c[k - 1]] != FREE
    ensures Taken(Mark(t, c[k..]), [c[k - 1]]) == if c[k] == FREE_USED then 1 else 0
    ensures FREE_USED in c[k..] <==> c[k] == FREE_USED || FREE_USED in c[k + 1..]
    ensures !(c[k] == FREE_USED && FREE_USED in c[k + 1..])
  {
    MarkAt(t, c[k..], c[k - 1]);
    NextLink(t, c, k - 1);
    assert c[k..] == [c[k]] + c[k + 1..];
  }

  /** What the table counts as unused, once a file is cut: as many more as the counter gains. */
  lemma CutUnused(t: seq<nat>, c: seq<nat>, k: nat)
    requires Chain(t, c) && k < |c| && forall i :: 0 <= i < |c| ==> c[i] > 0
    ensures CountUnused(Cut(t, c, k)) == CountUnused(t) + |c| - k - Miscount(c, k)
  {
    CutCount(t, c, k);
    GivenIsExact(t, c[k..]);
    if k > 0 { TakenIsExact(Mark(t, c[k..]), [c[k - 1]]); }
  }

  /** Once a file is extended: as many fewer, but one if a new cluster is entry 229, which the
      entry linked to it then shows. */
  lemma ExtendUnused(t: seq<nat>, c: seq<nat>, n: nat, f: seq<nat>)
    requires Chain(t, c) && LeastZeros(t, n, f) && n > 0 && FREE !in f
    requires forall i :: 0 <= i < |c| ==> t[c[i]] != FREE
    ensures CountUnused(Link(t, [c[|c| - 1]] + f)) == CountUnused(t) - n + Slip(f)
  {
    NewClusters(t, c, n, f);
    TakenIsExact(t, [c[|c| - 1]] + f);
    LookalikesOnce(c[|c| - 1], f);
  }

  // ---- lengths

  /** How many clusters a file of `n` clusters lacks for `offset` bytes. */
  method Missing(n: nat, size: nat, offset: nat) returns (more: nat)
    requires size < offset && n > 0
    ensures Fitting(n, size, offset, n + more)
  {
    more := 0;
    var bytes := offset - Capacity(n);
    if bytes > 0 {
      more := ClustersFor(bytes);
    }
  }

  /** How many clusters a file of `n` clusters keeps for `offset` bytes. */
  method Kept(n: nat, size: nat, offset: nat) returns (k: nat)
    requires offset < size <= Capacity(n)
    ensures Fitting(n, size, offset, k)
  {
    k := n;
    if offset == 0 {
      return 0;
    }
    var bytes := Capacity(n - 1) - offset;
    if bytes > 0 {
      k := n - ClustersFor(bytes);
    }
  }

  /** A file has room for its bytes after every sequence of truncations. */
  lemma {:induction false} CapacityAlways(n: nat, size: nat, offsets: seq<nat>)
    requires size <= Capacity(n)
    ensures var (n', size') := TruncateAll(n, size, offsets); size' <= Capacity(n')
    decreases offsets
  {
    if offsets != [] {
      CapacityAlways(NewLength(n, size, offsets[0]), offsets[0], offsets[1..]);
    }
  }

  function TruncateAll(n: nat, size: nat, offsets: seq<nat>): (nat, nat)
    decreases offsets
  {
    if offsets == [] then (n, size)
    else TruncateAll(NewLength(n, size, offsets[0]), offsets[0], offsets[1..])
  }

  // ---- one file

  /** Only entries of the file, and entries never used, changed or became part of it. */
  predicate KeepsToItself(t: seq<nat>, t': seq<nat>, c: seq<nat>, c': seq<nat>) {
    && |t'| == |t|
    && (forall x :: 0 <= x < |t| && x !in c && t[x] != FREE ==> t'[x] == t[x])
    && (forall i :: 0 <= i < |c'| ==> c'[i] < |t| && (c'[i] in c || t[c'[i]] == FREE))
  }

  /** All entries but the first `k` are marked as freed. */
  predicate Freed(t': seq<nat>, c: seq<nat>, k: nat) {
    forall i :: k <= i < |c| ==> c[i] < |t'| && t'[c[i]] == FREE_USED
  }

  /** Enough entries never used lie ahead for the file to grow to `offset`, and its first one,
      if it has none yet, can be recorded. */
  ghost predicate MayGrow(table: Table, size: nat, n: nat, offset: nat)
    reads table, table.entry
  {
    var more := NewLength(n, size, offset) - n;
    offset > size && more > 0 && !(n == 0 && table.freeClusters <= 0) ==>
      && Room(table.entry[..], table.first, table.mostRecentlyAlloc, table.freeClusters, more)
      && (n == 0 ==> table.mostRecentlyAlloc + 1 <= MAX_FIRST)
  }

  /** A file with clusters gets as many more as it needs. */
  method Grow(table: Table, d: DirEntry, offset: nat, last: int, n: nat, ghost c: seq<nat>)
    returns (added: seq<int>, ghost f: seq<nat>)
    requires table.Ready() && Reserved(table.entry[..], table.first) && FileOk(table.entry[..], table.first, d, c)
    requires n == |c| > 0 && offset > d.size && last + table.first == c[n - 1] && MayGrow(table, d.size, n, offset)
    modifies table, table.entry
    ensures table.Ready() && FileOk(table.entry[..], table.first, d.(size := offset), c + f)
    ensures Fitting(n, d.size, offset, n + |f|) && table.freeClusters == old(table.freeClusters) - |f|
    ensures added == Clusters(f, table.first)
    ensures CountUnused(table.entry[..]) == CountUnused(old(table.entry[..])) - |f| + Slip(f)
    ensures KeepsToItself(old(table.entry[..]), table.entry[..], c, c + f)
  {
    ghost var t := table.entry[..];
    ChainInUse(t, c);
    var more := Missing(n, d.size, offset);
    added, f := [], [];
    if more > 0 {
      added, f := Extend(table, last, more, c);
      Grown(t, table.first, d, c, offset, more, f);
    } else {
      assert c + f == c;
    }
  }

  lemma GrownOk(t: seq<nat>, first: nat, d: DirEntry, c: seq<nat>, offset: nat, n: nat, f: seq<nat>)
    requires Reserved(t, first) && FileOk(t, first, d, c) && c != [] && n > 0 && LeastZeros(t, n, f)
    requires Chain(Link(t, [c[|c| - 1]] + f), c + f) && 0 < offset <= Capacity(|c| + n)
    ensures FileOk(Link(t, [c[|c| - 1]] + f), first, d.(size := offset), c + f)
  {
    forall i | 0 <= i < |c + f|
      ensures (c + f)[i] >= first
    {
      if i >= |c| { assert t[f[i - |c|]] == FREE; }
    }
  }

  lemma Grown(t: seq<nat>, first: nat, d: DirEntry, c: seq<nat>, offset: nat, n: nat, f: seq<nat>)
    requires Reserved(t, first) && FileOk(t, first, d, c) && c != [] && n > 0 && LeastZeros(t, n, f)
    requires 0 < offset <= Capacity(|c| + n)
    ensures var t' := Link(t, [c[|c| - 1]] + f);
            && FileOk(t', first, d.(size := offset), c + f) && KeepsToItself(t, t', c, c + f)
            && CountUnused(t') == CountUnused(t) - n + Slip(f)
  {
    ChainInUse(t, c);
    NewClusters(t, c, n, f);
    GrownOk(t, first, d, c, offset, n, f);
    ExtendKeeps(t, c, n, f);
    assert FREE !in f;
    ExtendUnused(t, c, n, f);
  }

  lemma ExtendKeeps(t: seq<nat>, c: seq<nat>, n: nat, f: seq<nat>)
    requires Chain(t, c) && LeastZeros(t, n, f) && n > 0
    ensures KeepsToItself(t, Link(t, [c[|c| - 1]] + f), c, c + f)
  {
    var e := [c[|c| - 1]] + f;
    forall x | 0 <= x < |t| && x !in c && t[x] != FREE
      ensures Link(t, e)[x] == t[x]
    {
      assert x !in e;
      LinkElsewhere(t, e, x);
    }
  }

  /** An empty file gets all the clusters it needs. */
  method Open(table: Table, d: DirEntry, offset: nat) returns (ok: bool, d': DirEntry, ghost c: seq<nat>)
    requires table.Ready() && Reserved(table.entry[..], table.first)
    requires d.size == 0 && offset > 0 && MayGrow(table, 0, 0, offset)
    modifies table, table.entry
    ensures table.Ready() && (ok <==> old(table.freeClusters) > 0)
    ensures !ok ==> table.entry[..] == old(table.entry[..]) && table.freeClusters == old(table.freeClusters)
    ensures ok ==>
              && FileOk(table.entry[..], table.first, d', c) && d'.size == offset && Fitting(0, 0, offset, |c|)
              && table.freeClusters == old(table.freeClusters) - |c|
              && CountUnused(table.entry[..]) == CountUnused(old(table.entry[..])) - |c| + Slip(c[1..])
              && KeepsToItself(old(table.entry[..]), table.entry[..], [], c)
  {
    ghost var t := table.entry[..];
    ghost var m := table.mostRecentlyAlloc;
    ghost var free := table.freeClusters;
    ghost var more := NewLength(0, 0, offset);
    var start;
    ok, start := Begin(table);
    d' := d;
    c := [];
    if ok {
      RoomAfterFirst(t, table.first, m, free, more, table.mostRecentlyAlloc);
      FirstClusterRoundTrip(d, m + 1, table.first);
      d' := SetFirst(d, start + table.first);
      ghost var t1 := table.entry[..];
      var _, f := Grow(table, d', offset, start, 1, [m + 1]);
      Begun(t, t1, table.entry[..], m + 1, f);
      d' := d'.(size := offset);
      c := [m + 1] + f;
    }
  }

  /** The first cluster, then the others. */
  lemma Begun(t: seq<nat>, t1: seq<nat>, t': seq<nat>, x: nat, f: seq<nat>)
    requires x < |t| && t[x] == FREE && t1 == Link(t, [x]) && KeepsToItself(t1, t', [x], [x] + f)
    requires CountUnused(t') == CountUnused(t1) - |f| + Slip(f)
    ensures KeepsToItself(t, t', [], [x] + f)
    ensures CountUnused(t') == CountUnused(t) - |[x] + f| + Slip(([x] + f)[1..])
  {
    TakenIsExact(t, [x]);
    assert ([x] + f)[1..] == f;
    forall y | 0 <= y < |t| && y != x
      ensures t1[y] == t[y]
    {
      LinkElsewhere(t, [x], y);
    }
  }

  lemma RoomAfterFirst(t: seq<nat>, first: nat, m: int, free: int, n: nat, m': int)
    requires Room(t, first, m, free, n) && n > 0 && LeastZero(t, m + 1)
    requires m' + 1 >= 0 && LeastZero(t[m + 1 := LAST], m' + 1)
    ensures Room(t[m + 1 := LAST], first, m', free - 1, n - 1)
  {
    ZerosAfterTaking(t, m + 1, LAST, m' + 1, Horizon(|t|, first));
  }

  /** A file loses the clusters beyond its new end, or all of them. */
  method Shrink(table: Table, d: DirEntry, offset: nat, clusters: seq<int>, ghost c: seq<nat>)
    returns (d': DirEntry, ghost k: nat)
    requires table.Ready() && Reserved(table.entry[..], table.first) && FileOk(table.entry[..], table.first, d, c)
    requires c != [] && offset < d.size && clusters == Clusters(c, table.first)
    modifies table, table.entry
    ensures table.Ready() && Fitting(|c|, d.size, offset, k) && k <= |c| && d'.size == offset
    ensures FileOk(table.entry[..], table.first, d', c[..k])
    ensures table.freeClusters == old(table.freeClusters) + |c| - k - if k < |c| then Miscount(c, k) else 0
    ensures CountUnused(table.entry[..]) - table.freeClusters == old(CountUnused(table.entry[..]) - table.freeClusters)
    ensures KeepsToItself(old(table.entry[..]), table.entry[..], c, c[..k]) && Freed(table.entry[..], c, k)
  {
    d' := d.(size := offset);
    if offset == 0 {
      d' := SetFirst(d', 0);
    }
    var kept := Kept(|clusters|, d.size, offset);
    k := kept;
    ShrunkOk(table.first, d, d', c, k);
    if kept < |clusters| {
      CutFile(table.entry[..], c, k);
      Shorten(table, clusters, kept, c);
    } else {
      assert c[..k] == c;
    }
  }

  lemma ShrunkOk(first: nat, d: DirEntry, d': DirEntry, c: seq<nat>, k: nat)
    requires c != [] && d.high + d.low == c[0] && (forall i :: 0 <= i < |c| ==> c[i] >= first) && first > 0
    requires k <= |c| && d'.size <= Capacity(k) && (d'.size == 0 <==> k == 0)
    requires d' == if d'.size == 0 then SetFirst(d.(size := 0), 0) else d.(size := d'.size)
    ensures forall t: seq<nat> :: k == 0 || Chain(t, c[..k]) ==> FileOk(t, first, d', c[..k])
  {
  }

  lemma CutFile(t: seq<nat>, c: seq<nat>, k: nat)
    requires Chain(t, c) && k < |c| && forall i :: 0 <= i < |c| ==> c[i] > 0
    ensures KeepsToItself(t, Cut(t, c, k), c, c[..k]) && Freed(Cut(t, c, k), c, k)
    ensures CountUnused(Cut(t, c, k)) == CountUnused(t) + |c| - k - Miscount(c, k)
  {
    CutKeeps(t, c, k);
    CutFrees(t, c, k);
    CutUnused(t, c, k);
  }

  lemma CutKeeps(t: seq<nat>, c: seq<nat>, k: nat)
    requires Chain(t, c) && k < |c|
    ensures KeepsToItself(t, Cut(t, c, k), c, c[..k])
  {
    forall x | 0 <= x < |t| && x !in c && t[x] != FREE
      ensures Cut(t, c, k)[x] == t[x]
    {
      MarkAt(t, c[k..], x);
      if k > 0 { LinkElsewhere(Mark(t, c[k..]), [c[k - 1]], x); }
    }
  }

  lemma CutFrees(t: seq<nat>, c: seq<nat>, k: nat)
    requires Chain(t, c) && k < |c|
    ensures Freed(Cut(t, c, k), c, k)
  {
    var e := c[k..];
    forall i | k <= i < |c|
      ensures Cut(t, c, k)[c[i]] == FREE_USED
    {
      assert c[i] == e[i - k];
      MarkAt(t, e, c[i]);
      if k > 0 { LinkElsewhere(Mark(t, e), [c[k - 1]], c[i]); }
    }
  }

  /** An entry once used never counts as unused again, so no cluster changes files. */
  lemma NeverUnusedAgain(t: seq<nat>, t': seq<nat>, first: nat, d: DirEntry, c: seq<nat>, c': seq<nat>, x: nat)
    requires first > 0 && KeepsToItself(t, t', c, c') && Freed(t', c, |c'|) && FileOk(t', first, d, c')
    requires (c <= c' || c' <= c) && x < |t| && t[x] != FREE
    ensures t'[x] != FREE
  {
    if c' != [] { ChainInUse(t', c'); }
    if i :| 0 <= i < |c| && c[i] == x {
      assert i < |c'| ==> c'[i] == c[i];
    }
  }

  /** By how much the counter rises when a file comes to `n` clusters. */
  function FreedBy(c: seq<nat>, n: nat): int {
    |c| - n - if n < |c| then Miscount(c, n) else 0
  }

  /** What a file gained. */
  function Gained(c: seq<nat>, c': seq<nat>): seq<nat> {
    if |c| < |c'| then c'[|c|..] else []
  }

  /** Of these, those that another entry is linked to. */
  function Linked(c: seq<nat>, c': seq<nat>): seq<nat> {
    if c == [] && c' != [] then c'[1..] else Gained(c, c')
  }

  /** What truncating makes of a file and its directory entry, the table and the counter: the
      file keeps to itself, and the counter follows the table, but for a link to entry 229. */
  ghost predicate Reformed(t: seq<nat>, free: int, t': seq<nat>, free': int, first: nat,
                           d: DirEntry, c: seq<nat>, offset: nat, d': DirEntry, c': seq<nat>) {
    && FileOk(t', first, d', c') && d'.size == offset
    && Fitting(|c|, d.size, offset, |c'|) && (c <= c' || c' <= c)
    && free' == free + FreedBy(c, |c'|)
    && CountUnused(t') - free' == CountUnused(t) - free + Slip(Linked(c, c'))
    && KeepsToItself(t, t', c, c') && Freed(t', c, |c'|)
  }

  lemma GrownReforms(t: seq<nat>, free: int, t': seq<nat>, free': int, first: nat, d: DirEntry, c: seq<nat>,
                     offset: nat, f: seq<nat>)
    requires c != [] && FileOk(t', first, d.(size := offset), c + f) && KeepsToItself(t, t', c, c + f)
    requires offset > d.size && Fitting(|c|, d.size, offset, |c| + |f|) && free' == free - |f|
    requires CountUnused(t') == CountUnused(t) - |f| + Slip(f)
    ensures Reformed(t, free, t', free', first, d, c, offset, d.(size := offset), c + f)
    ensures Gained(c, c + f) == f
  {
    assert (c + f)[|c|..] == f;
  }

  /** A file that has clusters. */
  method TruncateClusters(table: Table, d: DirEntry, offset: nat, start: int, ghost c: seq<nat>)
    returns (d': DirEntry, toClean: seq<int>, ghost c': seq<nat>)
    requires table.Ready() && Reserved(table.entry[..], table.first) && FileOk(table.entry[..], table.first, d, c)
    requires c != [] && start + table.first == c[0] && d.size != offset && MayGrow(table, d.size, |c|, offset)
    modifies table, table.entry
    ensures table.Ready()
    ensures Reformed(old(table.entry[..]), old(table.freeClusters), table.entry[..], table.freeClusters, table.first,
                     d, c, offset, d', c')
    ensures toClean == if d.size > 0 then Clusters(Gained(c, c'), table.first) else []
  {
    ghost var t, free := table.entry[..], table.freeClusters;
    toClean := [];
    var clusters := table.GetFileClusters(start, c);
    if offset > d.size {
      var last := if d.size == 0 then start else clusters[|clusters| - 1];
      var added, f := Grow(table, d, offset, last, |clusters|, c);
      GrownReforms(t, free, table.entry[..], table.freeClusters, table.first, d, c, offset, f);
      d', c' := d.(size := offset), c + f;
      if d.size > 0 { toClean := added; }
    } else {
      ghost var k;
      d', k := Shrink(table, d, offset, clusters, c);
      c' := c[..k];
    }
  }

  /** `FUSE_truncate` on the directory entry `d` of a file of table entries `c`; the clusters
      added to a file that had bytes are to be cleaned. */
  method TruncateFile(table: Table, d: DirEntry, offset: nat, ghost c: seq<nat>)
    returns (ok: bool, d': DirEntry, toClean: seq<int>, ghost c': seq<nat>)
    requires table.Ready() && Reserved(table.entry[..], table.first) && FileOk(table.entry[..], table.first, d, c)
    requires MayGrow(table, d.size, |c|, offset)
    modifies table, table.entry
    ensures table.Ready() && (ok <==> !(c == [] && offset > 0 && old(table.freeClusters) <= 0))
    ensures !ok ==> table.entry[..] == old(table.entry[..]) && table.freeClusters == old(table.freeClusters)
    ensures ok ==>
              && Reformed(old(table.entry[..]), old(table.freeClusters), table.entry[..], table.freeClusters,
                          table.first, d, c, offset, d', c')
              && toClean == if d.size > 0 then Clusters(Gained(c, c'), table.first) else []
  {
    ok, d', toClean, c' := true, d, [], c;
    if d.size != offset {
      var start := FirstCluster(d, table.first);
      if start >= 0 {
        d', toClean, c' := TruncateClusters(table, d, offset, start, c);
      } else {
        ok, d', c' := Open(table, d, offset);
      }
    }
  }

  // ---- all files

  /** A file that keeps to itself leaves the others as they were. */
  lemma OthersKept(t: seq<nat>, t': seq<nat>, first: nat, d: DirEntry, g: seq<nat>, c: seq<nat>, c': seq<nat>)
    requires FileOk(t, first, d, g) && first > 0 && Apart(c, g) && KeepsToItself(t, t', c, c')
    ensures FileOk(t', first, d, g) && Apart(c', g) && Apart(g, c')
  {
    if g != [] { ChainInUse(t, g); }
    forall i | 0 <= i < |g|
      ensures g[i] !in c && t'[g[i]] == t[g[i]]
    {
      assert t[g[i]] != FREE;
    }
  }

  /** One file has a new size, and as many clusters as that asks for: the same ones, fewer, or
      more after them. */
  ghost predicate Resized(dir: map<Path, DirEntry>, chains: map<Path, seq<nat>>,
                          dir': map<Path, DirEntry>, chains': map<Path, seq<nat>>, name: Path, offset: nat) {
    && name in dir && name in dir' && dir' == dir[name := dir'[name]] && dir'[name].size == offset
    && name in chains && name in chains' && chains' == chains[name := chains'[name]]
    && Fitting(|chains[name]|, dir[name].size, offset, |chains'[name]|)
    && (chains[name] <= chains'[name] || chains'[name] <= chains[name])
  }

  /** After every sequence of truncations the counter has kept step with the table, but for one
      cluster once entry 229 was linked to, which then was never so again. */
  ghost predicate KeepsCount(t: seq<nat>, free: int, surplus: int, slipped: bool) {
    && CountUnused(t) - free == surplus + (if slipped then 1 else 0)
    && (slipped ==> FREE_USED < |t| && t[FREE_USED] != FREE)
  }

  class Volume {
    const table: Table
    var dir: map<Path, DirEntry>
    /** The table entries of each file, in order. */
    ghost var chains: map<Path, seq<nat>>
    /** By how much the table counts more entries as unused than the counter did to begin with,
        and whether entry 229 was linked to since. */
    ghost const surplus: int
    ghost var slipped: bool

    constructor (table: Table, dir: map<Path, DirEntry>, ghost chains: map<Path, seq<nat>>)
      requires table.Ready() && Sound(table.entry[..], table.first, dir, chains)
      ensures Valid() && this.table == table && this.dir == dir && this.chains == chains && !slipped
    {
      this.table, this.dir, this.chains := table, dir, chains;
      surplus, slipped := CountUnused(table.entry[..]) - table.freeClusters, false;
    }

    ghost predicate Valid()
      reads this, table, table.entry
    {
      table.Ready() && Sound(table.entry[..], table.first, dir, chains) && Counted()
    }

    ghost predicate Counted()
      reads this, table, table.entry
    {
      KeepsCount(table.entry[..], table.freeClusters, surplus, slipped)
    }

    /** What truncating the file has made of the volume: the file keeps to itself, and the counter
        loses what it gained or gains what it lost, but one when entry 229 is freed and its
        predecessor too. */
    ghost predicate Changed(name: Path, offset: nat, t: seq<nat>, free: int, dir: map<Path, DirEntry>,
                            chains: map<Path, seq<nat>>)
      reads this, table, table.entry
    {
      && Resized(dir, chains, this.dir, this.chains, name, offset)
      && table.freeClusters == free + FreedBy(chains[name], |this.chains[name]|)
      && KeepsToItself(t, table.entry[..], chains[name], this.chains[name])
      && Freed(table.entry[..], chains[name], |this.chains[name]|)
    }

    /** Every file stays a chain of its own, whichever is truncated. */
    method Truncate(name: Path, offset: nat) returns (status: int, toClean: seq<int>)
      requires Valid() && (name in dir ==> MayGrow(table, dir[name].size, |chains[name]|, offset))
      modifies this, table, table.entry
      ensures Valid()
      ensures status == (if name !in old(dir) then -ENOENT
                         else if old(chains[name]) == [] && offset > 0 && old(table.freeClusters) <= 0 then -1
                         else 0)
      ensures status != 0 ==> dir == old(dir) && chains == old(chains) && table.entry[..] == old(table.entry[..])
                              && table.freeClusters == old(table.freeClusters)
      ensures status == 0 ==>
                Changed(name, offset, old(table.entry[..]), old(table.freeClusters), old(dir), old(chains))
      ensures toClean == if status == 0 && old(dir)[name].size > 0
                         then Clusters(Gained(old(chains[name]), chains[name]), table.first) else []
      ensures slipped == (old(slipped) || (status == 0 && FREE_USED in Linked(old(chains[name]), chains[name])))
    {
      if name !in dir {
        return -ENOENT, [];
      }
      ghost var t, free := table.entry[..], table.freeClusters;
      ghost var c := chains[name];
      var ok, d', added, c' := TruncateFile(table, dir[name], offset, c);
      if !ok {
        return -1, [];
      }
      Replace(name, offset, d', t, free, c');
      return 0, added;
    }

    /** The directory entry of the file is written. */
    method Replace(name: Path, offset: nat, d': DirEntry, ghost t: seq<nat>, ghost free: int, ghost c': seq<nat>)
      requires table.Ready() && Sound(t, table.first, dir, chains) && name in dir
      requires Reformed(t, free, table.entry[..], table.freeClusters, table.first, dir[name], chains[name], offset,
                        d', c')
      requires KeepsCount(t, free, surplus, slipped)
      modifies this
      ensures Valid() && Changed(name, offset, t, free, old(dir), old(chains))
      ensures chains == old(chains)[name := c']
      ensures slipped == (old(slipped) || FREE_USED in Linked(old(chains)[name], c'))
    {
      ReplaceKeeps(t, free, table.entry[..], table.freeClusters, table.first, dir, chains, name, offset, d', c',
                   surplus, slipped);
      dir, chains, slipped := dir[name := d'], chains[name := c'], slipped || FREE_USED in Linked(chains[name], c');
    }
  }

  /** Entry 229 is linked to when it was never used, and is never so again. */
  lemma StillSlipped(t: seq<nat>, t': seq<nat>, first: nat, d: DirEntry, c: seq<nat>, c': seq<nat>)
    requires first > 0 && KeepsToItself(t, t', c, c') && Freed(t', c, |c'|) && FileOk(t', first, d, c')
    requires c <= c' || c' <= c
    ensures FREE_USED < |t| && t[FREE_USED] != FREE ==> t'[FREE_USED] != FREE
    ensures FREE_USED in Linked(c, c') ==> FREE_USED < |t| && t[FREE_USED] == FREE && t'[FREE_USED] != FREE
  {
    if FREE_USED < |t| && t[FREE_USED] != FREE { NeverUnusedAgain(t, t', first, d, c, c', FREE_USED); }
    if FREE_USED in Linked(c, c') {
      var i :| 0 <= i < |Linked(c, c')| && Linked(c, c')[i] == FREE_USED;
      var j := |c'| - |Linked(c, c')| + i;
      assert c'[j] == FREE_USED;
      forall k | 0 <= k < |c|
        ensures c[k] != FREE_USED
      {
        assert c[k] == c'[k];
      }
      ChainInUse(t', c');
    }
  }

  lemma ReplaceKeeps(t: seq<nat>, free: int, t': seq<nat>, free': int, first: nat, dir: map<Path, DirEntry>,
                     chains: map<Path, seq<nat>>, name: Path, offset: nat, d': DirEntry, c': seq<nat>,
                     surplus: int, slipped: bool)
    requires Sound(t, first, dir, chains) && name in dir
    requires Reformed(t, free, t', free', first, dir[name], chains[name], offset, d', c')
    requires KeepsCount(t, free, surplus, slipped)
    ensures Sound(t', first, dir[name := d'], chains[name := c'])
    ensures Resized(dir, chains, dir[name := d'], chains[name := c'], name, offset)
    ensures KeepsCount(t', free', surplus, slipped || FREE_USED in Linked(chains[name], c'))
  {
    StillReserved(t, t', first, dir, chains, name, c');
    SoundKept(t, t', first, dir, chains, name, d', c');
    StillSlipped(t, t', first, d', chains[name], c');
  }

  /** The entries before the first cluster stay in use. */
  lemma StillReserved(t: seq<nat>, t': seq<nat>, first: nat, dir: map<Path, DirEntry>, chains: map<Path, seq<nat>>,
                      name: Path, c': seq<nat>)
    requires Sound(t, first, dir, chains) && name in dir && KeepsToItself(t, t', chains[name], c')
    ensures forall x :: 0 <= x < first && x < |t| ==> t'[x] != FREE
  {
    assert FileOk(t, first, dir[name], chains[name]);
  }

  lemma SoundKept(t: seq<nat>, t': seq<nat>, first: nat, dir: map<Path, DirEntry>, chains: map<Path, seq<nat>>,
                  name: Path, d': DirEntry, c': seq<nat>)
    requires Sound(t, first, dir, chains) && name in dir
    requires FileOk(t', first, d', c') && KeepsToItself(t, t', chains[name], c')
    requires forall x :: 0 <= x < first && x < |t| ==> t'[x] != FREE
    ensures Sound(t', first, dir[name := d'], chains[name := c'])
  {
    var dir' := dir[name := d'];
    var chains' := chains[name := c'];
    forall g | g in dir && g != name
      ensures FileOk(t', first, dir[g], chains[g]) && Apart(c', chains[g]) && Apart(chains[g], c')
    {
      OthersKept(t, t', first, dir[g], chains[g], chains[name], c');
    }
    assert FilesOk(t', first, dir', chains');
    assert Separate(chains');
  }
}
