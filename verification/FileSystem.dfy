/** PFS/FUSE.c and PFS/PFS.c: files read, written and truncated through the table, the cache
    and the clusters. */
module FileSystem {
  import opened Blocks
  import opened Cache
  import opened CacheViews
  import Fat
  import FatChains
  import opened FileBytes
  import opened Files

  // ---- how much one read copies

  /** From the cluster that holds the offset. */
  function CopiedFirst(offset: nat, size: nat): nat {
    if size < 4096 - offset % 4096 then size else 4096 - offset % 4096
  }

  /** Together with the whole clusters after it. */
  function CopiedWhole(offset: nat, size: nat): nat {
    CopiedFirst(offset, size) + if size == 0 then 0 else (ClustersFor(size) - 1) * 4096
  }

  /** Together with the last piece, as long as the difference between what was asked for and
      what was copied, whichever is greater. */
  function Copied(offset: nat, size: nat): nat {
    var whole := CopiedWhole(offset, size);
    if whole <= size then size else whole + (whole - size)
  }

  /** How many clusters are read for it. */
  function Touched(offset: nat, size: nat): nat {
    (if size == 0 then 1 else ClustersFor(size)) + if CopiedWhole(offset, size) == size then 0 else 1
  }

  /** A read copies as much as it was asked for, not more, exactly when it stays in one cluster
      or what its last cluster leaves over is no more than what its first one skips. */
  lemma ReadsExactly(offset: nat, size: nat)
    ensures Copied(offset, size) == size <==>
            size <= 4096 - offset % 4096 || ClustersFor(size) * 4096 - size <= offset % 4096
    ensures Copied(offset, size) > size ==>
              Copied(offset, size) == size + 2 * (ClustersFor(size) * 4096 - size - offset % 4096)
    ensures Copied(offset, size) >= size
    ensures size % 4096 == 0 ==> Copied(offset, size) == size
  {
  }

  /** Such a read within the clusters of a file reads no others. */
  lemma StaysInFile(offset: nat, size: nat, n: nat)
    requires Copied(offset, size) == size && offset + size <= Capacity(n) && offset / 4096 < n
    ensures offset / 4096 + Touched(offset, size) <= n
  {
  }

  // ---- copying

  ghost predicate AddsFrom(caches: seq<FileCache>, caches': seq<FileCache>, clusters: seq<nat>) {
    forall m :: m !in clusters && Unlisted(caches, m) ==> Unlisted(caches', m)
  }

  ghost predicate UsedUnder(owners: map<nat, Name>, clusters: seq<nat>, name: Name) {
    forall i :: 0 <= i < |clusters| ==> Owner(owners, clusters[i]) == name
  }

  /** What was copied is what the clusters hold from `start` on. */
  ghost predicate IsSlice(view: map<nat, Cluster>, clusters: seq<nat>, start: nat, copied: seq<bv8>)
    requires Readable(view, clusters)
  {
    start + |copied| <= Capacity(|clusters|) && copied == Bytes(view, clusters)[start..start + |copied|]
  }

  /** One more cluster, or part of it, after what was copied up to its start. */
  lemma CopiesOn(view: map<nat, Cluster>, clusters: seq<nat>, start: nat, copied: seq<bv8>, i: nat, n: nat)
    requires Readable(view, clusters) && i < |clusters| && n <= 4096
    requires start + |copied| == i * 4096 && IsSlice(view, clusters, start, copied)
    ensures IsSlice(view, clusters, start, copied + view[clusters[i]][..n])
    ensures n == 4096 ==> view[clusters[i]][..n] == view[clusters[i]]
  {
    var bytes := Bytes(view, clusters);
    BytesAt(view, clusters, i);
    assert view[clusters[i]][..n] == bytes[i * 4096..i * 4096 + 4096][..n] == bytes[i * 4096..i * 4096 + n];
    assert bytes[start..i * 4096] + bytes[i * 4096..i * 4096 + n] == bytes[start..i * 4096 + n];
  }

  /** When the whole clusters do not end where they should, they end where a cluster does. */
  lemma RestOfCopy(offset: nat, size: nat, i: nat)
    requires i == if size == 0 then 1 else ClustersFor(size)
    ensures CopiedFirst(offset, size) + (i - 1) * 4096 == CopiedWhole(offset, size)
    ensures CopiedWhole(offset, size) != size ==>
              && offset % 4096 + CopiedWhole(offset, size) == i * 4096 && i < Touched(offset, size)
              && size - 4096 <= CopiedWhole(offset, size) <= size + 4096
  {
  }

  method Fetch(store: Store, name: Name, clusters: seq<nat>, i: nat) returns (cluster: Cluster)
    requires store.Valid() && Readable(store.Contents(), clusters) && UsedUnder(store.owners, clusters, name)
    requires i < |clusters|
    modifies store`caches, store`disk
    ensures store.Valid() && store.Contents() == old(store.Contents()) && cluster == store.Contents()[clusters[i]]
    ensures AddsFrom(old(store.caches), store.caches, clusters)
  {
    cluster := store.Read(clusters[i], name);
  }

  lemma CopiesFirst(view: map<nat, Cluster>, clusters: seq<nat>, from: nat, to: nat)
    requires Readable(view, clusters) && clusters != [] && from <= to <= 4096
    ensures IsSlice(view, clusters, from, view[clusters[0]][from..to])
  {
    BytesAt(view, clusters, 0);
    assert Bytes(view, clusters)[from..to] == Bytes(view, clusters)[0..4096][from..to];
  }

  /** The copying of PFS_read_file_content, from the cluster that holds the offset on: part of
      it, then whole clusters. */
  method CopyWhole(store: Store, name: Name, clusters: seq<nat>, offset: nat, size: nat, g: Geometry)
    returns (copied: seq<bv8>, i: nat)
    requires store.Valid() && Readable(store.Contents(), clusters) && UsedUnder(store.owners, clusters, name)
    requires g.Fits() && clusters != [] && ClustersFor(size) <= |clusters|
    modifies store`caches, store`disk
    ensures store.Valid() && store.Contents() == old(store.Contents())
    ensures AddsFrom(old(store.caches), store.caches, clusters)
    ensures i == (if size == 0 then 1 else ClustersFor(size)) && |copied| == CopiedWhole(offset, size)
    ensures IsSlice(store.Contents(), clusters, offset % 4096, copied)
  {
    ghost var view := store.Contents();
    var cluster := Fetch(store, name, clusters, 0);
    var byte, block, sector := Locate(offset, g);
    var position := g.Position(block, sector, byte);
    var count := if size < 4096 - position then size else 4096 - position;
    copied := cluster[position..position + count];
    CopiesFirst(view, clusters, position, position + count);
    i := 1;
    while i < ClustersFor(size)
      invariant i == 1 || i <= ClustersFor(size)
      invariant store.Valid() && store.Contents() == view && AddsFrom(old(store.caches), store.caches, clusters)
      invariant |copied| == count + (i - 1) * 4096 && IsSlice(view, clusters, position, copied)
    {
      cluster := Fetch(store, name, clusters, i);
      CopiesOn(view, clusters, position, copied, i, 4096);
      copied := copied + cluster;
      i := i + 1;
    }
    RestOfCopy(offset, size, i);
  }

  /** The rest of it: as many bytes more as what was copied differs from what was asked for. */
  method CopyOut(store: Store, name: Name, clusters: seq<nat>, offset: nat, size: nat, g: Geometry)
    returns (copied: seq<bv8>)
    requires store.Valid() && Readable(store.Contents(), clusters) && UsedUnder(store.owners, clusters, name)
    requires g.Fits() && Touched(offset, size) <= |clusters|
    modifies store`caches, store`disk
    ensures store.Valid() && store.Contents() == old(store.Contents())
    ensures AddsFrom(old(store.caches), store.caches, clusters)
    ensures |copied| == Copied(offset, size) && IsSlice(store.Contents(), clusters, offset % 4096, copied)
  {
    ghost var view := store.Contents();
    var i;
    copied, i := CopyWhole(store, name, clusters, offset, size, g);
    RestOfCopy(offset, size, i);
    if size != |copied| {
      var cluster := Fetch(store, name, clusters, i);
      var rest := if size < |copied| then |copied| - size else size - |copied|;
      CopiesOn(view, clusters, offset % 4096, copied, i, rest);
      copied := copied + cluster[..rest];
    }
  }

  // ---- table, caches and clusters together

  /** PFS_path_name: what follows the last separator, trailing ones aside. */
  function LastPart(text: string): string {
    if text != "" && text[|text| - 1] == '/' then LastPart(text[..|text| - 1]) else Tail(text)
  }

  function Tail(text: string): string {
    if text == "" || text[|text| - 1] == '/' then "" else Tail(text[..|text| - 1]) + [text[|text| - 1]]
  }

  lemma {:induction false} TailIs(dir: string, name: string)
    requires '/' !in name
    ensures Tail(dir + "/" + name) == name
  {
    var text := dir + "/" + name;
    if name == "" {
      assert text[|text| - 1] == '/';
    } else {
      var n := |name| - 1;
      assert text[..|text| - 1] == dir + "/" + name[..n] && text[|text| - 1] == name[n];
      TailIs(dir, name[..n]);
      assert name == name[..n] + [name[n]];
    }
  }

  /** The name of a file in any directory, however many separators follow it. */
  lemma {:induction false} LastPartIsName(dir: string, name: string, trailing: nat)
    requires name != "" && '/' !in name
    ensures LastPart(dir + "/" + name + seq(trailing, _ => '/')) == name
  {
    var text := dir + "/" + name + seq(trailing, _ => '/');
    if trailing == 0 {
      assert text == dir + "/" + name && text[|text| - 1] == name[|name| - 1];
      TailIs(dir, name);
    } else {
      assert text[..|text| - 1] == dir + "/" + name + seq(trailing - 1, _ => '/') && text[|text| - 1] == '/';
      LastPartIsName(dir, name, trailing - 1);
    }
  }

  function NameOf(path: Path): Name {
    Name(LastPart(path.text))
  }

  predicate InData(c: seq<nat>, first: nat) {
    forall i :: 0 <= i < |c| ==> c[i] >= first
  }

  /** The cluster numbers of table entries. */
  function Numbers(c: seq<nat>, first: nat): (n: seq<nat>)
    requires InData(c, first)
    ensures |n| == |c| && n == Fat.Clusters(c, first) && forall i :: 0 <= i < |n| ==> n[i] == c[i] - first
  {
    seq(|c|, i requires 0 <= i < |c| => c[i] - first)
  }

  /** Every entry has its cluster on the disk. */
  ghost predicate Mapped(size: nat, first: nat, view: map<nat, Cluster>) {
    forall n: nat :: n + first < size ==> n in view && |view[n]| == 4096
  }

  /** What was never in a file is in no cache. */
  ghost predicate UnusedUnlisted(t: seq<nat>, first: nat, caches: seq<FileCache>) {
    forall n: nat :: n + first < |t| && t[n + first] == FatChains.FREE ==> Unlisted(caches, n)
  }

  ghost predicate Named(first: nat, chains: map<Path, seq<nat>>, owners: map<nat, Name>) {
    forall f :: f in chains ==> NamedBy(chains[f], first, owners, NameOf(f))
  }

  lemma ChainReadable(t: seq<nat>, first: nat, c: seq<nat>, view: map<nat, Cluster>)
    requires FatChains.InTable(t, c) && InData(c, first) && Mapped(|t|, first, view)
    ensures Readable(view, Numbers(c, first))
  {
    var n := Numbers(c, first);
    forall i | 0 <= i < |n|
      ensures n[i] in view && |view[n[i]]| == 4096
    {
      assert n[i] + first < |t|;
    }
  }

  /** The bytes of the clusters of table entries `c`. */
  ghost function BytesOf(view: map<nat, Cluster>, first: nat, c: seq<nat>): seq<bv8> {
    if InData(c, first) && Readable(view, Numbers(c, first)) then Bytes(view, Numbers(c, first)) else []
  }

  /** The bytes of all files but one are as they were. */
  ghost predicate OthersSame(chains: map<Path, seq<nat>>, chains': map<Path, seq<nat>>,
                             view: map<nat, Cluster>, view': map<nat, Cluster>, first: nat, path: Path) {
    forall f :: f in chains && f != path ==>
      f in chains' && BytesOf(view', first, chains'[f]) == BytesOf(view, first, chains[f])
  }

  lemma {:induction false} ChainFrom(t: seq<nat>, c: seq<nat>, k: nat)
    requires FatChains.Chain(t, c) && k < |c|
    ensures FatChains.Chain(t, c[k..])
  {
    var rest := c[k..];
    forall i, j | 0 <= i < |rest| && j == i + 1 && j < |rest|
      ensures t[rest[i]] == rest[j]
    {
      FatChains.NextLink(t, c, k + i);
    }
  }

  lemma {:induction false} BytesFrom(view: map<nat, Cluster>, clusters: seq<nat>, k: nat)
    requires Readable(view, clusters) && k <= |clusters|
    ensures Readable(view, clusters[k..]) && Bytes(view, clusters[k..]) == Bytes(view, clusters)[k * 4096..]
    decreases |clusters|
  {
    if k < |clusters| {
      BytesFrom(view, clusters[..|clusters| - 1], k);
      assert clusters[k..][..|clusters| - k - 1] == clusters[..|clusters| - 1][k..];
    }
  }

  /** Listing clusters of a file lists none that was never in one. */
  lemma StaysUnlisted(t: seq<nat>, first: nat, c: seq<nat>, k: nat, caches: seq<FileCache>, caches': seq<FileCache>)
    requires FatChains.Chain(t, c) && InData(c, first) && first > 0 && k <= |c|
    requires UnusedUnlisted(t, first, caches) && AddsFrom(caches, caches', Numbers(c, first)[k..])
    ensures UnusedUnlisted(t, first, caches')
  {
    ChainInUse(t, c);
    forall n: nat | n + first < |t| && t[n + first] == FatChains.FREE
      ensures Unlisted(caches', n)
    {
      assert Unlisted(caches, n);
      assert n !in Numbers(c, first)[k..];
    }
  }

  lemma SliceFrom(view: map<nat, Cluster>, clusters: seq<nat>, offset: nat, copied: seq<bv8>)
    requires var k := offset / 4096;
             && Readable(view, clusters) && k <= |clusters| && Readable(view, clusters[k..])
             && IsSlice(view, clusters[k..], offset % 4096, copied)
    ensures IsSlice(view, clusters, offset, copied)
  {
    BytesFrom(view, clusters, offset / 4096);
  }

  /** Which cluster of its file an offset lies in, as PFS_read_file_content counts it. */
  method ClusterOfOffset(offset: nat) returns (k: nat)
    ensures k == offset / 4096
  {
    k := 0;
    if offset > 0 {
      k := ClustersFor(offset) - 1;
      if offset % 4096 == 0 {
        k := k + 1;
      }
    }
  }

  /** The clusters of a file from the `k`-th on. */
  method ClustersFrom(table: Fat.Table, start: int, k: nat, ghost c: seq<nat>) returns (clusters: seq<nat>)
    requires FatChains.Chain(table.entry[..], c) && InData(c, table.first) && table.entry.Length <= FatChains.LAST2
    requires k < |c| && start + table.first == c[0]
    ensures clusters == Numbers(c, table.first)[k..]
  {
    ChainFrom(table.entry[..], c, k);
    var cluster := table.XthCluster(start, k, c);
    var found := table.GetFileClusters(cluster, c[k..]);
    ghost var numbers := Numbers(c, table.first)[k..];
    assert found == numbers;
    clusters := found;
  }

  /** PFS_read_file_content of a file that has clusters */
  method ReadContent(table: Fat.Table, store: Store, g: Geometry, name: Name, start: int, offset: nat, size: nat,
                     ghost c: seq<nat>)
    returns (copied: seq<bv8>)
    requires FatChains.Chain(table.entry[..], c) && InData(c, table.first) && table.entry.Length <= FatChains.LAST2
    requires start + table.first == c[0] && table.first > 0 && g.Fits()
    requires store.Valid() && Readable(store.Contents(), Numbers(c, table.first))
    requires UsedUnder(store.owners, Numbers(c, table.first), name)
    requires UnusedUnlisted(table.entry[..], table.first, store.caches)
    requires offset / 4096 + Touched(offset, size) <= |c|
    modifies store`caches, store`disk
    ensures store.Valid() && store.Contents() == old(store.Contents())
    ensures UnusedUnlisted(table.entry[..], table.first, store.caches)
    ensures |copied| == Copied(offset, size)
    ensures IsSlice(store.Contents(), Numbers(c, table.first), offset, copied)
  {
    var k := ClusterOfOffset(offset);
    var clusters := ClustersFrom(table, start, k, c);
    ghost var numbers := Numbers(c, table.first);
    BytesFrom(store.Contents(), numbers, k);
    copied := CopyOut(store, name, clusters, offset, size, g);
    SliceFrom(store.Contents(), numbers, offset, copied);
    StaysUnlisted(table.entry[..], table.first, c, k, old(store.caches), store.caches);
  }

  lemma GainsUnused(t: seq<nat>, t': seq<nat>, c: seq<nat>, c': seq<nat>)
    requires KeepsToItself(t, t', c, c') && (c <= c' || c' <= c) && FatChains.NoRepeats(c')
    ensures Unused(t, Gained(c, c'))
  {
    var f := Gained(c, c');
    forall i | 0 <= i < |f|
      ensures f[i] < |t| && t[f[i]] == FatChains.FREE
    {
      assert f[i] == c'[|c| + i];
      assert forall j :: 0 <= j < |c| ==> c[j] == c'[j];
    }
  }

  // ---- clusters cleaned

  const CLEAN: Cluster := Zeros(4096)

  function Zeros(n: nat): (b: seq<bv8>)
    ensures |b| == n
  {
    seq(n, _ => 0)
  }

  /** The clusters of the entries `e` are cleaned. */
  ghost function Cleaned(view: map<nat, Cluster>, first: nat, e: seq<nat>): map<nat, Cluster> {
    map n | n in view :: if n + first in e then CLEAN else view[n]
  }

  lemma {:induction false} BytesConcat(view: map<nat, Cluster>, a: seq<nat>, b: seq<nat>)
    requires Readable(view, a) && Readable(view, b)
    ensures Readable(view, a + b) && Bytes(view, a + b) == Bytes(view, a) + Bytes(view, b)
    decreases |b|
  {
    if b == [] {
      assert a + b == a;
    } else {
      var n := |b| - 1;
      BytesConcat(view, a, b[..n]);
      assert (a + b)[..|a + b| - 1] == a + b[..n] && (a + b)[|a + b| - 1] == b[n];
    }
  }

  lemma {:induction false} BytesSame(view: map<nat, Cluster>, view': map<nat, Cluster>, clusters: seq<nat>)
    requires Readable(view, clusters)
    requires forall i :: 0 <= i < |clusters| ==> clusters[i] in view' && view'[clusters[i]] == view[clusters[i]]
    ensures Readable(view', clusters) && Bytes(view', clusters) == Bytes(view, clusters)
    decreases |clusters|
  {
    if clusters != [] { BytesSame(view, view', clusters[..|clusters| - 1]); }
  }

  lemma {:induction false} BytesClean(view: map<nat, Cluster>, clusters: seq<nat>)
    requires forall i :: 0 <= i < |clusters| ==> clusters[i] in view && view[clusters[i]] == CLEAN
    ensures Readable(view, clusters) && Bytes(view, clusters) == Zeros(Capacity(|clusters|))
    decreases |clusters|
  {
    if clusters != [] {
      BytesClean(view, clusters[..|clusters| - 1]);
      assert Zeros(Capacity(|clusters| - 1)) + CLEAN == Zeros(Capacity(|clusters|));
    }
  }

  lemma CleanedOthers(view: map<nat, Cluster>, first: nat, e: seq<nat>, g: seq<nat>)
    requires InData(g, first) && Readable(view, Numbers(g, first))
    requires forall i :: 0 <= i < |g| ==> g[i] !in e
    ensures Readable(Cleaned(view, first, e), Numbers(g, first))
    ensures BytesOf(Cleaned(view, first, e), first, g) == BytesOf(view, first, g)
  {
    var numbers := Numbers(g, first);
    forall i | 0 <= i < |numbers|
      ensures Cleaned(view, first, e)[numbers[i]] == view[numbers[i]]
    {
      assert numbers[i] + first == g[i];
    }
    BytesSame(view, Cleaned(view, first, e), numbers);
  }

  /** The clusters gained read as zeros when they were cleaned; otherwise as they were. */
  ghost function Lengthened(view: map<nat, Cluster>, first: nat, b: seq<bv8>, gained: seq<nat>,
                            cleans: bool): seq<bv8>
  {
    b + if cleans then Zeros(Capacity(|gained|)) else BytesOf(view, first, gained)
  }

  lemma InDataParts(c: seq<nat>, f: seq<nat>, first: nat)
    requires InData(c + f, first)
    ensures InData(c, first) && InData(f, first)
  {
    assert forall i :: 0 <= i < |c| ==> c[i] == (c + f)[i];
    assert forall i :: 0 <= i < |f| ==> f[i] == (c + f)[|c| + i];
  }

  lemma NumbersParts(c: seq<nat>, f: seq<nat>, first: nat)
    requires InData(c + f, first) && InData(c, first) && InData(f, first)
    ensures Numbers(c + f, first) == Numbers(c, first) + Numbers(f, first)
  {
    var n, m := Numbers(c + f, first), Numbers(c, first) + Numbers(f, first);
    forall i | 0 <= i < |n|
      ensures n[i] == m[i]
    {
    }
  }

  lemma ReadableParts(view: map<nat, Cluster>, a: seq<nat>, b: seq<nat>)
    requires Readable(view, a + b)
    ensures Readable(view, a) && Readable(view, b)
  {
    assert forall i :: 0 <= i < |a| ==> a[i] == (a + b)[i];
    assert forall i :: 0 <= i < |b| ==> b[i] == (a + b)[|a| + i];
  }

  lemma NumbersConcat(view: map<nat, Cluster>, first: nat, c: seq<nat>, f: seq<nat>)
    requires InData(c + f, first) && Readable(view, Numbers(c + f, first))
    ensures InData(c, first) && InData(f, first) && Numbers(c + f, first) == Numbers(c, first) + Numbers(f, first)
    ensures Readable(view, Numbers(c, first)) && Readable(view, Numbers(f, first))
  {
    InDataParts(c, f, first);
    NumbersParts(c, f, first);
    ReadableParts(view, Numbers(c, first), Numbers(f, first));
  }

  lemma CleanedGained(view: map<nat, Cluster>, first: nat, f: seq<nat>)
    requires InData(f, first) && Readable(view, Numbers(f, first))
    ensures Readable(Cleaned(view, first, f), Numbers(f, first))
    ensures BytesOf(Cleaned(view, first, f), first, f) == Zeros(Capacity(|f|))
  {
    var numbers := Numbers(f, first);
    var view' := Cleaned(view, first, f);
    forall i | 0 <= i < |numbers|
      ensures numbers[i] in view' && view'[numbers[i]] == CLEAN
    {
      assert numbers[i] + first == f[i];
    }
    BytesClean(view', numbers);
  }

  lemma CleanedLonger(view: map<nat, Cluster>, first: nat, c: seq<nat>, f: seq<nat>, cleans: bool)
    requires InData(c + f, first) && Readable(view, Numbers(c + f, first)) && FatChains.Apart(c, f)
    ensures BytesOf(Cleaned(view, first, if cleans then f else []), first, c + f) ==
            Lengthened(view, first, BytesOf(view, first, c), f, cleans)
  {
    NumbersConcat(view, first, c, f);
    CleanedOthers(view, first, if cleans then f else [], c);
    if cleans { CleanedGained(view, first, f); } else { CleanedOthers(view, first, [], f); }
    BytesConcat(Cleaned(view, first, if cleans then f else []), Numbers(c, first), Numbers(f, first));
  }

  ghost method ClaimAll(store: Store, clusters: seq<nat>, name: Name)
    requires store.Valid() && forall i :: 0 <= i < |clusters| ==> Unlisted(store.caches, clusters[i])
    modifies store`owners
    ensures store.Valid() && store.Contents() == old(store.Contents()) && UsedUnder(store.owners, clusters, name)
    ensures forall n :: n !in clusters ==> Owner(store.owners, n) == Owner(old(store.owners), n)
  {
    for i := 0 to |clusters|
      invariant store.Valid() && store.Contents() == old(store.Contents())
      invariant forall j :: 0 <= j < i ==> Owner(store.owners, clusters[j]) == name
      invariant forall n :: n !in clusters ==> Owner(store.owners, n) == Owner(old(store.owners), n)
    {
      store.Claim(clusters[i], name);
    }
  }

  ghost predicate NamedBy(c: seq<nat>, first: nat, owners: map<nat, Name>, name: Name) {
    InData(c, first) && UsedUnder(owners, Numbers(c, first), name)
  }

  predicate InUse(t: seq<nat>, c: seq<nat>) {
    forall i :: 0 <= i < |c| ==> c[i] < |t| && t[c[i]] != FatChains.FREE
  }

  predicate Unused(t: seq<nat>, c: seq<nat>) {
    forall i :: 0 <= i < |c| ==> c[i] < |t| && t[c[i]] == FatChains.FREE
  }

  /** Clusters that no file had were not those of this one. */
  lemma StillNamed(t: seq<nat>, first: nat, g: seq<nat>, name: Name, f: seq<nat>, owners: map<nat, Name>,
                   owners': map<nat, Name>)
    requires NamedBy(g, first, owners, name) && InUse(t, g) && Unused(t, f) && InData(f, first)
    requires forall n :: n !in Numbers(f, first) ==> Owner(owners', n) == Owner(owners, n)
    ensures NamedBy(g, first, owners', name)
  {
    var numbers, claimed := Numbers(g, first), Numbers(f, first);
    forall i | 0 <= i < |numbers|
      ensures Owner(owners', numbers[i]) == name
    {
      assert Owner(owners, numbers[i]) == name && t[g[i]] != FatChains.FREE;
      assert forall j :: 0 <= j < |f| ==> claimed[j] == f[j] - first && t[f[j]] == FatChains.FREE;
    }
  }

  lemma GainNamed(first: nat, c: seq<nat>, c': seq<nat>, owners: map<nat, Name>, name: Name)
    requires NamedBy(c, first, owners, name) && NamedBy(Gained(c, c'), first, owners, name) && (c <= c' || c' <= c)
    ensures NamedBy(c', first, owners, name)
  {
    var f := Gained(c, c');
    forall i | 0 <= i < |c'|
      ensures c'[i] >= first && Owner(owners, c'[i] - first) == name
    {
      if i < |c| {
        assert c'[i] == c[i] && Owner(owners, Numbers(c, first)[i]) == name;
      } else {
        assert c'[i] == f[i - |c|] && Owner(owners, Numbers(f, first)[i - |c|]) == name;
      }
    }
  }

  lemma StaysUnusedUnlisted(t: seq<nat>, t': seq<nat>, first: nat, d: DirEntry, c: seq<nat>, c': seq<nat>,
                            caches: seq<FileCache>)
    requires UnusedUnlisted(t, first, caches) && first > 0 && (c <= c' || c' <= c)
    requires KeepsToItself(t, t', c, c') && Freed(t', c, |c'|) && FileOk(t', first, d, c')
    ensures UnusedUnlisted(t', first, caches)
  {
    forall n: nat | n + first < |t'| && t'[n + first] == FatChains.FREE
      ensures Unlisted(caches, n)
    {
      if t[n + first] != FatChains.FREE { NeverUnusedAgain(t, t', first, d, c, c', n + first); }
    }
  }

  /** Files whose entries are all in use keep their clusters to themselves when one is resized. */
  lemma OthersNamed(t: seq<nat>, first: nat, chains: map<Path, seq<nat>>, path: Path, c': seq<nat>,
                    owners: map<nat, Name>, owners': map<nat, Name>)
    requires path in chains && Named(first, chains, owners) && forall g :: g in chains ==> InUse(t, chains[g])
    requires chains[path] <= c' || c' <= chains[path]
    requires Unused(t, Gained(chains[path], c')) && NamedBy(Gained(chains[path], c'), first, owners', NameOf(path))
    requires forall n :: n !in Numbers(Gained(chains[path], c'), first) ==> Owner(owners', n) == Owner(owners, n)
    ensures Named(first, chains[path := c'], owners')
  {
    forall g | g in chains
      ensures NamedBy(chains[g], first, owners', NameOf(g))
    {
      StillNamed(t, first, chains[g], NameOf(g), Gained(chains[path], c'), owners, owners');
    }
    GainNamed(first, chains[path], c', owners', NameOf(path));
  }

  lemma FilesInUse(t: seq<nat>, first: nat, dir: map<Path, DirEntry>, chains: map<Path, seq<nat>>)
    requires Sound(t, first, dir, chains)
    ensures forall g :: g in chains ==> InUse(t, chains[g])
  {
    forall g | g in chains
      ensures InUse(t, chains[g])
    {
      assert FileOk(t, first, dir[g], chains[g]);
      if chains[g] != [] { ChainInUse(t, chains[g]); }
    }
  }

  /** The caches keep to the clusters of files, each under the name of its file. */
  ghost predicate JoinedIn(t: seq<nat>, first: nat, chains: map<Path, seq<nat>>, store: Store)
    reads store
  {
    UnusedUnlisted(t, first, store.caches) && Named(first, chains, store.owners)
  }

  /** A file of entries `c` was resized. */
  ghost predicate Reshaped(t: seq<nat>, t': seq<nat>, first: nat, c: seq<nat>, d': DirEntry, c': seq<nat>) {
    && first > 0 && KeepsToItself(t, t', c, c') && Freed(t', c, |c'|) && FileOk(t', first, d', c')
    && (c <= c' || c' <= c)
  }

  lemma ReshapedGains(t: seq<nat>, t': seq<nat>, first: nat, c: seq<nat>, d': DirEntry, c': seq<nat>,
                      caches: seq<FileCache>)
    requires Reshaped(t, t', first, c, d', c') && UnusedUnlisted(t, first, caches)
    ensures var f := Gained(c, c');
            && Unused(t, f) && InData(f, first)
            && (forall i :: 0 <= i < |f| ==> Unlisted(caches, Numbers(f, first)[i]))
            && UnusedUnlisted(t', first, caches)
  {
    var f := Gained(c, c');
    GainsUnused(t, t', c, c');
    assert forall i :: 0 <= i < |f| ==> f[i] == c'[|c| + i];
    forall i | 0 <= i < |f|
      ensures Unlisted(caches, f[i] - first)
    {
      assert t[f[i]] == FatChains.FREE;
    }
    StaysUnusedUnlisted(t, t', first, d', c, c', caches);
  }

  /** The clusters a resized file gained are now used under its name. */
  ghost method Adopt(store: Store, t: seq<nat>, t': seq<nat>, first: nat, chains: map<Path, seq<nat>>, path: Path,
                     d': DirEntry, c': seq<nat>)
    requires store.Valid() && path in chains && forall g :: g in chains ==> InUse(t, chains[g])
    requires Reshaped(t, t', first, chains[path], d', c') && JoinedIn(t, first, chains, store)
    modifies store`owners
    ensures store.Valid() && store.Contents() == old(store.Contents())
    ensures JoinedIn(t', first, chains[path := c'], store)
  {
    ReshapedGains(t, t', first, chains[path], d', c', store.caches);
    ClaimAll(store, Numbers(Gained(chains[path], c'), first), NameOf(path));
    OthersNamed(t, first, chains, path, c', old(store.owners), store.owners);
  }

  /** Enough entries never used lie ahead for what the file lacks. */
  ghost predicate MayResize(volume: Volume, path: Path, offset: nat)
    reads volume, volume.table, volume.table.entry
  {
    path in volume.dir && path in volume.chains ==>
      MayGrow(volume.table, volume.dir[path].size, |volume.chains[path]|, offset)
  }

  ghost predicate Joined(volume: Volume, store: Store)
    reads volume, volume.table, volume.table.entry, store
  {
    JoinedIn(volume.table.entry[..], volume.table.first, volume.chains, store)
  }

  lemma CleanedNext(view: map<nat, Cluster>, first: nat, e: seq<nat>, i: nat)
    requires i < |e| && e[i] >= first && e[i] - first in view
    ensures Cleaned(view, first, e[..i])[e[i] - first := CLEAN] == Cleaned(view, first, e[..i + 1])
  {
    assert e[..i + 1] == e[..i] + [e[i]];
    SameMap(Cleaned(view, first, e[..i])[e[i] - first := CLEAN], Cleaned(view, first, e[..i + 1]));
  }

  method CleanOne(store: Store, cluster: int, ghost view: map<nat, Cluster>, ghost first: nat, ghost e: seq<nat>,
                  ghost i: nat)
    requires store.Valid() && i < |e| && e[i] >= first && cluster == e[i] - first
    requires cluster in store.disk && cluster in view && Unlisted(store.caches, cluster)
    requires store.Contents() == Cleaned(view, first, e[..i])
    modifies store`disk
    ensures store.Valid() && store.disk.Keys == old(store.disk.Keys)
    ensures store.Contents() == Cleaned(view, first, e[..i + 1])
  {
    CleanedNext(view, first, e, i);
    store.WriteThrough(cluster, CLEAN);
  }

  /** Zeros are written to clusters that are in no cache, past the caches. */
  method CleanAll(store: Store, clusters: seq<int>, ghost first: nat, ghost e: seq<nat>)
    requires store.Valid() && InData(e, first) && clusters == Fat.Clusters(e, first)
    requires forall i :: 0 <= i < |e| ==> e[i] - first in store.disk && Unlisted(store.caches, e[i] - first)
    modifies store`disk
    ensures store.Valid() && store.Contents() == Cleaned(old(store.Contents()), first, e)
  {
    SameMap(store.Contents(), Cleaned(store.Contents(), first, []));
    for i := 0 to |clusters|
      invariant store.Valid() && store.disk.Keys == old(store.disk.Keys)
      invariant store.Contents() == Cleaned(old(store.Contents()), first, e[..i])
    {
      CleanOne(store, clusters[i], old(store.Contents()), first, e, i);
    }
    assert e[..|clusters|] == e;
  }

  /** What a file that was truncated gained is cleaned when the file had bytes. */
  ghost function ToClean(dir: map<Path, DirEntry>, chains: map<Path, seq<nat>>, chains': map<Path, seq<nat>>,
                         path: Path): seq<nat>
  {
    if path in dir && path in chains && path in chains' && dir[path].size > 0
    then Gained(chains[path], chains'[path]) else []
  }

  lemma MayClean(t: seq<nat>, t': seq<nat>, first: nat, c: seq<nat>, d': DirEntry, c': seq<nat>, e: seq<nat>,
                 store: Store)
    requires Reshaped(t, t', first, c, d', c') && (e == [] || e == Gained(c, c'))
    requires store.Valid() && UnusedUnlisted(t, first, store.caches) && Mapped(|t|, first, store.Contents())
    ensures InData(e, first)
    ensures forall i :: 0 <= i < |e| ==> e[i] - first in store.disk && Unlisted(store.caches, e[i] - first)
  {
    ReshapedGains(t, t', first, c, d', c', store.caches);
    forall i | 0 <= i < |e|
      ensures e[i] - first in store.disk && Unlisted(store.caches, e[i] - first)
    {
      var n := Numbers(e, first)[i];
      assert Unlisted(store.caches, n) && n + first < |t|;
      assert n in store.Contents();
    }
  }

  /** The clusters a resized file gained are its own, and cleaned when it had bytes. */
  method TakeOver(store: Store, toClean: seq<int>, ghost t: seq<nat>, ghost t': seq<nat>, ghost first: nat,
                  ghost chains: map<Path, seq<nat>>, ghost path: Path, ghost d': DirEntry, ghost c': seq<nat>,
                  ghost e: seq<nat>)
    requires store.Valid() && path in chains && forall g :: g in chains ==> InUse(t, chains[g])
    requires Reshaped(t, t', first, chains[path], d', c') && JoinedIn(t, first, chains, store)
    requires Mapped(|t|, first, store.Contents()) && toClean == Fat.Clusters(e, first)
    requires e == [] || e == Gained(chains[path], c')
    modifies store`owners, store`disk
    ensures store.Valid() && store.Contents() == Cleaned(old(store.Contents()), first, e)
    ensures JoinedIn(t', first, chains[path := c'], store)
  {
    MayClean(t, t', first, chains[path], d', c', e, store);
    Adopt(store, t, t', first, chains, path, d', c');
    CleanAll(store, toClean, first, e);
  }

  /** The volume was resized, and the store is still as it was before. */
  ghost predicate Ahead(volume: Volume, store: Store, toClean: seq<int>, path: Path, t: seq<nat>,
                        chains: map<Path, seq<nat>>, e: seq<nat>)
    reads volume, volume.table, volume.table.entry, store
  {
    && path in chains && (forall g :: g in chains ==> InUse(t, chains[g]))
    && path in volume.dir && path in volume.chains && volume.chains == chains[path := volume.chains[path]]
    && Reshaped(t, volume.table.entry[..], volume.table.first, chains[path], volume.dir[path], volume.chains[path])
    && JoinedIn(t, volume.table.first, chains, store) && Mapped(|t|, volume.table.first, store.Contents())
    && (e == [] || e == Gained(chains[path], volume.chains[path]))
    && toClean == Fat.Clusters(e, volume.table.first)
  }

  lemma ResizedFiles(volume: Volume, path: Path, offset: nat, t: seq<nat>, free: int, dir: map<Path, DirEntry>,
                     chains: map<Path, seq<nat>>)
    requires volume.Valid() && Sound(t, volume.table.first, dir, chains)
    requires volume.Changed(path, offset, t, free, dir, chains)
    ensures path in chains && (forall g :: g in chains ==> InUse(t, chains[g]))
    ensures path in volume.dir && path in volume.chains && volume.chains == chains[path := volume.chains[path]]
    ensures Reshaped(t, volume.table.entry[..], volume.table.first, chains[path], volume.dir[path], volume.chains[path])
  {
    FilesInUse(t, volume.table.first, dir, chains);
    assert FileOk(volume.table.entry[..], volume.table.first, volume.dir[path], volume.chains[path]);
  }

  lemma ResizedOk(volume: Volume, store: Store, toClean: seq<int>, path: Path, offset: nat, t: seq<nat>, free: int,
                  dir: map<Path, DirEntry>, chains: map<Path, seq<nat>>)
    requires volume.Valid() && Sound(t, volume.table.first, dir, chains)
    requires volume.Changed(path, offset, t, free, dir, chains)
    requires JoinedIn(t, volume.table.first, chains, store) && Mapped(|t|, volume.table.first, store.Contents())
    requires toClean == if dir[path].size > 0
                        then Fat.Clusters(Gained(chains[path], volume.chains[path]), volume.table.first) else []
    ensures Ahead(volume, store, toClean, path, t, chains, ToClean(dir, chains, volume.chains, path))
  {
    ResizedFiles(volume, path, offset, t, free, dir, chains);
  }

  /** The store follows the volume. */
  method Follow(volume: Volume, store: Store, toClean: seq<int>, ghost path: Path, ghost t: seq<nat>,
                ghost chains: map<Path, seq<nat>>, ghost e: seq<nat>)
    requires volume.Valid() && store.Valid() && Ahead(volume, store, toClean, path, t, chains, e)
    modifies store`owners, store`disk
    ensures volume.Valid() && store.Valid() && Joined(volume, store)
    ensures store.Contents() == Cleaned(old(store.Contents()), volume.table.first, e)
  {
    TakeOver(store, toClean, t, volume.table.entry[..], volume.table.first, chains, path, volume.dir[path],
             volume.chains[path], e);
  }

  method Resize(volume: Volume, store: Store, path: Path, offset: nat) returns (status: int)
    requires volume.Valid() && store.Valid() && Joined(volume, store) && MayResize(volume, path, offset)
    requires Mapped(volume.table.entry.Length, volume.table.first, store.Contents())
    modifies volume, volume.table, volume.table.entry, store`owners, store`disk
    ensures volume.Valid() && store.Valid() && Joined(volume, store)
    ensures status == (if path !in old(volume.dir) then -ENOENT
                       else if old(volume.chains[path]) == [] && offset > 0 && old(volume.table.freeClusters) <= 0
                       then -1 else 0)
    ensures status != 0 ==> volume.dir == old(volume.dir) && volume.chains == old(volume.chains)
                            && store.Contents() == old(store.Contents())
    ensures status == 0 ==>
              && volume.Changed(path, offset, old(volume.table.entry[..]), old(volume.table.freeClusters),
                                old(volume.dir), old(volume.chains))
              && store.Contents() ==
                 Cleaned(old(store.Contents()), volume.table.first,
                         ToClean(old(volume.dir), old(volume.chains), volume.chains, path))
  {
    ghost var t, free, dir, chains := volume.table.entry[..], volume.table.freeClusters, volume.dir, volume.chains;
    var toClean;
    status, toClean := volume.Truncate(path, offset);
    if status == 0 {
      ResizedOk(volume, store, toClean, path, offset, t, free, dir, chains);
      Follow(volume, store, toClean, path, t, chains, ToClean(dir, chains, volume.chains, path));
    }
  }

  // ---- what a truncated file holds

  lemma CleanedMapped(size: nat, first: nat, view: map<nat, Cluster>, e: seq<nat>)
    requires Mapped(size, first, view)
    ensures Mapped(size, first, Cleaned(view, first, e))
  {
  }

  /** The clusters of the other files are not among those gained. */
  lemma CleanedOthersSame(t: seq<nat>, first: nat, dir: map<Path, DirEntry>, chains: map<Path, seq<nat>>, path: Path,
                          c': seq<nat>, view: map<nat, Cluster>, e: seq<nat>)
    requires Sound(t, first, dir, chains) && Mapped(|t|, first, view) && Unused(t, e)
    ensures OthersSame(chains, chains[path := c'], view, Cleaned(view, first, e), first, path)
  {
    FilesInUse(t, first, dir, chains);
    forall g | g in chains && g != path
      ensures BytesOf(Cleaned(view, first, e), first, chains[g]) == BytesOf(view, first, chains[g])
    {
      assert FileOk(t, first, dir[g], chains[g]) && InUse(t, chains[g]);
      if chains[g] != [] { ChainReadable(t, first, chains[g], view); }
      forall i | 0 <= i < |chains[g]|
        ensures chains[g][i] !in e
      {
        assert t[chains[g][i]] != FatChains.FREE;
      }
      CleanedOthers(view, first, e, chains[g]);
    }
  }

  /** What a file of entries `c` that held `b` holds once it has entries `c'`. */
  ghost function Reheld(view: map<nat, Cluster>, first: nat, b: seq<bv8>, c: seq<nat>, c': seq<nat>,
                        cleans: bool): seq<bv8>
    requires |b| == Capacity(|c|)
  {
    if |c'| <= |c| then b[..Capacity(|c'|)] else Lengthened(view, first, b, Gained(c, c'), cleans)
  }

  lemma RestHeld(view: map<nat, Cluster>, first: nat, c: seq<nat>, c': seq<nat>, cleans: bool)
    requires c <= c' || c' <= c
    requires InData(c, first) && Readable(view, Numbers(c, first))
    requires InData(c', first) && Readable(view, Numbers(c', first)) && FatChains.NoRepeats(c')
    ensures BytesOf(Cleaned(view, first, if cleans then Gained(c, c') else []), first, c') ==
            Reheld(view, first, BytesOf(view, first, c), c, c', cleans)
  {
    var e := if cleans then Gained(c, c') else [];
    if |c'| <= |c| {
      CleanedOthers(view, first, e, c');
      assert Numbers(c', first) == Numbers(c, first)[..|c'|];
      BytesPrefix(view, Numbers(c, first), |c'|);
    } else {
      var f := Gained(c, c');
      assert c' == c + f;
      CleanedLonger(view, first, c, f, cleans);
    }
  }

  /** The bytes that a file which had some gains are zeros exactly as far as the rest of its last
      cluster was: the clusters gained are. */
  lemma GrownBytesAreZeros(view: map<nat, Cluster>, first: nat, b: seq<bv8>, gained: seq<nat>, size: nat, offset: nat)
    requires size <= offset <= |b| + Capacity(|gained|) && size <= |b|
    ensures var b' := Lengthened(view, first, b, gained, true);
            var end := if offset < |b| then offset else |b|;
            (forall i :: size <= i < offset ==> b'[i] == 0) <==> (forall i :: size <= i < end ==> b[i] == 0)
  {
    var b' := Lengthened(view, first, b, gained, true);
    assert forall i :: 0 <= i < |b| ==> b'[i] == b[i];
    assert forall i :: |b| <= i < |b'| ==> b'[i] == Zeros(Capacity(|gained|))[i - |b|] == 0;
  }

  // ---- writing

  lemma PatchStaysUnlisted(t: seq<nat>, first: nat, c: seq<nat>, k: nat, caches: seq<FileCache>,
                           caches': seq<FileCache>)
    requires FatChains.Chain(t, c) && InData(c, first) && first > 0 && k < |c|
    requires UnusedUnlisted(t, first, caches) && AddsOnly(caches, caches', Numbers(c, first)[k])
    ensures UnusedUnlisted(t, first, caches')
  {
    assert Numbers(c, first)[k] == Numbers(c, first)[k..][0];
    StaysUnlisted(t, first, c, k, caches, caches');
  }

  /** How much of `size` bytes is written: up to the end of the first cluster. */
  function Written(offset: nat, size: nat): (n: nat)
    ensures n <= size && offset % 4096 + n <= 4096
    ensures n == size <==> offset % 4096 + size <= 4096
    ensures n == size || offset % 4096 + n == 4096
  {
    CopiedFirst(offset, size)
  }

  /** One file now has at least `size` bytes. */
  ghost predicate Sized(dir: map<Path, DirEntry>, dir': map<Path, DirEntry>, path: Path, size: nat) {
    && path in dir && path in dir' && dir' == dir[path := dir'[path]]
    && dir'[path].size == if dir[path].size < size then size else dir[path].size
  }

  /** `b'` is `b`, maybe longer, with `part` at `offset`. */
  predicate Overwritten(b: seq<bv8>, b': seq<bv8>, offset: nat, part: seq<bv8>) {
    && |b| <= |b'| && offset + |part| <= |b'| && b'[offset..offset + |part|] == part
    && forall i :: 0 <= i < |b| && !(offset <= i < offset + |part|) ==> b'[i] == b[i]
  }

  /** Changing part of one cluster changes that part of the file. */
  lemma SplicedCluster(view: map<nat, Cluster>, clusters: seq<nat>, k: nat, position: nat, part: seq<bv8>)
    requires Readable(view, clusters) && k < |clusters| && position + |part| <= 4096
    requires forall i, j :: 0 <= i < j < |clusters| ==> clusters[i] != clusters[j]
    ensures var view' := view[clusters[k] := Spliced(view[clusters[k]], position, part)];
            && Readable(view', clusters)
            && Overwritten(Bytes(view, clusters), Bytes(view', clusters), k * 4096 + position, part)
  {
    var cluster := Spliced(view[clusters[k]], position, part);
    BytesAt(view, clusters, k);
    BytesEdit(view, clusters, k, cluster);
    SplicedWithin(Bytes(view, clusters), k * 4096, view[clusters[k]], position, part);
  }

  lemma SplicedWithin(b: seq<bv8>, start: nat, whole: seq<bv8>, position: nat, part: seq<bv8>)
    requires position + |part| <= |whole| && start + |whole| <= |b| && b[start..start + |whole|] == whole
    ensures Overwritten(b, Spliced(b, start, Spliced(whole, position, part)), start + position, part)
  {
    var inner := Spliced(whole, position, part);
    var b' := Spliced(b, start, inner);
    assert b'[start + position..start + position + |part|] == inner[position..position + |part|];
    forall i | 0 <= i < |b| && !(start + position <= i < start + position + |part|)
      ensures b'[i] == b[i]
    {
      if start <= i < start + |whole| {
        assert b'[i] == inner[i - start] == whole[i - start] == b[i];
      }
    }
  }

  /** The cluster that FUSE_write starts at, and the byte in it. */
  method ClusterToWrite(table: Fat.Table, start: int, offset: nat, ghost c: seq<nat>) returns (n: nat, first: nat)
    requires FatChains.Chain(table.entry[..], c) && InData(c, table.first) && table.entry.Length <= FatChains.LAST2
    requires start + table.first == c[0] && offset / 4096 < |c|
    ensures n == Numbers(c, table.first)[offset / 4096] && first == offset % 4096
  {
    var clusters := ClustersFor(offset);
    if offset % 4096 == 0 {
      clusters := clusters + 1;
    }
    if clusters == 0 {
      clusters := 1;
    }
    var found := table.XthCluster(start, clusters - 1, c);
    assert found == Numbers(c, table.first)[offset / 4096];
    n := found;
    first := offset;
    if offset >= (clusters - 1) * 4096 {
      first := offset - (clusters - 1) * 4096;
    }
  }

  /** The clusters once what fits of `data` is written to cluster `n`. */
  ghost function Patched(view: map<nat, Cluster>, n: nat, offset: nat, data: seq<bv8>): map<nat, Cluster>
    requires n in view && |view[n]| == 4096
  {
    view[n := Spliced(view[n], offset % 4096, data[..Written(offset, |data|)])]
  }

  /** What fits of `data` goes over the bytes of the cluster. */
  method Fill(cluster: Cluster, g: Geometry, first: nat, data: seq<bv8>, ghost offset: nat) returns (filled: Cluster)
    requires |cluster| == 4096 && g.Fits() && first == offset % 4096
    ensures filled == Spliced(cluster, first, data[..Written(offset, |data|)])
  {
    var count := if first + |data| > 4096 then 4096 - first else |data|;
    var byte, block, sector := Locate(first, g);
    filled := Spliced(cluster, g.Position(block, sector, byte), data[..count]);
  }

  /** The writing of FUSE_write, for what fits in the first cluster. */
  method Patch(store: Store, g: Geometry, name: Name, n: nat, first: nat, data: seq<bv8>, ghost offset: nat)
    requires store.Valid() && n in store.Contents() && |store.Contents()[n]| == 4096
    requires Owner(store.owners, n) == name && g.Fits() && first == offset % 4096
    modifies store`caches, store`disk
    ensures store.Valid() && AddsOnly(old(store.caches), store.caches, n)
    ensures store.Contents() == Patched(old(store.Contents()), n, offset, data)
  {
    var cluster := store.Read(n, name);
    cluster := Fill(cluster, g, first, data, offset);
    store.Write(n, cluster, name);
  }

  /** Growing before writing does not show in what was there. */
  lemma HeldBefore(view: map<nat, Cluster>, first: nat, b: seq<bv8>, c: seq<nat>, c': seq<nat>, cleans: bool,
                   b': seq<bv8>, offset: nat, part: seq<bv8>)
    requires |b| == Capacity(|c|) && c <= c' && Overwritten(Reheld(view, first, b, c, c', cleans), b', offset, part)
    ensures Overwritten(b, b', offset, part)
  {
    var mid := Reheld(view, first, b, c, c', cleans);
    assert |b| <= |mid| && forall i :: 0 <= i < |b| ==> mid[i] == b[i];
  }

  lemma OthersSameAfter(a: map<Path, seq<nat>>, b: map<Path, seq<nat>>, view: map<nat, Cluster>, mid: map<nat, Cluster>,
                        view': map<nat, Cluster>, first: nat, path: Path)
    requires OthersSame(a, b, view, mid, first, path) && OthersSame(b, b, mid, view', first, path)
    ensures OthersSame(a, b, view, view', first, path)
  {
  }

  /** A file kept its clusters, maybe with more after them, and now has one for each byte up to
      `offset + size` and for the one at `offset`. */
  ghost predicate Roomy(dir: map<Path, DirEntry>, chains: map<Path, seq<nat>>, dir': map<Path, DirEntry>,
                        chains': map<Path, seq<nat>>, path: Path, offset: nat, size: nat) {
    && Sized(dir, dir', path, offset + size)
    && path in chains && path in chains' && chains[path] <= chains'[path] && offset / 4096 < |chains'[path]|
  }

  ghost predicate GrownTo(dir: map<Path, DirEntry>, chains: map<Path, seq<nat>>, dir': map<Path, DirEntry>,
                          chains': map<Path, seq<nat>>, path: Path, size: nat) {
    path in dir &&
    if dir[path].size < size then Resized(dir, chains, dir', chains', path, size) else dir' == dir && chains' == chains
  }

  lemma RoomMade(dir: map<Path, DirEntry>, chains: map<Path, seq<nat>>, dir': map<Path, DirEntry>,
                 chains': map<Path, seq<nat>>, path: Path, offset: nat, size: nat)
    requires path in dir && path in chains && dir[path].size <= Capacity(|chains[path]|)
    requires GrownTo(dir, chains, dir', chains', path, offset + size)
    requires size == 0 ==> offset / 4096 < |chains[path]|
    ensures Roomy(dir, chains, dir', chains', path, offset, size)
  {
  }

  /** Only the file whose cluster was patched has new bytes. */
  lemma PatchedFiles(t: seq<nat>, first: nat, dir: map<Path, DirEntry>, chains: map<Path, seq<nat>>, path: Path,
                     view: map<nat, Cluster>, offset: nat, data: seq<bv8>)
    requires Sound(t, first, dir, chains) && Mapped(|t|, first, view)
    requires path in chains && offset / 4096 < |chains[path]|
    requires InData(chains[path], first) && Readable(view, Numbers(chains[path], first))
    ensures var n := Numbers(chains[path], first)[offset / 4096];
            var view' := Patched(view, n, offset, data);
            && Mapped(|t|, first, view')
            && Overwritten(BytesOf(view, first, chains[path]), BytesOf(view', first, chains[path]),
                           offset, data[..Written(offset, |data|)])
            && OthersSame(chains, chains, view, view', first, path)
  {
    var c, k := chains[path], offset / 4096;
    var n := Numbers(c, first)[k];
    assert FileOk(t, first, dir[path], c);
    SplicedCluster(view, Numbers(c, first), k, offset % 4096, data[..Written(offset, |data|)]);
    forall f | f in chains && f != path
      ensures BytesOf(Patched(view, n, offset, data), first, chains[f]) == BytesOf(view, first, chains[f])
    {
      assert FileOk(t, first, dir[f], chains[f]);
      if chains[f] != [] { ChainReadable(t, first, chains[f], view); }
      assert FatChains.Apart(c, chains[f]);
      BytesElsewhere(view, Numbers(chains[f], first), n, Patched(view, n, offset, data)[n]);
    }
  }

  method PatchFile(volume: Volume, store: Store, g: Geometry, path: Path, start: int, offset: nat, data: seq<bv8>)
    requires volume.Valid() && store.Valid() && Joined(volume, store) && g.Fits()
    requires Mapped(volume.table.entry.Length, volume.table.first, store.Contents())
    requires path in volume.chains && offset / 4096 < |volume.chains[path]|
    requires FatChains.Chain(volume.table.entry[..], volume.chains[path])
    requires Readable(store.Contents(), Numbers(volume.chains[path], volume.table.first))
    requires start + volume.table.first == volume.chains[path][0]
    modifies store`caches, store`disk
    ensures store.Valid() && Joined(volume, store)
    ensures Mapped(volume.table.entry.Length, volume.table.first, store.Contents())
    ensures Overwritten(BytesOf(old(store.Contents()), volume.table.first, volume.chains[path]),
                        BytesOf(store.Contents(), volume.table.first, volume.chains[path]),
                        offset, data[..Written(offset, |data|)])
    ensures OthersSame(volume.chains, volume.chains, old(store.Contents()), store.Contents(), volume.table.first, path)
  {
    ghost var c, t := volume.chains[path], volume.table.entry[..];
    PatchedFiles(t, volume.table.first, volume.dir, volume.chains, path, store.Contents(), offset, data);
    var n, first := ClusterToWrite(volume.table, start, offset, c);
    Patch(store, g, NameOf(path), n, first, data, offset);
    PatchStaysUnlisted(t, volume.table.first, c, offset / 4096, old(store.caches), store.caches);
  }

  class Mount {
    const volume: Volume
    const store: Store
    const geometry: Geometry

    constructor (volume: Volume, store: Store, geometry: Geometry)
      ensures this.volume == volume && this.store == store && this.geometry == geometry
    {
      this.volume, this.store, this.geometry := volume, store, geometry;
    }

    ghost predicate Valid()
      reads this, volume, volume.table, volume.table.entry, store
    {
      && volume.Valid() && store.Valid() && geometry.Fits()
      && Mapped(volume.table.entry.Length, volume.table.first, store.Contents())
      && Joined(volume, store)
    }

    /** The bytes in the clusters of a file. */
    ghost function Content(path: Path): seq<bv8>
      requires path in volume.chains
      reads this, volume, volume.table, store
    {
      BytesOf(store.Contents(), volume.table.first, volume.chains[path])
    }

    lemma ContentReadable(path: Path)
      requires Valid() && path in volume.chains
      ensures InData(volume.chains[path], volume.table.first)
      ensures Readable(store.Contents(), Numbers(volume.chains[path], volume.table.first))
      ensures |Content(path)| == Capacity(|volume.chains[path]|)
      ensures volume.chains[path] != [] ==>
                && FatChains.Chain(volume.table.entry[..], volume.chains[path])
                && FirstCluster(volume.dir[path], volume.table.first) + volume.table.first == volume.chains[path][0]
    {
      var c := volume.chains[path];
      assert FileOk(volume.table.entry[..], volume.table.first, volume.dir[path], c);
      if c != [] { ChainReadable(volume.table.entry[..], volume.table.first, c, store.Contents()); }
    }

    /** What the file holds from `offset` on, as much as one read copies; nothing of a file
        that is not there or has no clusters. */
    ghost predicate Holds(path: Path, offset: nat, size: nat, copied: seq<bv8>)
      requires Valid()
      reads this, volume, volume.table, volume.table.entry, store
    {
      if path in volume.chains && volume.chains[path] != []
      then |copied| == Copied(offset, size) && offset + |copied| <= |Content(path)| &&
           copied == Content(path)[offset..offset + |copied|]
      else copied == []
    }

    /** It stays among the clusters of the file; the number of an empty file's first one is not
        taken for that of a cluster. */
    ghost predicate MayRead(path: Path, offset: nat, size: nat)
      requires Valid()
      reads this, volume, volume.table, volume.table.entry, store
    {
      path in volume.dir && path in volume.chains ==>
        if volume.chains[path] == [] then FirstCluster(volume.dir[path], volume.table.first) == -2
        else offset / 4096 + Touched(offset, size) <= |volume.chains[path]|
    }

    /** FUSE_read */
    method Read(path: Path, offset: nat, size: nat) returns (result: int, copied: seq<bv8>)
      requires Valid() && MayRead(path, offset, size)
      modifies store`caches, store`disk
      ensures Valid() && store.Contents() == old(store.Contents()) && Holds(path, offset, size, copied)
      ensures result == if path in volume.dir then size else -1
    {
      copied := [];
      if path !in volume.dir {
        return -1, [];
      }
      var start := FirstCluster(volume.dir[path], volume.table.first);
      ContentReadable(path);
      if start == -2 {
        return size, [];
      }
      copied := ReadContent(volume.table, store, geometry, NameOf(path), start, offset, size, volume.chains[path]);
      return size, copied;
    }

    /** FUSE_truncate: the file keeps its first bytes, and the clusters it gains read as zeros if
        it had bytes before, otherwise as what they held; all other clusters stay as they were,
        and so do the other files. */
    method Truncate(path: Path, offset: nat) returns (status: int)
      requires Valid() && MayResize(volume, path, offset)
      modifies volume, volume.table, volume.table.entry, store`owners, store`disk
      ensures Valid()
      ensures status == (if path !in old(volume.dir) then -ENOENT
                         else if old(volume.chains[path]) == [] && offset > 0 && old(volume.table.freeClusters) <= 0
                         then -1 else 0)
      ensures status != 0 ==> volume.dir == old(volume.dir) && volume.chains == old(volume.chains)
                              && store.Contents() == old(store.Contents())
      ensures status == 0 ==> TruncatedTo(path, offset, old(volume.dir), old(volume.chains), old(store.Contents()))
    {
      ghost var t, free, dir, chains := volume.table.entry[..], volume.table.freeClusters, volume.dir, volume.chains;
      ghost var view := store.Contents();
      if path in volume.chains { ContentReadable(path); }
      status := Resize(volume, store, path, offset);
      if status == 0 {
        CleanedMapped(volume.table.entry.Length, volume.table.first, view, ToClean(dir, chains, volume.chains, path));
        TruncatedFile(path, offset, t, free, dir, chains, view);
      } else {
        assert Valid();
      }
    }

    /** What truncating the file has made of the mount. */
    ghost predicate TruncatedTo(path: Path, offset: nat, dir: map<Path, DirEntry>, chains: map<Path, seq<nat>>,
                                view: map<nat, Cluster>)
      reads this, volume, volume.table, store
    {
      var first := volume.table.first;
      && Resized(dir, chains, volume.dir, volume.chains, path, offset)
      && store.Contents() == Cleaned(view, first, ToClean(dir, chains, volume.chains, path))
      && |BytesOf(view, first, chains[path])| == Capacity(|chains[path]|)
      && Content(path) ==
        Reheld(view, first, BytesOf(view, first, chains[path]), chains[path], volume.chains[path], dir[path].size > 0)
      && OthersSame(chains, volume.chains, view, store.Contents(), first, path)
    }

    lemma TruncatedFile(path: Path, offset: nat, t: seq<nat>, free: int, dir: map<Path, DirEntry>,
                        chains: map<Path, seq<nat>>, view: map<nat, Cluster>)
      requires volume.Valid() && Sound(t, volume.table.first, dir, chains) && |t| == volume.table.entry.Length
      requires Mapped(|t|, volume.table.first, view)
      requires volume.Changed(path, offset, t, free, dir, chains)
      requires store.Contents() == Cleaned(view, volume.table.first, ToClean(dir, chains, volume.chains, path))
      ensures TruncatedTo(path, offset, dir, chains, view)
    {
      var first, t' := volume.table.first, volume.table.entry[..];
      var c, c' := chains[path], volume.chains[path];
      assert FileOk(t, first, dir[path], c) && FileOk(t', first, volume.dir[path], c');
      if c != [] { ChainReadable(t, first, c, view); }
      if c' != [] { ChainReadable(t', first, c', view); }
      RestHeld(view, first, c, c', dir[path].size > 0);
      GainsUnused(t, t', c, c');
      CleanedOthersSame(t, first, dir, chains, path, c', view, ToClean(dir, chains, volume.chains, path));
    }

    /** Clusters can be had for the file to grow, and when there is nothing to write, it has
        the cluster that is read. */
    ghost predicate MayWrite(path: Path, offset: nat, size: nat)
      requires Valid()
      reads this, volume, volume.table, volume.table.entry, store
    {
      path in volume.dir && path in volume.chains ==>
        MayLengthen(path, offset + size) && (size == 0 ==> offset / 4096 < |volume.chains[path]|)
    }

    ghost predicate MayLengthen(path: Path, size: nat)
      requires path in volume.dir && path in volume.chains
      reads this, volume, volume.table, volume.table.entry
    {
      volume.dir[path].size < size ==>
        MayResize(volume, path, size) && (volume.chains[path] == [] ==> volume.table.freeClusters > 0)
    }

    /** Writing where the file has clusters */
    method WriteWithin(path: Path, start: int, offset: nat, data: seq<bv8>)
      requires Valid() && path in volume.chains && offset / 4096 < |volume.chains[path]|
      requires start + volume.table.first == volume.chains[path][0]
      modifies store`caches, store`disk
      ensures Valid()
      ensures Overwritten(old(Content(path)), Content(path), offset, data[..Written(offset, |data|)])
      ensures OthersSame(volume.chains, volume.chains, old(store.Contents()), store.Contents(), volume.table.first,
                         path)
    {
      ContentReadable(path);
      PatchFile(volume, store, geometry, path, start, offset, data);
    }

    /** What the file holds, and the others, when it may have been lengthened. */
    ghost predicate Extended(path: Path, dir: map<Path, DirEntry>, chains: map<Path, seq<nat>>, view: map<nat, Cluster>)
      reads this, volume, volume.table, store
    {
      var first := volume.table.first;
      && path in dir && path in chains && path in volume.chains
      && |BytesOf(view, first, chains[path])| == Capacity(|chains[path]|)
      && Content(path) ==
        Reheld(view, first, BytesOf(view, first, chains[path]), chains[path], volume.chains[path], dir[path].size > 0)
      && OthersSame(chains, volume.chains, view, store.Contents(), first, path)
    }

    lemma AsItWas(path: Path)
      requires Valid() && path in volume.chains
      ensures Extended(path, volume.dir, volume.chains, store.Contents())
    {
      ContentReadable(path);
      assert Content(path)[..Capacity(|volume.chains[path]|)] == Content(path);
    }

    lemma FileStarts(path: Path)
      requires Valid() && path in volume.dir
      ensures path in volume.chains && volume.dir[path].size <= Capacity(|volume.chains[path]|)
      ensures volume.chains[path] != [] ==>
                FirstCluster(volume.dir[path], volume.table.first) + volume.table.first == volume.chains[path][0]
    {
      assert FileOk(volume.table.entry[..], volume.table.first, volume.dir[path], volume.chains[path]);
    }

    /** The file is lengthened when it is shorter than `size`. */
    method Lengthen(path: Path, size: nat)
      requires Valid() && path in volume.dir && path in volume.chains && MayLengthen(path, size)
      modifies volume, volume.table, volume.table.entry, store`owners, store`disk
      ensures Valid() && Extended(path, old(volume.dir), old(volume.chains), old(store.Contents()))
      ensures GrownTo(old(volume.dir), old(volume.chains), volume.dir, volume.chains, path, size)
    {
      AsItWas(path);
      if volume.dir[path].size < size {
        var status := Truncate(path, size);
        assert status == 0;
      }
    }

    method Prepare(path: Path, offset: nat, size: nat)
      requires Valid() && path in volume.dir && MayWrite(path, offset, size)
      modifies volume, volume.table, volume.table.entry, store`owners, store`disk
      ensures Valid() && Extended(path, old(volume.dir), old(volume.chains), old(store.Contents()))
      ensures Roomy(old(volume.dir), old(volume.chains), volume.dir, volume.chains, path, offset, size)
    {
      FileStarts(path);
      ghost var dir, chains := volume.dir, volume.chains;
      assert dir[path].size <= Capacity(|chains[path]|) && (size == 0 ==> offset / 4096 < |chains[path]|);
      Lengthen(path, offset + size);
      RoomMade(dir, chains, volume.dir, volume.chains, path, offset, size);
    }

    /** FUSE_write makes room for what it writes. */
    method MakeRoom(path: Path, offset: nat, size: nat) returns (start: int)
      requires Valid() && path in volume.dir && MayWrite(path, offset, size)
      modifies volume, volume.table, volume.table.entry, store`owners, store`disk
      ensures Valid() && Extended(path, old(volume.dir), old(volume.chains), old(store.Contents()))
      ensures Roomy(old(volume.dir), old(volume.chains), volume.dir, volume.chains, path, offset, size)
      ensures start + volume.table.first == volume.chains[path][0]
    {
      FileStarts(path);
      var d := volume.dir[path];
      Prepare(path, offset, size);
      FileStarts(path);
      if d.size == 0 {
        d := volume.dir[path];
      }
      start := FirstCluster(d, volume.table.first);
    }

    /** FUSE_write of no more than a cluster's length: the file is lengthened when it has to be,
        and of the bytes given those that fit in the first cluster are written over what it then
        holds. */
    method Write(path: Path, offset: nat, data: seq<bv8>) returns (result: int)
      requires Valid() && |data| <= 4096 && MayWrite(path, offset, |data|)
      modifies volume, volume.table, volume.table.entry, store
      ensures Valid() && result == if path in old(volume.dir) then |data| else -ENOENT
      ensures path !in old(volume.dir) ==> volume.dir == old(volume.dir) && volume.chains == old(volume.chains)
                                           && store.Contents() == old(store.Contents())
      ensures path in old(volume.dir) ==>
                && Sized(old(volume.dir), volume.dir, path, offset + |data|)
                && Rewritten(path, old(volume.dir), old(volume.chains), old(store.Contents()),
                             offset, data[..Written(offset, |data|)])
    {
      if path !in volume.dir {
        return -ENOENT;
      }
      result := |data|;
      var start := MakeRoom(path, offset, |data|);
      ghost var mid := store.Contents();
      WriteWithin(path, start, offset, data);
      RewrittenFrom(path, old(volume.dir), old(volume.chains), old(store.Contents()), mid,
                    offset, data[..Written(offset, |data|)]);
    }

    /** Lengthened, then written to. */
    lemma RewrittenFrom(path: Path, dir: map<Path, DirEntry>, chains: map<Path, seq<nat>>, view: map<nat, Cluster>,
                        mid: map<nat, Cluster>, offset: nat, part: seq<bv8>)
      requires Valid() && path in dir && path in chains && path in volume.chains && chains[path] <= volume.chains[path]
      requires var first := volume.table.first;
               && |BytesOf(view, first, chains[path])| == Capacity(|chains[path]|)
               && BytesOf(mid, first, volume.chains[path]) ==
                  Reheld(view, first, BytesOf(view, first, chains[path]), chains[path], volume.chains[path],
                         dir[path].size > 0)
               && OthersSame(chains, volume.chains, view, mid, first, path)
               && Overwritten(BytesOf(mid, first, volume.chains[path]), Content(path), offset, part)
               && OthersSame(volume.chains, volume.chains, mid, store.Contents(), first, path)
      ensures Rewritten(path, dir, chains, view, offset, part)
    {
      var first := volume.table.first;
      ContentReadable(path);
      OthersSameAfter(chains, volume.chains, view, mid, store.Contents(), first, path);
      HeldBefore(view, first, BytesOf(view, first, chains[path]), chains[path], volume.chains[path], dir[path].size > 0,
                 Content(path), offset, part);
    }

    /** The file holds what it held, lengthened if need be, with `part` at `offset`. */
    ghost predicate Rewritten(path: Path, dir: map<Path, DirEntry>, chains: map<Path, seq<nat>>,
                              view: map<nat, Cluster>, offset: nat, part: seq<bv8>)
      reads this, volume, volume.table, store
    {
      var first := volume.table.first;
      && path in dir && path in chains && path in volume.chains
      && |BytesOf(view, first, chains[path])| == Capacity(|chains[path]|)
      && Overwritten(BytesOf(view, first, chains[path]), Content(path), offset, part)
      && Overwritten(Reheld(view, first, BytesOf(view, first, chains[path]), chains[path], volume.chains[path],
                            dir[path].size > 0),
                     Content(path), offset, part)
      && |Content(path)| == Capacity(|volume.chains[path]|)
      && OthersSame(chains, volume.chains, view, store.Contents(), first, path)
    }
  }
}
