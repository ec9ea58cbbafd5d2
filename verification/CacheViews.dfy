/** What the caches of PFS/Cache.c stand for: one list of clusters per open file over a disk,
    together a plain map from clusters to what was last written to them. */
module CacheViews {
  import opened Arithmetic
  import opened Options

  datatype Name = Name(text: string)

  type Cluster = seq<bv8>

  datatype ClusterInfo = ClusterInfo(n: nat, cluster: Cluster, flush: bool)

  datatype FileCache = FileCache(name: Name, opens: nat, infos: seq<ClusterInfo>)

  // ---- one list

  predicate Holds(infos: seq<ClusterInfo>, i: nat, n: nat) {
    i < |infos| && infos[i].n == n
  }

  predicate Lists(infos: seq<ClusterInfo>, n: nat) {
    exists i :: 0 <= i < |infos| && Holds(infos, i, n)
  }

  /** What a reader of cluster `n` through this list sees. */
  ghost function Seen(infos: seq<ClusterInfo>, disk: map<nat, Cluster>, n: nat): Cluster
    requires n in disk
  {
    if Lists(infos, n) then var i :| 0 <= i < |infos| && Holds(infos, i, n); infos[i].cluster else disk[n]
  }

  predicate NoneTwice(infos: seq<ClusterInfo>) {
    forall i, j :: 0 <= i < j < |infos| ==> infos[i].n != infos[j].n
  }

  /** A cluster is as on the disk unless it is to be flushed. */
  predicate Clean(info: ClusterInfo, disk: map<nat, Cluster>) {
    info.n in disk && (!info.flush ==> disk[info.n] == info.cluster)
  }

  /** Each cluster is listed once. */
  predicate ListOk(infos: seq<ClusterInfo>, disk: map<nat, Cluster>) {
    NoneTwice(infos) && forall i :: 0 <= i < |infos| ==> Clean(infos[i], disk)
  }

  lemma SeenAt(infos: seq<ClusterInfo>, disk: map<nat, Cluster>, i: nat)
    requires NoneTwice(infos) && i < |infos| && infos[i].n in disk
    ensures Seen(infos, disk, infos[i].n) == infos[i].cluster
  {
    assert Holds(infos, i, infos[i].n);
  }

  lemma SeenAppend(infos: seq<ClusterInfo>, disk: map<nat, Cluster>, info: ClusterInfo, n: nat)
    requires NoneTwice(infos + [info]) && n in disk && info.n in disk
    ensures Seen(infos + [info], disk, n) == if n == info.n then info.cluster else Seen(infos, disk, n)
  {
    var longer := infos + [info];
    assert forall i :: 0 <= i < |infos| ==> longer[i] == infos[i];
    if n == info.n {
      SeenAt(longer, disk, |infos|);
    } else if Lists(infos, n) {
      var i :| 0 <= i < |infos| && Holds(infos, i, n);
      SeenAt(infos, disk, i);
      SeenAt(longer, disk, i);
    } else if Lists(longer, n) {
      var i :| 0 <= i < |longer| && Holds(longer, i, n);
      assert Holds(infos, i, n);
    }
  }

  lemma ListOkRemove(infos: seq<ClusterInfo>, disk: map<nat, Cluster>, i: nat)
    requires ListOk(infos, disk) && i < |infos|
    ensures ListOk(Without(infos, i), disk) && !Lists(Without(infos, i), infos[i].n)
    ensures forall j :: 0 <= j < |infos| - 1 ==> Without(infos, i)[j] == infos[if j < i then j else j + 1]
  {
  }

  /** Dropping element `i` hides only what it held. */
  lemma SeenRemove(infos: seq<ClusterInfo>, disk: map<nat, Cluster>, i: nat, n: nat)
    requires ListOk(infos, disk) && i < |infos| && n in disk && n != infos[i].n
    ensures Seen(Without(infos, i), disk, n) == Seen(infos, disk, n)
  {
    var rest := Without(infos, i);
    ListOkRemove(infos, disk, i);
    if Lists(infos, n) {
      var j :| 0 <= j < |infos| && Holds(infos, j, n);
      SeenAt(infos, disk, j);
      SeenAt(rest, disk, if j < i then j else j - 1);
    } else if Lists(rest, n) {
      var j :| 0 <= j < |rest| && Holds(rest, j, n);
      assert Holds(infos, if j < i then j else j + 1, n);
    }
  }

  function WrittenBack(info: ClusterInfo, disk: map<nat, Cluster>): map<nat, Cluster> {
    if info.flush then disk[info.n := info.cluster] else disk
  }

  /** The disk shows through where the list holds nothing. */
  lemma SeenOnDisk(infos: seq<ClusterInfo>, disk: map<nat, Cluster>, disk': map<nat, Cluster>, n: nat)
    requires n in disk && n in disk' && (Lists(infos, n) || disk[n] == disk'[n])
    ensures Seen(infos, disk, n) == Seen(infos, disk', n)
  {
  }

  /** Once on the disk, the first element can be dropped. */
  lemma SeenDropFirst(infos: seq<ClusterInfo>, disk: map<nat, Cluster>, n: nat)
    requires infos != [] && ListOk(infos, disk) && n in disk
    ensures Seen(infos[1..], WrittenBack(infos[0], disk), n) == Seen(infos, disk, n)
  {
    var rest := infos[1..];
    assert Without(infos, 0) == rest;
    ListOkRemove(infos, disk, 0);
    assert Clean(infos[0], disk);
    if n == infos[0].n {
      SeenAt(infos, disk, 0);
    } else {
      SeenRemove(infos, disk, 0, n);
      SeenOnDisk(rest, disk, WrittenBack(infos[0], disk), n);
    }
  }

  lemma ListOkDropFirst(infos: seq<ClusterInfo>, disk: map<nat, Cluster>)
    requires infos != [] && ListOk(infos, disk)
    ensures ListOk(infos[1..], WrittenBack(infos[0], disk))
  {
    forall i | 0 <= i < |infos[1..]|
      ensures Clean(infos[1..][i], WrittenBack(infos[0], disk))
    {
      assert Clean(infos[i + 1], disk);
    }
  }

  /** Writing element `i` to the disk and clearing its mark. */
  lemma SeenClean(infos: seq<ClusterInfo>, disk: map<nat, Cluster>, i: nat, n: nat)
    requires ListOk(infos, disk) && i < |infos| && infos[i].flush && n in disk
    ensures var infos' := infos[i := infos[i].(flush := false)];
            var disk' := disk[infos[i].n := infos[i].cluster];
            ListOk(infos', disk') && Seen(infos', disk', n) == Seen(infos, disk, n)
  {
    var infos' := infos[i := infos[i].(flush := false)];
    var disk' := disk[infos[i].n := infos[i].cluster];
    forall j | 0 <= j < |infos'|
      ensures Clean(infos'[j], disk')
    {
      assert Clean(infos[j], disk);
    }
    if Lists(infos, n) {
      var j :| 0 <= j < |infos| && Holds(infos, j, n);
      assert Clean(infos[j], disk);
      SeenAt(infos, disk, j);
      SeenAt(infos', disk', j);
    } else if Lists(infos', n) {
      var j :| 0 <= j < |infos'| && Holds(infos', j, n);
      assert Holds(infos, j, n);
    } else {
      assert n != infos[i].n by {
        assert !Holds(infos, i, n);
      }
    }
  }

  /** A list within its bound is short enough for the loop that flushes it. */
  lemma FitsInFlush(count: nat, perCluster: nat, size: nat)
    requires perCluster > 0 && count * perCluster <= size
    ensures count <= size / perCluster
  {
    if size / perCluster < count { MulGap(size / perCluster, count, perCluster); }
    assert size == size / perCluster * perCluster + size % perCluster;
  }

  // ---- all lists

  predicate Called(caches: seq<FileCache>, k: nat, name: Name) {
    k < |caches| && caches[k].name == name
  }

  predicate IsOpen(caches: seq<FileCache>, name: Name) {
    exists k :: 0 <= k < |caches| && Called(caches, k, name)
  }

  predicate NamedOnce(caches: seq<FileCache>) {
    forall k, l :: 0 <= k < l < |caches| ==> caches[k].name != caches[l].name
  }

  /** The list of the file called `name`, empty when it is not open. */
  ghost function InfosOf(caches: seq<FileCache>, name: Name): seq<ClusterInfo> {
    if IsOpen(caches, name) then var k :| 0 <= k < |caches| && Called(caches, k, name); caches[k].infos else []
  }

  /** How often the file called `name` is open. */
  ghost function OpensOf(caches: seq<FileCache>, name: Name): nat {
    if IsOpen(caches, name) then var k :| 0 <= k < |caches| && Called(caches, k, name); caches[k].opens else 0
  }

  predicate SameOpens(caches: seq<FileCache>, caches': seq<FileCache>) {
    && |caches'| == |caches|
    && forall k :: 0 <= k < |caches| ==> caches'[k].name == caches[k].name && caches'[k].opens == caches[k].opens
  }

  /** `name` is now open `opens` times, other files as often as before. */
  ghost predicate Reopened(caches: seq<FileCache>, caches': seq<FileCache>, name: Name, opens: nat) {
    forall other :: OpensOf(caches', other) == if other == name then opens else OpensOf(caches, other)
  }

  lemma OpensOfAt(caches: seq<FileCache>, k: nat)
    requires NamedOnce(caches) && k < |caches|
    ensures OpensOf(caches, caches[k].name) == caches[k].opens
  {
    assert Called(caches, k, caches[k].name);
  }

  lemma OpensEdit(caches: seq<FileCache>, k: nat, opens: nat)
    requires NamedOnce(caches) && k < |caches|
    ensures Reopened(caches, caches[k := caches[k].(opens := opens)], caches[k].name, opens)
  {
    var caches' := caches[k := caches[k].(opens := opens)];
    forall other
      ensures OpensOf(caches', other) == if other == caches[k].name then opens else OpensOf(caches, other)
    {
      OpensOfAt(caches', k);
      if IsOpen(caches, other) {
        var l :| 0 <= l < |caches| && Called(caches, l, other);
        OpensOfAt(caches, l);
        OpensOfAt(caches', l);
      } else if IsOpen(caches', other) {
        var l :| 0 <= l < |caches'| && Called(caches', l, other);
        assert Called(caches, l, other);
      }
    }
  }

  lemma OpensAppend(caches: seq<FileCache>, c: FileCache)
    requires NamedOnce(caches + [c])
    ensures Reopened(caches, caches + [c], c.name, c.opens)
  {
    var caches' := caches + [c];
    assert forall l :: 0 <= l < |caches| ==> caches[l] == caches'[l];
    forall other
      ensures OpensOf(caches', other) == if other == c.name then c.opens else OpensOf(caches, other)
    {
      OpensOfAt(caches', |caches|);
      if IsOpen(caches, other) {
        var l :| 0 <= l < |caches| && Called(caches, l, other);
        OpensOfAt(caches, l);
        OpensOfAt(caches', l);
      } else if IsOpen(caches', other) {
        var l :| 0 <= l < |caches'| && Called(caches', l, other);
        assert l < |caches| ==> Called(caches, l, other);
      }
    }
  }

  lemma OpensWithout(caches: seq<FileCache>, k: nat)
    requires NamedOnce(caches) && k < |caches|
    ensures Reopened(caches, Without(caches, k), caches[k].name, 0)
  {
    var rest := Without(caches, k);
    assert forall l :: 0 <= l < |rest| ==> rest[l] == caches[if l < k then l else l + 1];
    forall other
      ensures OpensOf(rest, other) == if other == caches[k].name then 0 else OpensOf(caches, other)
    {
      if other != caches[k].name && IsOpen(caches, other) {
        var l :| 0 <= l < |caches| && Called(caches, l, other);
        assert Called(rest, if l < k then l else l - 1, other);
      }
      if IsOpen(rest, other) {
        var l :| 0 <= l < |rest| && Called(rest, l, other);
        OpensOfAt(rest, l);
        OpensOfAt(caches, if l < k then l else l + 1);
      }
    }
  }

  lemma InfosOfAt(caches: seq<FileCache>, k: nat)
    requires NamedOnce(caches) && k < |caches|
    ensures InfosOf(caches, caches[k].name) == caches[k].infos
  {
    assert Called(caches, k, caches[k].name);
  }

  /** No cache lists cluster `n`. */
  predicate Unlisted(caches: seq<FileCache>, n: nat) {
    forall k :: 0 <= k < |caches| ==> !Lists(caches[k].infos, n)
  }

  /** At most cluster `n` was added to a list. */
  ghost predicate AddsOnly(caches: seq<FileCache>, caches': seq<FileCache>, n: nat) {
    forall m :: m != n && Unlisted(caches, m) ==> Unlisted(caches', m)
  }

  /** The new list of one cache holds nothing else that the old one did not. */
  lemma AddsOnlyEdit(caches: seq<FileCache>, k: nat, infos: seq<ClusterInfo>, n: nat)
    requires k < |caches|
    requires forall i :: 0 <= i < |infos| ==> infos[i].n == n || Lists(caches[k].infos, infos[i].n)
    ensures AddsOnly(caches, caches[k := caches[k].(infos := infos)], n)
  {
    var caches' := caches[k := caches[k].(infos := infos)];
    forall m | m != n && Unlisted(caches, m)
      ensures Unlisted(caches', m)
    {
      forall l | 0 <= l < |caches'|
        ensures !Lists(caches'[l].infos, m)
      {
        assert !Lists(caches[l].infos, m);
      }
    }
  }

  lemma AddedOnly(infos: seq<ClusterInfo>, info: ClusterInfo, infos': seq<ClusterInfo>)
    requires infos' == infos + [info] || infos' == (infos + [info])[1..]
    ensures forall i :: 0 <= i < |infos'| ==> infos'[i].n == info.n || Lists(infos, infos'[i].n)
  {
    forall i | 0 <= i < |infos'|
      ensures infos'[i].n == info.n || Lists(infos, infos'[i].n)
    {
      var j := if infos' == infos + [info] then i else i + 1;
      if j < |infos| { assert Holds(infos, j, infos'[i].n); }
    }
  }

  lemma RemovedOnly(caches: seq<FileCache>, k: nat, i: nat, n: nat)
    requires k < |caches| && i < |caches[k].infos|
    ensures AddsOnly(caches, caches[k := caches[k].(infos := Without(caches[k].infos, i))], n)
  {
    var infos := caches[k].infos;
    var rest := Without(infos, i);
    forall j | 0 <= j < |rest|
      ensures Lists(infos, rest[j].n)
    {
      assert Holds(infos, if j < i then j else j + 1, rest[j].n);
    }
    AddsOnlyEdit(caches, k, rest, n);
  }

  lemma ListedNowhere(caches: seq<FileCache>, n: nat, name: Name)
    requires Unlisted(caches, n)
    ensures !Lists(InfosOf(caches, name), n)
  {
  }

  lemma InfosOfEdit(caches: seq<FileCache>, k: nat, infos: seq<ClusterInfo>, name: Name)
    requires NamedOnce(caches) && k < |caches|
    ensures InfosOf(caches[k := caches[k].(infos := infos)], name) ==
            if name == caches[k].name then infos else InfosOf(caches, name)
  {
    var caches' := caches[k := caches[k].(infos := infos)];
    assert Called(caches, k, caches[k].name);
    if IsOpen(caches, name) {
      var l :| 0 <= l < |caches| && Called(caches, l, name);
      InfosOfAt(caches, l);
      InfosOfAt(caches', l);
    } else if IsOpen(caches', name) {
      var l :| 0 <= l < |caches'| && Called(caches', l, name);
      assert Called(caches, l, name);
    }
  }

  /** The plain map of clusters that caches and disk stand for, each cluster being used under
      the one file that owns it. */
  ghost function View(caches: seq<FileCache>, disk: map<nat, Cluster>, owners: map<nat, Name>): map<nat, Cluster> {
    map n | n in disk :: Seen(InfosOf(caches, Owner(owners, n)), disk, n)
  }

  ghost function Owner(owners: map<nat, Name>, n: nat): Name {
    if n in owners then owners[n] else Name("")
  }

  predicate Within(infos: seq<ClusterInfo>, perCluster: nat, size: nat) {
    |infos| * perCluster <= size
  }

  ghost predicate Owned(infos: seq<ClusterInfo>, owners: map<nat, Name>, name: Name) {
    forall i :: 0 <= i < |infos| ==> Owner(owners, infos[i].n) == name
  }

  ghost predicate CacheOk(c: FileCache, disk: map<nat, Cluster>, owners: map<nat, Name>, perCluster: nat, size: nat) {
    ListOk(c.infos, disk) && Owned(c.infos, owners, c.name) && Within(c.infos, perCluster, size) && c.opens > 0
  }

  ghost predicate AllOk(caches: seq<FileCache>, disk: map<nat, Cluster>, owners: map<nat, Name>, perCluster: nat,
                        size: nat)
  {
    NamedOnce(caches) && forall k :: 0 <= k < |caches| ==> CacheOk(caches[k], disk, owners, perCluster, size)
  }

  /** The disk changes only in clusters of one file. */
  ghost predicate DiskOf(disk: map<nat, Cluster>, disk': map<nat, Cluster>, owners: map<nat, Name>, name: Name) {
    disk'.Keys == disk.Keys && forall n :: n in disk && Owner(owners, n) != name ==> disk'[n] == disk[n]
  }

  lemma ListOkFrame(c: FileCache, disk: map<nat, Cluster>, disk': map<nat, Cluster>, owners: map<nat, Name>, name: Name)
    requires ListOk(c.infos, disk) && Owned(c.infos, owners, c.name) && c.name != name
    requires DiskOf(disk, disk', owners, name)
    ensures ListOk(c.infos, disk')
  {
    forall i | 0 <= i < |c.infos|
      ensures Clean(c.infos[i], disk')
    {
      assert Clean(c.infos[i], disk);
    }
  }

  /** One cache and the disk under its file change. */
  lemma AllOkEdit(caches: seq<FileCache>, disk: map<nat, Cluster>, owners: map<nat, Name>, perCluster: nat, size: nat,
                  k: nat, infos: seq<ClusterInfo>, disk': map<nat, Cluster>)
    requires AllOk(caches, disk, owners, perCluster, size) && k < |caches|
    requires ListOk(infos, disk') && Owned(infos, owners, caches[k].name) && Within(infos, perCluster, size)
    requires DiskOf(disk, disk', owners, caches[k].name)
    ensures AllOk(caches[k := caches[k].(infos := infos)], disk', owners, perCluster, size)
  {
    var caches' := caches[k := caches[k].(infos := infos)];
    forall l | 0 <= l < |caches'|
      ensures CacheOk(caches'[l], disk', owners, perCluster, size)
    {
      assert CacheOk(caches[l], disk, owners, perCluster, size);
      if l != k { ListOkFrame(caches[l], disk, disk', owners, caches[k].name); }
    }
  }

  lemma ViewEdit(caches: seq<FileCache>, disk: map<nat, Cluster>, owners: map<nat, Name>,
                 k: nat, infos: seq<ClusterInfo>, disk': map<nat, Cluster>, n: nat)
    requires NamedOnce(caches) && k < |caches| && n in disk && DiskOf(disk, disk', owners, caches[k].name)
    ensures View(caches[k := caches[k].(infos := infos)], disk', owners)[n] ==
            if Owner(owners, n) == caches[k].name then Seen(infos, disk', n) else View(caches, disk, owners)[n]
    ensures Owner(owners, n) == caches[k].name ==> View(caches, disk, owners)[n] == Seen(caches[k].infos, disk, n)
  {
    InfosOfEdit(caches, k, infos, Owner(owners, n));
    InfosOfAt(caches, k);
    if Owner(owners, n) != caches[k].name {
      SeenOnDisk(InfosOf(caches, Owner(owners, n)), disk, disk', n);
    }
  }

  lemma UnlistedOk(infos: seq<ClusterInfo>, disk: map<nat, Cluster>, n: nat, cluster: Cluster)
    requires ListOk(infos, disk) && !Lists(infos, n)
    ensures ListOk(infos, disk[n := cluster])
  {
    forall i | 0 <= i < |infos|
      ensures Clean(infos[i], disk[n := cluster])
    {
      assert Clean(infos[i], disk) && !Holds(infos, i, n);
    }
  }

  lemma SameMap(m: map<nat, Cluster>, m': map<nat, Cluster>)
    requires m.Keys == m'.Keys && forall n :: n in m ==> m[n] == m'[n]
    ensures m == m'
  {
  }

  /** One list and the disk under it change; of what they show, only cluster `n` may differ. */
  lemma ViewAfterEdit(caches: seq<FileCache>, disk: map<nat, Cluster>, owners: map<nat, Name>, perCluster: nat,
                      size: nat, k: nat, infos: seq<ClusterInfo>, disk': map<nat, Cluster>, n: nat, cluster: Cluster)
    requires AllOk(caches, disk, owners, perCluster, size) && k < |caches|
    requires ListOk(infos, disk') && Owned(infos, owners, caches[k].name) && Within(infos, perCluster, size)
    requires DiskOf(disk, disk', owners, caches[k].name) && n in disk && Owner(owners, n) == caches[k].name
    requires forall m :: m in disk ==>
             Seen(infos, disk', m) == if m == n then cluster else Seen(caches[k].infos, disk, m)
    ensures AllOk(caches[k := caches[k].(infos := infos)], disk', owners, perCluster, size)
    ensures View(caches[k := caches[k].(infos := infos)], disk', owners) == View(caches, disk, owners)[n := cluster]
  {
    AllOkEdit(caches, disk, owners, perCluster, size, k, infos, disk');
    var view := View(caches[k := caches[k].(infos := infos)], disk', owners);
    forall m | m in disk
      ensures view[m] == View(caches, disk, owners)[n := cluster][m]
    {
      ViewEdit(caches, disk, owners, k, infos, disk', m);
    }
    SameMap(view, View(caches, disk, owners)[n := cluster]);
  }

  /** What is left of a list one longer than fits, and of the disk. */
  predicate Trimmed(longer: seq<ClusterInfo>, disk: map<nat, Cluster>, perCluster: nat, size: nat,
                    infos: seq<ClusterInfo>, disk': map<nat, Cluster>)
    requires longer != []
  {
    if |longer| * perCluster > size
    then infos == longer[1..] && disk' == WrittenBack(longer[0], disk)
    else infos == longer && disk' == disk
  }

  /** No cluster of the disk changes but the one of `info`, and only if it is marked and falls out. */
  predicate WritesBackAtMost(info: ClusterInfo, falls: bool, disk: map<nat, Cluster>, disk': map<nat, Cluster>) {
    disk' == disk || (falls && info.flush && disk' == disk[info.n := info.cluster])
  }

  lemma AddedList(infos: seq<ClusterInfo>, disk: map<nat, Cluster>, info: ClusterInfo)
    requires ListOk(infos, disk) && !Lists(infos, info.n) && Clean(info, disk)
    ensures ListOk(infos + [info], disk)
  {
    var longer := infos + [info];
    forall i | 0 <= i < |longer|
      ensures Clean(longer[i], disk)
    {
      if i < |infos| { assert Clean(infos[i], disk); }
    }
    forall i, j | 0 <= i < j < |longer|
      ensures longer[i].n != longer[j].n
    {
      if j == |infos| { assert !Holds(infos, i, info.n); }
    }
  }

  lemma TrimmedList(longer: seq<ClusterInfo>, disk: map<nat, Cluster>, perCluster: nat, size: nat,
                    infos: seq<ClusterInfo>, disk': map<nat, Cluster>)
    requires longer != [] && ListOk(longer, disk) && Trimmed(longer, disk, perCluster, size, infos, disk')
    requires Within(longer[1..], perCluster, size)
    ensures ListOk(infos, disk') && Within(infos, perCluster, size) && disk'.Keys == disk.Keys
    ensures forall n :: n in disk ==> Seen(infos, disk', n) == Seen(longer, disk, n)
  {
    if |longer| * perCluster > size {
      assert Clean(longer[0], disk);
      ListOkDropFirst(longer, disk);
      forall n | n in disk
        ensures Seen(infos, disk', n) == Seen(longer, disk, n)
      {
        SeenDropFirst(longer, disk, n);
      }
    }
  }

  /** Adding a cluster to the list of its owner, whatever falls out, adds it to the plain map. */
  lemma AddedView(caches: seq<FileCache>, disk: map<nat, Cluster>, owners: map<nat, Name>, perCluster: nat, size: nat,
                  k: nat, info: ClusterInfo, infos: seq<ClusterInfo>, disk': map<nat, Cluster>)
    requires AllOk(caches, disk, owners, perCluster, size) && k < |caches|
    requires !Lists(caches[k].infos, info.n) && Clean(info, disk) && Owner(owners, info.n) == caches[k].name
    requires Trimmed(caches[k].infos + [info], disk, perCluster, size, infos, disk')
    ensures AllOk(caches[k := caches[k].(infos := infos)], disk', owners, perCluster, size)
    ensures View(caches[k := caches[k].(infos := infos)], disk', owners) ==
            View(caches, disk, owners)[info.n := info.cluster]
  {
    assert CacheOk(caches[k], disk, owners, perCluster, size);
    var longer := caches[k].infos + [info];
    AddedList(caches[k].infos, disk, info);
    assert |longer[1..]| == |caches[k].infos|;
    TrimmedList(longer, disk, perCluster, size, infos, disk');
    assert Owned(longer, owners, caches[k].name);
    assert DiskOf(disk, disk', owners, caches[k].name);
    forall m | m in disk
      ensures Seen(infos, disk', m) == if m == info.n then info.cluster else Seen(caches[k].infos, disk, m)
    {
      SeenAppend(caches[k].infos, disk, info, m);
    }
    ViewAfterEdit(caches, disk, owners, perCluster, size, k, infos, disk', info.n, info.cluster);
  }

  /** Taking cluster `i` out of a list shows what the disk has for it. */
  lemma RemovedView(caches: seq<FileCache>, disk: map<nat, Cluster>, owners: map<nat, Name>, perCluster: nat, size: nat,
                    k: nat, i: nat)
    requires AllOk(caches, disk, owners, perCluster, size) && k < |caches| && i < |caches[k].infos|
    ensures var infos := Without(caches[k].infos, i);
            var n := caches[k].infos[i].n;
            && n in disk && !Lists(infos, n)
            && AllOk(caches[k := caches[k].(infos := infos)], disk, owners, perCluster, size)
            && View(caches[k := caches[k].(infos := infos)], disk, owners) == View(caches, disk, owners)[n := disk[n]]
  {
    var infos := Without(caches[k].infos, i);
    var n := caches[k].infos[i].n;
    assert CacheOk(caches[k], disk, owners, perCluster, size);
    assert Clean(caches[k].infos[i], disk);
    ListOkRemove(caches[k].infos, disk, i);
    MulLe(|infos|, |caches[k].infos|, perCluster);
    forall m | m in disk
      ensures Seen(infos, disk, m) == if m == n then disk[n] else Seen(caches[k].infos, disk, m)
    {
      if m != n { SeenRemove(caches[k].infos, disk, i, m); }
    }
    ViewAfterEdit(caches, disk, owners, perCluster, size, k, infos, disk, n, disk[n]);
  }

  /** `flushed` and `disk'` are `infos` and `disk` after every marked cluster was written. */
  ghost predicate Flushed(infos: seq<ClusterInfo>, disk: map<nat, Cluster>,
                          flushed: seq<ClusterInfo>, disk': map<nat, Cluster>) {
    && ListOk(flushed, disk') && disk'.Keys == disk.Keys && |flushed| == |infos|
    && (forall i :: 0 <= i < |infos| ==> flushed[i] == infos[i].(flush := false))
    && (forall n :: n in disk ==> disk'[n] == Seen(infos, disk, n))
  }

  lemma FlushedSeen(infos: seq<ClusterInfo>, disk: map<nat, Cluster>,
                    flushed: seq<ClusterInfo>, disk': map<nat, Cluster>, n: nat)
    requires Flushed(infos, disk, flushed, disk') && n in disk
    ensures Seen(flushed, disk', n) == disk'[n]
  {
    if Lists(flushed, n) {
      var i :| 0 <= i < |flushed| && Holds(flushed, i, n);
      assert Clean(flushed[i], disk');
      SeenAt(flushed, disk', i);
    }
  }

  lemma FlushedDisk(infos: seq<ClusterInfo>, disk: map<nat, Cluster>, flushed: seq<ClusterInfo>,
                    disk': map<nat, Cluster>, owners: map<nat, Name>, name: Name)
    requires Flushed(infos, disk, flushed, disk') && Owned(infos, owners, name)
    ensures Owned(flushed, owners, name) && DiskOf(disk, disk', owners, name)
  {
    forall n | n in disk && Owner(owners, n) != name
      ensures disk'[n] == disk[n]
    {
      assert !Lists(infos, n);
    }
  }

  /** Flushing one cache changes no cluster of the plain map, and puts those of its file on the disk. */
  lemma FlushedView(caches: seq<FileCache>, disk: map<nat, Cluster>, owners: map<nat, Name>, perCluster: nat, size: nat,
                    k: nat, flushed: seq<ClusterInfo>, disk': map<nat, Cluster>)
    requires AllOk(caches, disk, owners, perCluster, size) && k < |caches|
    requires Flushed(caches[k].infos, disk, flushed, disk')
    ensures AllOk(caches[k := caches[k].(infos := flushed)], disk', owners, perCluster, size)
    ensures View(caches[k := caches[k].(infos := flushed)], disk', owners) == View(caches, disk, owners)
    ensures forall n :: n in disk && Owner(owners, n) == caches[k].name ==> disk'[n] == View(caches, disk, owners)[n]
  {
    assert CacheOk(caches[k], disk, owners, perCluster, size);
    FlushedDisk(caches[k].infos, disk, flushed, disk', owners, caches[k].name);
    AllOkEdit(caches, disk, owners, perCluster, size, k, flushed, disk');
    var view := View(caches[k := caches[k].(infos := flushed)], disk', owners);
    forall n | n in disk
      ensures view[n] == View(caches, disk, owners)[n]
      ensures Owner(owners, n) == caches[k].name ==> disk'[n] == View(caches, disk, owners)[n]
    {
      ViewEdit(caches, disk, owners, k, flushed, disk', n);
      FlushedSeen(caches[k].infos, disk, flushed, disk', n);
    }
    SameMap(view, View(caches, disk, owners));
  }

  lemma InfosOfWithout(caches: seq<FileCache>, k: nat, name: Name)
    requires NamedOnce(caches) && k < |caches|
    ensures NamedOnce(Without(caches, k))
    ensures InfosOf(Without(caches, k), name) == if name == caches[k].name then [] else InfosOf(caches, name)
  {
    var rest := Without(caches, k);
    assert forall l :: 0 <= l < |rest| ==> rest[l] == caches[if l < k then l else l + 1];
    if IsOpen(rest, name) {
      var l :| 0 <= l < |rest| && Called(rest, l, name);
      InfosOfAt(rest, l);
      InfosOfAt(caches, if l < k then l else l + 1);
    } else if name != caches[k].name && IsOpen(caches, name) {
      var l :| 0 <= l < |caches| && Called(caches, l, name);
      assert Called(rest, if l < k then l else l - 1, name);
    }
  }

  /** Closing a flushed cache changes no cluster of the plain map. */
  lemma ClosedView(caches: seq<FileCache>, disk: map<nat, Cluster>, owners: map<nat, Name>, perCluster: nat, size: nat,
                   k: nat, flushed: seq<ClusterInfo>, disk': map<nat, Cluster>)
    requires AllOk(caches, disk, owners, perCluster, size) && k < |caches|
    requires Flushed(caches[k].infos, disk, flushed, disk')
    ensures AllOk(Without(caches, k), disk', owners, perCluster, size)
    ensures View(Without(caches, k), disk', owners) == View(caches, disk, owners)
  {
    FlushedView(caches, disk, owners, perCluster, size, k, flushed, disk');
    var rest := Without(caches, k);
    var flat := caches[k := caches[k].(infos := flushed)];
    InfosOfWithout(caches, k, caches[k].name);
    forall l | 0 <= l < |rest|
      ensures CacheOk(rest[l], disk', owners, perCluster, size)
    {
      assert CacheOk(flat[if l < k then l else l + 1], disk', owners, perCluster, size);
    }
    forall n | n in disk
      ensures View(rest, disk', owners)[n] == View(flat, disk', owners)[n]
    {
      InfosOfWithout(caches, k, Owner(owners, n));
      InfosOfEdit(caches, k, flushed, Owner(owners, n));
      FlushedSeen(caches[k].infos, disk, flushed, disk', n);
    }
    SameMap(View(rest, disk', owners), View(caches, disk, owners));
  }

  /** Opening a file with an empty cache, or once more, changes no cluster of the plain map. */
  lemma OpenedView(caches: seq<FileCache>, disk: map<nat, Cluster>, owners: map<nat, Name>, perCluster: nat, size: nat,
                   caches': seq<FileCache>)
    requires AllOk(caches, disk, owners, perCluster, size)
    requires |caches| <= |caches'| <= |caches| + 1
    requires forall k :: 0 <= k < |caches| ==>
               && caches'[k].name == caches[k].name && caches'[k].infos == caches[k].infos && caches'[k].opens > 0
    requires |caches'| == |caches| + 1 ==>
               && caches'[|caches|].infos == [] && caches'[|caches|].opens > 0
                 && !IsOpen(caches, caches'[|caches|].name)
    ensures AllOk(caches', disk, owners, perCluster, size)
    ensures View(caches', disk, owners) == View(caches, disk, owners)
  {
    forall k | 0 <= k < |caches'|
      ensures CacheOk(caches'[k], disk, owners, perCluster, size)
      ensures k == |caches| ==> forall l :: 0 <= l < k ==> caches[l].name != caches'[k].name
    {
      if k < |caches| { assert CacheOk(caches[k], disk, owners, perCluster, size); }
      else {
        forall l | 0 <= l < k
          ensures caches[l].name != caches'[k].name
        {
          assert !Called(caches, l, caches'[k].name);
        }
      }
    }
    forall name
      ensures InfosOf(caches', name) == InfosOf(caches, name)
    {
      if IsOpen(caches, name) {
        var k :| 0 <= k < |caches| && Called(caches, k, name);
        assert Called(caches', k, name);
      }
      if IsOpen(caches', name) {
        var k :| 0 <= k < |caches'| && Called(caches', k, name);
        InfosOfAt(caches', k);
        if k < |caches| { InfosOfAt(caches, k); }
      }
    }
    SameMap(View(caches', disk, owners), View(caches, disk, owners));
  }

  /** With no marks left, the disk itself is what a reader sees. */
  lemma AllClean(infos: seq<ClusterInfo>, disk: map<nat, Cluster>)
    requires ListOk(infos, disk) && forall i :: 0 <= i < |infos| ==> !infos[i].flush
    ensures forall n :: n in disk ==> Seen(infos, disk, n) == disk[n]
  {
    forall n | n in disk
      ensures Seen(infos, disk, n) == disk[n]
    {
      if Lists(infos, n) {
        var i :| 0 <= i < |infos| && Holds(infos, i, n);
        assert Clean(infos[i], disk);
        SeenAt(infos, disk, i);
      }
    }
  }
}
