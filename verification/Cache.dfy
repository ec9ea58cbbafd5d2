/** PFS/Cache.c and the life of a cache in PFS/FUSE.c: clusters are written back when they fall
    out of their list, when the file is flushed and when it is closed. */
module Cache {
  import opened Arithmetic
  import opened Options
  import opened CacheViews

  // ---- runs

  datatype Request =
    | Open(name: Name) | Release(name: Name) | Flush(name: Name)
    | Read(n: nat, name: Name) | Write(n: nat, cluster: Cluster, name: Name)
  {
    /** It names a cluster of the disk, under the file that owns it. */
    ghost predicate Fits(clusters: set<nat>, owners: map<nat, Name>) {
      Read? || Write? ==> n in clusters && Owner(owners, n) == name
    }

    predicate Writes(n: nat) {
      Write? && this.n == n
    }
  }

  /** The clusters after a run without caches. */
  function PlainAfter(requests: seq<Request>, clusters: map<nat, Cluster>): (after: map<nat, Cluster>)
    ensures clusters.Keys <= after.Keys
  {
    if requests == [] then clusters
    else
      var before := PlainAfter(requests[..|requests| - 1], clusters);
      var r := requests[|requests| - 1];
      if r.Write? then before[r.n := r.cluster] else before
  }

  /** What the reads of a run return without caches. */
  function PlainAnswers(requests: seq<Request>, clusters: map<nat, Cluster>): seq<Cluster> {
    if requests == [] then []
    else
      var most := requests[..|requests| - 1];
      var now := PlainAfter(most, clusters);
      var r := requests[|requests| - 1];
      PlainAnswers(most, clusters) + if r.Read? && r.n in now then [now[r.n]] else []
  }

  /** A cluster is as last written. */
  lemma {:induction false} AsLastWritten(requests: seq<Request>, clusters: map<nat, Cluster>, i: nat, n: nat)
    requires i <= |requests| && n in clusters
    requires forall j :: i < j < |requests| ==> !requests[j].Writes(n)
    ensures i < |requests| && requests[i].Writes(n) ==> PlainAfter(requests, clusters)[n] == requests[i].cluster
    ensures (forall j :: 0 <= j < |requests| ==> !requests[j].Writes(n)) ==>
             PlainAfter(requests, clusters)[n] == clusters[n]
  {
    if requests == [] {
    } else if i < |requests| - 1 {
      AsLastWritten(requests[..|requests| - 1], clusters, i, n);
    } else {
      AsLastWritten(requests[..|requests| - 1], clusters, |requests| - 1, n);
    }
  }

  class Store {
    const cacheSize: nat
    const blocksPerCluster: nat
    /** The file each cluster is used under. */
    ghost var owners: map<nat, Name>
    var caches: seq<FileCache>
    /** What AddressPFS reads and writes; Blocks.Addressing is such a map of clusters. */
    var disk: map<nat, Cluster>

    ghost predicate Valid()
      reads this
    {
      blocksPerCluster > 0 && AllOk(caches, disk, owners, blocksPerCluster, cacheSize)
    }

    /** The clusters as the files' users have written them. */
    ghost function Contents(): map<nat, Cluster>
      reads this
    {
      View(caches, disk, owners)
    }

    /** A cluster read or written through `name` stays in memory. */
    ghost predicate CanKeep(name: Name)
      reads this
    {
      IsOpen(caches, name) && blocksPerCluster <= cacheSize
    }

    constructor (size: nat, perCluster: nat, clusters: map<nat, Cluster>, ghost owners: map<nat, Name>)
      requires perCluster > 0
      ensures Valid() && Contents() == clusters && disk == clusters
      ensures this.owners == owners && cacheSize == size && blocksPerCluster == perCluster
    {
      cacheSize, blocksPerCluster := size, perCluster;
      this.owners := owners;
      caches, disk := [], clusters;
      new;
      SameMap(Contents(), clusters);
    }

    /** A cluster in no cache may change its file. */
    ghost method Claim(n: nat, name: Name)
      requires Valid() && Unlisted(caches, n)
      modifies this`owners
      ensures Valid() && Contents() == old(Contents()) && owners == old(owners)[n := name]
    {
      owners := owners[n := name];
      forall k | 0 <= k < |caches|
        ensures CacheOk(caches[k], disk, owners, blocksPerCluster, cacheSize)
      {
        assert CacheOk(caches[k], disk, old(owners), blocksPerCluster, cacheSize);
        var infos := caches[k].infos;
        forall i | 0 <= i < |infos|
          ensures Owner(owners, infos[i].n) == caches[k].name
        {
          assert !Lists(infos, n) && !Holds(infos, i, n);
        }
      }
      forall m | m in disk
        ensures Contents()[m] == old(Contents())[m]
      {
        if m == n {
          ListedNowhere(caches, n, name);
          ListedNowhere(caches, n, Owner(old(owners), n));
        }
      }
      SameMap(Contents(), old(Contents()));
    }

    /** The position of the cache called `name`; the number of caches when there is none. */
    method Find(name: Name) returns (k: nat)
      ensures k <= |caches| && (k < |caches| ==> caches[k].name == name)
      ensures k == |caches| <==> !IsOpen(caches, name)
    {
      k := 0;
      while k < |caches| && caches[k].name != name
        invariant k <= |caches| && forall l :: 0 <= l < k ==> caches[l].name != name
      {
        k := k + 1;
      }
      assert k < |caches| ==> Called(caches, k, name);
    }

    static method FindCluster(infos: seq<ClusterInfo>, n: nat) returns (i: nat)
      ensures i <= |infos| && (i < |infos| ==> infos[i].n == n)
      ensures i == |infos| <==> !Lists(infos, n)
    {
      i := 0;
      while i < |infos| && infos[i].n != n
        invariant i <= |infos| && forall j :: 0 <= j < i ==> infos[j].n != n
      {
        i := i + 1;
      }
      assert i < |infos| ==> Holds(infos, i, n);
    }

    /** Cache_add_new: appends; when the list no longer fits, its first cluster goes, to the
        disk if it was written. */
    method AddNew(k: nat, n: nat, cluster: Cluster, flush: bool)
      requires Valid() && k < |caches| && !Lists(caches[k].infos, n)
      requires n in disk && Owner(owners, n) == caches[k].name && (flush || disk[n] == cluster)
      modifies this`caches, this`disk
      ensures Valid() && disk.Keys == old(disk.Keys)
      ensures Contents() == old(Contents())[n := cluster]
      ensures SameOpens(old(caches), caches) && AddsOnly(old(caches), caches, n)
      ensures blocksPerCluster <= cacheSize ==> Lists(caches[k].infos, n) && disk[n] == old(disk)[n]
      ensures var infos := old(caches[k].infos) + [ClusterInfo(n, cluster, flush)];
              && caches[k].infos == (if |infos| * blocksPerCluster > cacheSize then infos[1..] else infos)
              && WritesBackAtMost(infos[0], |infos| * blocksPerCluster > cacheSize, old(disk), disk)
    {
      var info := ClusterInfo(n, cluster, flush);
      var infos := caches[k].infos + [info];
      if |infos| * blocksPerCluster > cacheSize {
        var removed := infos[0];
        infos := infos[1..];
        if removed.flush { disk := disk[removed.n := removed.cluster]; }
      }
      caches := caches[k := caches[k].(infos := infos)];
      assert blocksPerCluster <= cacheSize ==> Holds(infos, |infos| - 1, n);
      assert !Holds(old(caches)[k].infos, 0, n);
      AddedOnly(old(caches)[k].infos, info, infos);
      AddsOnlyEdit(old(caches), k, infos, n);
      AddedView(old(caches), old(disk), owners, blocksPerCluster, cacheSize, k, info, infos, disk);
    }

    /** Cache_read_cluster */
    method Read(n: nat, name: Name) returns (cluster: Cluster)
      requires Valid() && n in disk && Owner(owners, n) == name
      modifies this`caches, this`disk
      ensures Valid() && disk.Keys == old(disk.Keys)
      ensures Contents() == old(Contents()) && cluster == Contents()[n]
      ensures SameOpens(old(caches), caches) && AddsOnly(old(caches), caches, n)
      ensures CanKeep(name) ==> Lists(InfosOf(caches, name), n)
      ensures Lists(InfosOf(old(caches), name), n) ==> caches == old(caches) && disk == old(disk)
    {
      var k := Find(name);
      if k < |caches| && cacheSize > 0 {
        InfosOfAt(caches, k);
        var i := FindCluster(caches[k].infos, n);
        if i < |caches[k].infos| {
          cluster := caches[k].infos[i].cluster;
          assert CacheOk(caches[k], disk, owners, blocksPerCluster, cacheSize);
          SeenAt(caches[k].infos, disk, i);
        } else {
          cluster := disk[n];
          AddNew(k, n, cluster, false);
          InfosOfAt(caches, k);
          SameMap(old(Contents())[n := cluster], old(Contents()));
        }
      } else {
        cluster := disk[n];
        Uncached(k, n, name);
      }
    }

    /** Without a cache, or with caches of no size, the disk is read and written directly. */
    lemma Uncached(k: nat, n: nat, name: Name)
      requires Valid() && n in disk && Owner(owners, n) == name
      requires k == |caches| || cacheSize == 0
      requires k == |caches| <==> !IsOpen(caches, name)
      ensures InfosOf(caches, name) == [] && Contents()[n] == disk[n]
    {
      if IsOpen(caches, name) {
        var l :| 0 <= l < |caches| && Called(caches, l, name);
        InfosOfAt(caches, l);
        assert CacheOk(caches[l], disk, owners, blocksPerCluster, cacheSize);
        if caches[l].infos != [] { MulLe(1, |caches[l].infos|, blocksPerCluster); }
      }
      assert !Lists([], n);
    }

    /** What is listed for the cluster is taken out. */
    method Drop(k: nat, n: nat)
      requires Valid() && k < |caches| && n in disk && Owner(owners, n) == caches[k].name
      modifies this`caches
      ensures Valid() && SameOpens(old(caches), caches) && AddsOnly(old(caches), caches, n)
      ensures !Lists(caches[k].infos, n) && Contents() == old(Contents())[n := disk[n]]
    {
      var i := FindCluster(caches[k].infos, n);
      if i < |caches[k].infos| {
        RemovedOnly(caches, k, i, n);
        RemovedView(caches, disk, owners, blocksPerCluster, cacheSize, k, i);
        caches := caches[k := caches[k].(infos := Without(caches[k].infos, i))];
      } else {
        InfosOfAt(caches, k);
        SameMap(Contents(), old(Contents())[n := disk[n]]);
      }
    }

    /** A cluster written while its file is open goes to the end of the list. */
    method Replace(k: nat, n: nat, cluster: Cluster)
      requires Valid() && k < |caches| && n in disk && Owner(owners, n) == caches[k].name
      modifies this`caches, this`disk
      ensures Valid() && disk.Keys == old(disk.Keys)
      ensures Contents() == old(Contents())[n := cluster]
      ensures SameOpens(old(caches), caches) && AddsOnly(old(caches), caches, n)
      ensures blocksPerCluster <= cacheSize ==> Lists(caches[k].infos, n) && disk[n] == old(disk)[n]
    {
      Drop(k, n);
      label Dropped:
      AddNew(k, n, cluster, true);
      SameMap(old@Dropped(Contents())[n := cluster], old(Contents())[n := cluster]);
    }

    /** Cache_write_cluster */
    method Write(n: nat, cluster: Cluster, name: Name)
      requires Valid() && n in disk && Owner(owners, n) == name
      modifies this`caches, this`disk
      ensures Valid() && disk.Keys == old(disk.Keys)
      ensures Contents() == old(Contents())[n := cluster]
      ensures SameOpens(old(caches), caches) && AddsOnly(old(caches), caches, n)
      ensures CanKeep(name) ==> Lists(InfosOf(caches, name), n) && disk[n] == old(disk)[n]
    {
      var k := Find(name);
      if k < |caches| && cacheSize > 0 {
        Replace(k, n, cluster);
        InfosOfAt(caches, k);
      } else {
        Uncached(k, n, name);
        disk := disk[n := cluster];
        WrittenThrough(old(disk), n, cluster);
      }
    }

    /** Writing a cluster that is in no list. */
    lemma WrittenThrough(before: map<nat, Cluster>, n: nat, cluster: Cluster)
      requires blocksPerCluster > 0 && AllOk(caches, before, owners, blocksPerCluster, cacheSize)
      requires n in before && disk == before[n := cluster] && InfosOf(caches, Owner(owners, n)) == []
      ensures Valid() && Contents() == View(caches, before, owners)[n := cluster]
    {
      forall k | 0 <= k < |caches|
        ensures CacheOk(caches[k], disk, owners, blocksPerCluster, cacheSize)
      {
        InfosOfAt(caches, k);
        assert CacheOk(caches[k], before, owners, blocksPerCluster, cacheSize);
        if caches[k].name != Owner(owners, n) {
          ListOkFrame(caches[k], before, disk, owners, Owner(owners, n));
        }
      }
      assert !Lists([], n);
      forall m | m in disk && m != n
        ensures Contents()[m] == View(caches, before, owners)[m]
      {
        SeenOnDisk(InfosOf(caches, Owner(owners, m)), before, disk, m);
      }
      SameMap(Contents(), View(caches, before, owners)[n := cluster]);
    }

    /** AddressPFS_write_cluster, past the caches: they stay coherent when the cluster is in none
        of them. */
    method WriteThrough(n: nat, cluster: Cluster)
      requires Valid() && n in disk && Unlisted(caches, n)
      modifies this`disk
      ensures Valid() && disk == old(disk)[n := cluster] && Contents() == old(Contents())[n := cluster]
    {
      disk := disk[n := cluster];
      forall k | 0 <= k < |caches|
        ensures CacheOk(caches[k], disk, owners, blocksPerCluster, cacheSize)
      {
        assert CacheOk(caches[k], old(disk), owners, blocksPerCluster, cacheSize);
        UnlistedOk(caches[k].infos, old(disk), n, cluster);
      }
      forall m | m in disk
        ensures Contents()[m] == old(Contents())[n := cluster][m]
      {
        if m == n {
          ListedNowhere(caches, n, Owner(owners, n));
        } else {
          SeenOnDisk(InfosOf(caches, Owner(owners, m)), old(disk), disk, m);
        }
      }
      SameMap(Contents(), old(Contents())[n := cluster]);
    }

    /** Cache_flush: its loop asks for as many clusters as the configured size holds, and the
        list returns nothing past its end; this reaches every cluster of the list. */
    method FlushList(infos: seq<ClusterInfo>) returns (flushed: seq<ClusterInfo>)
      requires blocksPerCluster > 0 && ListOk(infos, disk) && Within(infos, blocksPerCluster, cacheSize)
      modifies this`disk
      ensures Flushed(infos, old(disk), flushed, disk)
    {
      flushed := infos;
      FitsInFlush(|infos|, blocksPerCluster, cacheSize);
      for i := 0 to cacheSize / blocksPerCluster
        invariant ListOk(flushed, disk) && disk.Keys == old(disk).Keys && |flushed| == |infos|
        invariant forall j :: 0 <= j < |infos| ==> flushed[j] == if j < i then infos[j].(flush := false) else infos[j]
        invariant forall n :: n in disk ==> Seen(flushed, disk, n) == Seen(infos, old(disk), n)
      {
        if i < |flushed| {
          if flushed[i].flush {
            assert Clean(flushed[i], disk);
            forall n | n in disk
              ensures Seen(flushed[i := flushed[i].(flush := false)], disk[flushed[i].n := flushed[i].cluster], n) ==
                      Seen(flushed, disk, n)
            {
              SeenClean(flushed, disk, i, n);
            }
            SeenClean(flushed, disk, i, flushed[i].n);
            disk := disk[flushed[i].n := flushed[i].cluster];
            flushed := flushed[i := flushed[i].(flush := false)];
          }
        }
      }
      AllClean(flushed, disk);
    }

    /** FUSE_flush: what the file's users wrote is on the disk. */
    method Flush(name: Name)
      requires Valid()
      modifies this`caches, this`disk
      ensures Valid() && disk.Keys == old(disk.Keys) && Contents() == old(Contents())
      ensures forall n :: n in disk && Owner(owners, n) == name ==> disk[n] == Contents()[n]
      ensures DiskOf(old(disk), disk, owners, name) && SameOpens(old(caches), caches)
    {
      var k := Find(name);
      if k == |caches| || cacheSize == 0 {
        forall n | n in disk && Owner(owners, n) == name
          ensures disk[n] == Contents()[n]
        {
          Uncached(k, n, name);
        }
        return;
      }
      assert CacheOk(caches[k], disk, owners, blocksPerCluster, cacheSize);
      var flushed := FlushList(caches[k].infos);
      caches := caches[k := caches[k].(infos := flushed)];
      FlushedView(old(caches), old(disk), owners, blocksPerCluster, cacheSize, k, flushed, disk);
    }

    /** FUSE_open */
    method Open(name: Name)
      requires Valid()
      modifies this`caches
      ensures Valid() && Contents() == old(Contents())
      ensures if cacheSize > 0 then Reopened(old(caches), caches, name, OpensOf(old(caches), name) + 1)
              else caches == old(caches)
    {
      if cacheSize > 0 {
        var k := Find(name);
        if k == |caches| {
          caches := caches + [FileCache(name, 1, [])];
        } else {
          assert CacheOk(caches[k], disk, owners, blocksPerCluster, cacheSize);
          OpensEdit(caches, k, caches[k].opens + 1);
          OpensOfAt(caches, k);
          caches := caches[k := caches[k].(opens := caches[k].opens + 1)];
        }
        assert forall l :: 0 <= l < |old(caches)| ==>
          CacheOk(old(caches)[l], disk, owners, blocksPerCluster, cacheSize);
        OpenedView(old(caches), disk, owners, blocksPerCluster, cacheSize, caches);
        if k == |old(caches)| { OpensAppend(old(caches), caches[k]); }
      }
    }

    /** FUSE_release: the last one to close a file takes its cache away and flushes it. */
    method Release(name: Name)
      requires Valid()
      modifies this`caches, this`disk
      ensures Valid() && disk.Keys == old(disk.Keys) && Contents() == old(Contents())
      ensures DiskOf(old(disk), disk, owners, name)
      ensures if cacheSize > 0
              then Reopened(old(caches), caches, name,
                            if IsOpen(old(caches), name) then OpensOf(old(caches), name) - 1 else 0)
              else caches == old(caches)
    {
      if cacheSize > 0 {
        var k := Find(name);
        if k == |caches| { return; }
        assert CacheOk(caches[k], disk, owners, blocksPerCluster, cacheSize);
        OpensOfAt(caches, k);
        if caches[k].opens == 1 {
          OpensWithout(caches, k);
          var removed := caches[k];
          caches := Without(caches, k);
          var flushed := FlushList(removed.infos);
          ClosedView(old(caches), old(disk), owners, blocksPerCluster, cacheSize, k, flushed, disk);
        } else {
          OpensEdit(caches, k, caches[k].opens - 1);
          caches := caches[k := caches[k].(opens := caches[k].opens - 1)];
          assert forall l :: 0 <= l < |old(caches)| ==>
            CacheOk(old(caches)[l], disk, owners, blocksPerCluster, cacheSize);
          OpenedView(old(caches), disk, owners, blocksPerCluster, cacheSize, caches);
        }
      }
    }

    /** Over every run, the caches answer like the plain disk. */
    method Serve(requests: seq<Request>) returns (answers: seq<Cluster>)
      requires Valid() && forall i :: 0 <= i < |requests| ==> requests[i].Fits(disk.Keys, owners)
      modifies this`caches, this`disk
      ensures Valid() && Contents() == PlainAfter(requests, old(Contents()))
      ensures answers == PlainAnswers(requests, old(Contents()))
    {
      answers := [];
      for i := 0 to |requests|
        invariant Valid() && disk.Keys == old(disk.Keys)
        invariant Contents() == PlainAfter(requests[..i], old(Contents()))
        invariant answers == PlainAnswers(requests[..i], old(Contents()))
      {
        assert requests[..i + 1][..i] == requests[..i];
        assert requests[i].Fits(disk.Keys, owners);
        match requests[i] {
          case Open(name) => this.Open(name);
          case Release(name) => this.Release(name);
          case Flush(name) => this.Flush(name);
          case Read(n, name) =>
            var cluster := this.Read(n, name);
            answers := answers + [cluster];
          case Write(n, cluster, name) => this.Write(n, cluster, name);
        }
      }
      assert requests[..|requests|] == requests;
    }
  }
}
