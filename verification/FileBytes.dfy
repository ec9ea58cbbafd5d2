/** The bytes of a file as its clusters laid end to end, and the arithmetic by which
    PFS/PFS.c and PFS/FUSE.c find their way in them; a cluster has 4096 bytes. */
module FileBytes {
  import opened Arithmetic
  import opened Blocks
  import opened CacheViews
  import opened Files

  /** Every cluster is there and whole. */
  ghost predicate Readable(view: map<nat, Cluster>, clusters: seq<nat>) {
    forall i :: 0 <= i < |clusters| ==> clusters[i] in view && |view[clusters[i]]| == 4096
  }

  ghost function Bytes(view: map<nat, Cluster>, clusters: seq<nat>): (b: seq<bv8>)
    requires Readable(view, clusters)
    ensures |b| == Capacity(|clusters|)
  {
    if clusters == [] then []
    else Bytes(view, clusters[..|clusters| - 1]) + view[clusters[|clusters| - 1]]
  }

  lemma {:induction false} BytesPrefix(view: map<nat, Cluster>, clusters: seq<nat>, k: nat)
    requires Readable(view, clusters) && k <= |clusters|
    ensures Bytes(view, clusters[..k]) == Bytes(view, clusters)[..k * 4096]
    decreases |clusters|
  {
    if k < |clusters| {
      var most := clusters[..|clusters| - 1];
      BytesPrefix(view, most, k);
      assert most[..k] == clusters[..k];
    } else {
      assert clusters[..k] == clusters;
    }
  }

  lemma BytesAt(view: map<nat, Cluster>, clusters: seq<nat>, k: nat)
    requires Readable(view, clusters) && k < |clusters|
    ensures Bytes(view, clusters)[k * 4096..k * 4096 + 4096] == view[clusters[k]]
  {
    BytesPrefix(view, clusters, k + 1);
    BytesPrefix(view, clusters, k);
    assert clusters[..k + 1][..k] == clusters[..k];
    var all := Bytes(view, clusters);
    assert all[..(k + 1) * 4096] == all[..k * 4096] + view[clusters[k]];
    assert all[k * 4096..k * 4096 + 4096] == all[..(k + 1) * 4096][k * 4096..];
  }

  /** Changing one cluster of a file changes only its place in the bytes. */
  lemma {:induction false} BytesEdit(view: map<nat, Cluster>, clusters: seq<nat>, k: nat, cluster: Cluster)
    requires Readable(view, clusters) && k < |clusters| && |cluster| == 4096
    requires forall i, j :: 0 <= i < j < |clusters| ==> clusters[i] != clusters[j]
    ensures Readable(view[clusters[k] := cluster], clusters)
    ensures Bytes(view[clusters[k] := cluster], clusters) == Spliced(Bytes(view, clusters), k * 4096, cluster)
    decreases |clusters|
  {
    var view' := view[clusters[k] := cluster];
    var most := clusters[..|clusters| - 1];
    if k < |clusters| - 1 {
      BytesEdit(view, most, k, cluster);
      assert view'[clusters[|clusters| - 1]] == view[clusters[|clusters| - 1]];
      SplicedLonger(Bytes(view, most), k * 4096, cluster, view[clusters[|clusters| - 1]]);
    } else {
      BytesElsewhere(view, most, clusters[k], cluster);
    }
  }

  lemma SplicedLonger<T>(s: seq<T>, start: nat, part: seq<T>, more: seq<T>)
    requires start + |part| <= |s|
    ensures Spliced(s, start, part) + more == Spliced(s + more, start, part)
  {
  }

  lemma {:induction false} BytesElsewhere(view: map<nat, Cluster>, clusters: seq<nat>, n: nat, cluster: Cluster)
    requires Readable(view, clusters) && n !in clusters
    ensures Readable(view[n := cluster], clusters) && Bytes(view[n := cluster], clusters) == Bytes(view, clusters)
    decreases |clusters|
  {
    if clusters != [] {
      BytesElsewhere(view, clusters[..|clusters| - 1], n, cluster);
      assert clusters[|clusters| - 1] != n;
    }
  }

  // ---- a position within a cluster

  /** The sizes the configuration gives for the parts of a cluster. */
  datatype Geometry = Geometry(bytesPerSector: nat, sectorsPerBlock: nat, blocksPerCluster: nat) {
    predicate Fits() {
      bytesPerSector > 0 && sectorsPerBlock > 0 && blocksPerCluster > 0 &&
      blocksPerCluster * sectorsPerBlock * bytesPerSector == 4096
    }

    function Position(block: nat, sector: nat, byte: nat): nat {
      block * sectorsPerBlock * bytesPerSector + sector * bytesPerSector + byte
    }
  }

  /** One sector further, with the carries of PFS_n_block_n_sector_of_cluster_by_bytes. */
  lemma NextSector(g: Geometry, laps: nat, block: nat, sector: nat)
    requires g.Fits() && block < g.blocksPerCluster && sector < g.sectorsPerBlock
    ensures var full := sector + 1 == g.sectorsPerBlock;
            var lap := full && block + 1 == g.blocksPerCluster;
            (if lap then laps + 1 else laps) * 4096 +
            g.Position(if lap then 0 else if full then block + 1 else block, if full then 0 else sector + 1, 0) ==
            laps * 4096 + g.Position(block, sector, 0) + g.bytesPerSector
  {
    var spb, bps := g.sectorsPerBlock, g.bytesPerSector;
    assert (sector + 1) * bps == sector * bps + bps;
    assert (block + 1) * spb * bps == block * spb * bps + spb * bps by {
      assert (block + 1) * spb == block * spb + spb;
      assert (block * spb + spb) * bps == block * spb * bps + spb * bps;
    }
  }

  lemma Inside(g: Geometry, block: nat, sector: nat, byte: nat)
    requires g.Fits() && block < g.blocksPerCluster && sector < g.sectorsPerBlock && byte < g.bytesPerSector
    ensures g.Position(block, sector, byte) < 4096
  {
    var spb, bps := g.sectorsPerBlock, g.bytesPerSector;
    MulGap(sector, spb, bps);
    MulGap(block, g.blocksPerCluster, spb);
    MulLe(block * spb + spb, g.blocksPerCluster * spb, bps);
    assert (block * spb + spb) * bps == block * spb * bps + spb * bps;
  }

  /** PFS_n_block_n_sector_of_cluster_by_bytes: subtracting a sector at a time, the block, the
      sector and the byte together give the offset within its cluster. */
  method Locate(offset: nat, g: Geometry) returns (byte: nat, block: nat, sector: nat)
    requires g.Fits()
    ensures block < g.blocksPerCluster && sector < g.sectorsPerBlock && byte < g.bytesPerSector
    ensures g.Position(block, sector, byte) == offset % 4096
  {
    byte, block, sector := offset, 0, 0;
    ghost var laps := 0;
    while byte >= g.bytesPerSector
      invariant block < g.blocksPerCluster && sector < g.sectorsPerBlock
      invariant laps * 4096 + g.Position(block, sector, 0) + byte == offset
    {
      NextSector(g, laps, block, sector);
      byte := byte - g.bytesPerSector;
      sector := sector + 1;
      if sector >= g.sectorsPerBlock {
        sector := 0;
        block := block + 1;
        if block >= g.blocksPerCluster {
          block := 0;
          laps := laps + 1;
        }
      }
    }
    Inside(g, block, sector, byte);
    ModOf(laps, g.Position(block, sector, byte), 4096);
  }
}
