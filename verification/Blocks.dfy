/** PFS/AddressPFS.c: clusters read and written block by block, each block as one request a
    sector on a connection whose other end may answer in any order. */
module Blocks {
  import opened Arithmetic

  type Sector = seq<bv8>

  /** Several pieces laid end to end. */
  function Join<T>(pieces: seq<seq<T>>): seq<T> {
    if pieces == [] then [] else Join(pieces[..|pieces| - 1]) + pieces[|pieces| - 1]
  }

  predicate Even<T>(pieces: seq<seq<T>>, n: nat) {
    forall i :: 0 <= i < |pieces| ==> |pieces[i]| == n
  }

  lemma JoinLength<T>(pieces: seq<seq<T>>, n: nat)
    requires Even(pieces, n)
    ensures |Join(pieces)| == |pieces| * n
  {
    if pieces != [] {
      JoinLength(pieces[..|pieces| - 1], n);
      assert |pieces| * n == (|pieces| - 1) * n + n;
    }
  }

  lemma JoinMore<T>(pieces: seq<seq<T>>, piece: seq<T>)
    ensures Join(pieces + [piece]) == Join(pieces) + piece
  {
    assert (pieces + [piece])[..|pieces|] == pieces;
  }

  // ---- where clusters lie

  /** sectors_per_block, blocks_per_cluster, sectors_per_cluster; the sector of cluster 0; how
      many clusters there are. */
  datatype Layout = Layout(perBlock: nat, blocks: nat, perCluster: nat, firstData: nat, clusters: nat) {

    /** PFS_n_block_by_sector of a cluster's first sector */
    function FirstBlock(n: nat): nat
      requires perBlock > 0
    {
      (firstData + n * perCluster) / perBlock
    }

    function Start(n: nat): nat
      requires perBlock > 0
    {
      FirstBlock(n) * perBlock
    }

    function Size(): nat {
      blocks * perBlock
    }

    /** The disk has room for every cluster, and no cluster takes more sectors than it has. */
    predicate Fits(sectors: seq<Sector>) {
      perBlock > 0 && Size() <= perCluster && forall n :: 0 <= n < clusters ==> Holds(|sectors|, n)
    }

    predicate Holds(size: nat, n: nat)
      requires perBlock > 0
    {
      Start(n) + Size() <= size
    }

    /** The sectors of cluster `n`. */
    function Sectors(sectors: seq<Sector>, n: nat): seq<Sector>
      requires Fits(sectors) && n < clusters
    {
      assert Holds(|sectors|, n);
      sectors[Start(n)..Start(n) + Size()]
    }
  }

  /** Two clusters' blocks never overlap, at whatever sector the data begins. */
  ghost predicate Apart(l: Layout)
    requires l.perBlock > 0
  {
    forall first: nat, m: nat, n: nat | m < n ::
      l.(firstData := first).FirstBlock(m) + l.blocks <= l.(firstData := first).FirstBlock(n)
  }

  lemma FirstBlocksApart(l: Layout, m: nat, n: nat)
    requires l.perBlock > 0 && l.Size() <= l.perCluster && m < n
    ensures l.FirstBlock(m) + l.blocks <= l.FirstBlock(n)
    ensures l.Start(m) + l.Size() <= l.Start(n)
  {
    MulGap(m, n, l.perCluster);
    DivStep(l.firstData + m * l.perCluster, l.firstData + n * l.perCluster, l.blocks, l.perBlock);
    StartsApart(l.FirstBlock(m), l.FirstBlock(n), l.blocks, l.perBlock);
  }

  lemma StartsApart(a: nat, b: nat, gap: nat, m: nat)
    requires a + gap <= b
    ensures a * m + gap * m <= b * m
  {
    MulLe(a + gap, b, m);
    assert (a + gap) * m == a * m + gap * m;
  }

  lemma {:induction false} BlocksAddUp(l: Layout, n: nat)
    requires l.perBlock > 0 && Apart(l)
    ensures l.FirstBlock(n) >= l.FirstBlock(0) + n * l.blocks
  {
    if n > 0 {
      BlocksAddUp(l, n - 1);
      assert l.(firstData := l.firstData) == l;
      assert l.FirstBlock(n - 1) + l.blocks <= l.FirstBlock(n);
      assert n * l.blocks == (n - 1) * l.blocks + l.blocks;
    }
  }

  /** Clusters keep apart exactly when the boot sector gives each at least the sectors that the
      configuration reads for it. */
  lemma ApartIff(l: Layout)
    requires l.perBlock > 0
    ensures Apart(l) <==> l.Size() <= l.perCluster
  {
    if l.Size() <= l.perCluster {
      forall first: nat, m: nat, n: nat | m < n
        ensures l.(firstData := first).FirstBlock(m) + l.blocks <= l.(firstData := first).FirstBlock(n)
      {
        FirstBlocksApart(l.(firstData := first), m, n);
      }
    }
    if Apart(l) {
      var zero := l.(firstData := 0);
      assert Apart(zero) by {
        forall first: nat, m: nat, n: nat | m < n
          ensures zero.(firstData := first).FirstBlock(m) + zero.blocks <= zero.(firstData := first).FirstBlock(n)
        {
          assert zero.(firstData := first) == l.(firstData := first);
        }
      }
      BlocksAddUp(zero, l.perBlock);
      assert zero.FirstBlock(l.perBlock) == l.perCluster * l.perBlock / l.perBlock;
      ModOf(l.perCluster, 0, l.perBlock);
      assert l.perBlock * l.blocks == l.Size();
    }
  }

  /** A cluster begins at its own sector exactly when that sector begins a block. */
  lemma StartsAtItsSector(l: Layout, n: nat)
    requires l.perBlock > 0
    ensures l.Start(n) == l.firstData + n * l.perCluster <==> (l.firstData + n * l.perCluster) % l.perBlock == 0
    ensures l.Start(n) <= l.firstData + n * l.perCluster < l.Start(n) + l.perBlock
  {
    var sector := l.firstData + n * l.perCluster;
    assert sector == sector / l.perBlock * l.perBlock + sector % l.perBlock;
  }

  // ---- answers in any order

  /** Each of `n` requests is answered once. */
  predicate AnyOrder(order: seq<nat>, n: nat) {
    && |order| == n
    && (forall i :: 0 <= i < n ==> order[i] < n)
    && (forall i, j :: 0 <= i < j < n ==> order[i] != order[j])
  }

  lemma {:induction false} DistinctSize(order: seq<nat>)
    requires forall i, j :: 0 <= i < j < |order| ==> order[i] != order[j]
    ensures |set i | 0 <= i < |order| :: order[i]| == |order|
  {
    if order != [] {
      var most := order[..|order| - 1];
      DistinctSize(most);
      var last := order[|order| - 1];
      assert (set i | 0 <= i < |order| :: order[i]) == (set i | 0 <= i < |most| :: most[i]) + {last};
    }
  }

  /** No request is left unanswered. */
  lemma EachAnswered(order: seq<nat>, n: nat, k: nat)
    requires AnyOrder(order, n) && k < n
    ensures k in order
  {
    if k !in order {
      var answered := set i | 0 <= i < |order| :: order[i];
      DistinctSize(order);
      SmallSets(answered + {k}, n);
    }
  }

  // ---- the disk seen through a connection

  /** `sectors` with `part` written from sector `start` on. */
  function Spliced<T>(sectors: seq<T>, start: nat, part: seq<T>): (r: seq<T>)
    requires start + |part| <= |sectors|
    ensures |r| == |sectors|
    ensures r[start..start + |part|] == part
  {
    sectors[..start] + part + sectors[start + |part|..]
  }

  lemma SplicedElsewhere<T>(sectors: seq<T>, start: nat, part: seq<T>, from: nat, to: nat)
    requires start + |part| <= |sectors| && from <= to <= |sectors|
    requires to <= start || start + |part| <= from
    ensures Spliced(sectors, start, part)[from..to] == sectors[from..to]
  {
    var r := Spliced(sectors, start, part);
    forall i | from <= i < to
      ensures r[i] == sectors[i]
    {
    }
  }

  lemma SplicedMore<T>(sectors: seq<T>, start: nat, part: seq<T>, more: seq<T>)
    requires start + |part| + |more| <= |sectors|
    ensures Spliced(Spliced(sectors, start, part), start + |part|, more) == Spliced(sectors, start, part + more)
  {
    var left := Spliced(Spliced(sectors, start, part), start + |part|, more);
    var right := Spliced(sectors, start, part + more);
    forall i | 0 <= i < |sectors|
      ensures left[i] == right[i]
    {
    }
  }

  /** Block `i` of a cluster lies within it. */
  lemma BlockOf(l: Layout, n: nat, i: nat)
    requires l.perBlock > 0 && i < l.blocks
    ensures (l.FirstBlock(n) + i) * l.perBlock == l.Start(n) + i * l.perBlock
    ensures i * l.perBlock + l.perBlock == (i + 1) * l.perBlock <= l.Size()
  {
    MulLe(i + 1, l.blocks, l.perBlock);
  }

  ghost function ClustersOf(l: Layout, sectors: seq<Sector>): map<nat, seq<bv8>>
    requires l.Fits(sectors)
  {
    map n | 0 <= n < l.clusters :: Join(l.Sectors(sectors, n))
  }

  lemma SlotSpliced(l: Layout, sectors: seq<Sector>, n: nat, part: seq<Sector>, m: nat)
    requires l.Fits(sectors) && n < l.clusters && m < l.clusters && |part| == l.Size()
    ensures l.Holds(|sectors|, n) && l.Fits(Spliced(sectors, l.Start(n), part))
    ensures l.Sectors(Spliced(sectors, l.Start(n), part), m) == if m == n then part else l.Sectors(sectors, m)
  {
    assert l.Holds(|sectors|, n) && l.Holds(|sectors|, m);
    if m < n { FirstBlocksApart(l, m, n); } else if n < m { FirstBlocksApart(l, n, m); }
    if m != n { SplicedElsewhere(sectors, l.Start(n), part, l.Start(m), l.Start(m) + l.Size()); }
  }

  lemma Updated<V>(before: map<nat, V>, after: map<nat, V>, n: nat, value: V)
    requires n in before && after.Keys == before.Keys
    requires forall m :: m in before ==> after[m] == if m == n then value else before[m]
    ensures after == before[n := value]
  {
  }

  /** Writing the sectors of one cluster changes that cluster alone. */
  lemma ClustersSpliced(l: Layout, sectors: seq<Sector>, n: nat, part: seq<Sector>)
    requires l.Fits(sectors) && n < l.clusters && |part| == l.Size()
    ensures l.Holds(|sectors|, n) && l.Fits(Spliced(sectors, l.Start(n), part))
    ensures ClustersOf(l, Spliced(sectors, l.Start(n), part)) == ClustersOf(l, sectors)[n := Join(part)]
  {
    SlotSpliced(l, sectors, n, part, n);
    var before, after := ClustersOf(l, sectors), ClustersOf(l, Spliced(sectors, l.Start(n), part));
    forall m | m in before
      ensures after[m] == if m == n then Join(part) else before[m]
    {
      SlotSpliced(l, sectors, n, part, m);
    }
    Updated(before, after, n, Join(part));
  }

  class Addressing {
    const layout: Layout
    var sectors: seq<Sector>

    constructor (layout: Layout, sectors: seq<Sector>)
      ensures this.layout == layout && this.sectors == sectors
    {
      this.layout, this.sectors := layout, sectors;
    }

    ghost predicate Valid()
      reads this
    {
      layout.Fits(sectors)
    }

    /** The bytes of each cluster. */
    ghost function Clusters(): map<nat, seq<bv8>>
      requires Valid()
      reads this
    {
      ClustersOf(layout, sectors)
    }

    /** AddressPFS_read_block; the sectors asked for are answered in `order`. */
    method ReadBlock(block: nat, order: seq<nat>) returns (read: seq<Sector>)
      requires AnyOrder(order, layout.perBlock) && block * layout.perBlock + layout.perBlock <= |sectors|
      ensures read == sectors[block * layout.perBlock..block * layout.perBlock + layout.perBlock]
    {
      var first := block * layout.perBlock;
      var asked: seq<nat> := [];
      for i := 0 to layout.perBlock
        invariant |asked| == i && forall j :: 0 <= j < i ==> asked[j] == first + j
      {
        asked := asked + [first + i];
      }
      var buffer := new Sector[layout.perBlock];
      ghost var wanted := sectors[first..first + layout.perBlock];
      for i := 0 to layout.perBlock
        invariant forall j :: 0 <= j < i ==> buffer[order[j]] == wanted[order[j]]
      {
        var answered := asked[order[i]];
        assert sectors[answered] == wanted[order[i]];
        buffer[answered - first] := sectors[answered];
      }
      forall k | 0 <= k < layout.perBlock
        ensures buffer[k] == wanted[k]
      {
        EachAnswered(order, layout.perBlock, k);
      }
      read := buffer[..];
    }

    /** AddressPFS_write_block; the sectors are written in `order`. */
    method WriteBlock(block: nat, data: seq<Sector>, order: seq<nat>)
      requires AnyOrder(order, layout.perBlock) && |data| == layout.perBlock
      requires block * layout.perBlock + layout.perBlock <= |sectors|
      modifies this
      ensures sectors == Spliced(old(sectors), block * layout.perBlock, data)
    {
      var first := block * layout.perBlock;
      var sent: seq<(nat, Sector)> := [];
      for i := 0 to layout.perBlock
        invariant |sent| == i && forall j :: 0 <= j < i ==> sent[j] == (first + j, data[j])
      {
        sent := sent + [(first + i, data[i])];
      }
      for i := 0 to layout.perBlock
        invariant |sectors| == |old(sectors)|
        invariant forall s :: 0 <= s < |sectors| && !(first <= s < first + layout.perBlock) ==>
                 sectors[s] == old(sectors)[s]
        invariant forall j :: 0 <= j < i ==> sectors[first + order[j]] == data[order[j]]
      {
        var (sector, bytes) := sent[order[i]];
        sectors := sectors[sector := bytes];
      }
      forall k | 0 <= k < layout.perBlock
        ensures sectors[first + k] == data[k]
      {
        EachAnswered(order, layout.perBlock, k);
      }
      assert sectors == Spliced(old(sectors), first, data);
    }

    /** AddressPFS_read_cluster */
    method ReadCluster(n: nat, orders: seq<seq<nat>>) returns (cluster: seq<seq<Sector>>)
      requires Valid() && n < layout.clusters
      requires |orders| == layout.blocks && forall i :: 0 <= i < |orders| ==> AnyOrder(orders[i], layout.perBlock)
      ensures |cluster| == layout.blocks && Even(cluster, layout.perBlock)
      ensures Join(Join(cluster)) == Clusters()[n]
    {
      var block := layout.FirstBlock(n);
      ghost var start := layout.Start(n);
      assert layout.Holds(|sectors|, n);
      cluster := [];
      for i := 0 to layout.blocks
        invariant block == layout.FirstBlock(n) + i
        invariant |cluster| == i && Even(cluster, layout.perBlock)
        invariant start + i * layout.perBlock <= |sectors|
        invariant Join(cluster) == sectors[start..start + i * layout.perBlock]
      {
        BlockOf(layout, n, i);
        var read := ReadBlock(block, orders[i]);
        JoinMore(cluster, read);
        cluster := cluster + [read];
        block := block + 1;
      }
    }

    /** AddressPFS_write_cluster: no other cluster changes. */
    method WriteCluster(n: nat, cluster: seq<seq<Sector>>, orders: seq<seq<nat>>)
      requires Valid() && n < layout.clusters
      requires |orders| == layout.blocks && forall i :: 0 <= i < |orders| ==> AnyOrder(orders[i], layout.perBlock)
      requires |cluster| == layout.blocks && Even(cluster, layout.perBlock)
      modifies this
      ensures Valid() && |sectors| == |old(sectors)|
      ensures forall s :: 0 <= s < |sectors| && !(layout.Start(n) <= s < layout.Start(n) + layout.Size()) ==>
                sectors[s] == old(sectors)[s]
      ensures Clusters() == old(Clusters())[n := Join(Join(cluster))]
    {
      var block := layout.FirstBlock(n);
      ghost var start := layout.Start(n);
      assert layout.Holds(|sectors|, n);
      JoinLength(cluster, layout.perBlock);
      for i := 0 to layout.blocks
        invariant block == layout.FirstBlock(n) + i
        invariant |Join(cluster[..i])| == i * layout.perBlock && start + i * layout.perBlock <= |old(sectors)|
        invariant sectors == Spliced(old(sectors), start, Join(cluster[..i]))
      {
        BlockOf(layout, n, i);
        WriteBlock(block, cluster[i], orders[i]);
        JoinMore(cluster[..i], cluster[i]);
        assert cluster[..i + 1] == cluster[..i] + [cluster[i]];
        SplicedMore(old(sectors), start, Join(cluster[..i]), cluster[i]);
        block := block + 1;
      }
      assert cluster[..layout.blocks] == cluster;
      ClustersSpliced(layout, old(sectors), n, Join(cluster));
    }
  }
}
