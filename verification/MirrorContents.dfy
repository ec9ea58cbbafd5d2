/** What the disks hold: an up-to-date disk settles to the logical contents, a disk being
    synchronised settles to them in every sector it has been told about, and a read returns
    what the array held when it was dispatched. */
module MirrorContents {
  import opened Options
  import opened Petitions
  import opened Mirror

  /** What a sector will hold (Eventual) if none of the sync writes still queued is sent. */
  function EventualOfClients(d: Disk, sector: nat): Data {
    Settle(Settle(Lookup(d.content, sector), d.wire, sector, true), d.queue, sector, false)
  }

  predicate IsSyncWrite(p: Petition, sector: nat) {
    p.fd == -1 && p.kind.Write? && p.sector == sector
  }

  /** A client write to the sector was sent or is queued. */
  predicate Tainted(d: Disk, sector: nat) {
    sector in d.historic || WrittenByClient(d.queue, sector)
  }

  predicate SyncSent(d: Disk, sector: nat) {
    exists i :: 0 <= i < |d.sent| && IsSyncWrite(d.sent[i], sector)
  }

  /** A disk being synchronised: once a sector is tainted or its sync write was sent, the
      sector will be right; until it is tainted, the sync writes queued for it carry the right
      data. */
  predicate Catching(d: Disk, sector: nat, target: Data) {
    && (Tainted(d, sector) || sector in d.completed || SyncSent(d, sector) ==> EventualOfClients(d, sector) == target)
    && (!Tainted(d, sector) ==>
          forall i :: 0 <= i < |d.queue| && IsSyncWrite(d.queue[i], sector) ==> d.queue[i].data == target)
  }

  predicate Mirrored(d: Disk, sector: nat, target: Data) {
    if d.state.Ok? then Eventual(d, sector) == target else Catching(d, sector, target)
  }

  predicate ReadsRight(content: map<nat, Data>, ps: seq<Petition>, total: nat) {
    forall i :: 0 <= i < |ps| && ps[i].kind.Read? && ps[i].sector < total ==>
      Settle(Lookup(content, ps[i].sector), ps[..i], ps[i].sector, true) == ps[i].wanted
  }

  // ---- something is queued

  lemma EventualPush(d: Disk, p: Petition, sector: nat)
    ensures Eventual(d.(queue := d.queue + [p]), sector) ==
            if Lands(p, sector, true) then p.data else Eventual(d, sector)
  {
    assert d.wire + (d.queue + [p]) == Ahead(d) + [p];
    SettleConcat(Lookup(d.content, sector), Ahead(d), [p], sector, true);
  }

  lemma ReadsRightPush(content: map<nat, Data>, ps: seq<Petition>, p: Petition, total: nat)
    requires ReadsRight(content, ps, total)
    requires p.kind.Read? && p.sector < total ==> Settle(Lookup(content, p.sector), ps, p.sector, true) == p.wanted
    ensures ReadsRight(content, ps + [p], total)
  {
    forall i | 0 <= i < |ps + [p]|
      ensures (ps + [p])[..i] == if i < |ps| then ps[..i] else ps
    {
    }
  }

  lemma CatchingWrite(d: Disk, p: Petition, sector: nat, target: Data)
    requires p.sector != sector ==> Catching(d, sector, target)
    requires p.fd >= 0 && p.kind.Write?
    ensures Catching(d.(queue := d.queue + [p]), sector, if p.sector == sector then p.data else target)
  {
    var d' := d.(queue := d.queue + [p]);
    SettleConcat(Settle(Lookup(d.content, sector), d.wire, sector, true), d.queue, [p], sector, false);
    if p.sector == sector {
      assert Lands(d'.queue[|d.queue|], sector, false);
    } else if i :| 0 <= i < |d.queue| && Lands(d.queue[i], sector, false) {
      assert Lands(d'.queue[i], sector, false);
    }
  }

  lemma CatchingSyncWrite(d: Disk, p: Petition, sector: nat, target: Data)
    requires Catching(d, sector, target) && p.fd == -1
    requires p.sector == sector && !Tainted(d, sector) ==> p.data == target
    ensures Catching(d.(queue := d.queue + [p]), sector, target)
  {
    var d' := d.(queue := d.queue + [p]);
    SettleConcat(Settle(Lookup(d.content, sector), d.wire, sector, true), d.queue, [p], sector, false);
    if i :| 0 <= i < |d.queue| && Lands(d.queue[i], sector, false) {
      assert Lands(d'.queue[i], sector, false);
    }
  }

  // ---- something is sent

  lemma SendEventual(d: Disk, sector: nat)
    requires d.queue != [] && d.state.Ok?
    ensures Ahead(SendOne(d)) == Ahead(d) && SendOne(d).content == d.content && SendOne(d).state.Ok?
  {
  }

  lemma SendTaint(d: Disk, sector: nat)
    requires d.queue != [] && d.state.Sync? && d.queue[0].fd >= -1
    ensures Tainted(SendOne(d), sector) == Tainted(d, sector)
  {
    var e := SendOne(d);
    if i :| 0 <= i < |d.queue| && Lands(d.queue[i], sector, false) {
      if i > 0 { assert Lands(e.queue[i - 1], sector, false); }
    }
  }

  lemma SendCatching(d: Disk, sector: nat, target: Data)
    requires d.queue != [] && d.state.Sync? && d.queue[0].fd >= -1
    requires Catching(d, sector, target)
    ensures Catching(SendOne(d), sector, target)
  {
    var p := d.queue[0];
    var e := SendOne(d);
    SendTaint(d, sector);
    assert forall i :: 0 <= i < |e.queue| ==> e.queue[i] == d.queue[i + 1];
    if IsSyncWrite(p, sector) && e.sent != d.sent {
      SendSyncWrite(d, target);
    } else {
      SendClientEventual(d, sector);
      if SyncSent(e, sector) {
        var i :| 0 <= i < |e.sent| && IsSyncWrite(e.sent[i], sector);
        assert IsSyncWrite(d.sent[i], sector);
      }
    }
  }

  lemma SendSyncWrite(d: Disk, target: Data)
    requires d.queue != [] && d.state.Sync? && SendOne(d).sent != d.sent
    requires IsSyncWrite(d.queue[0], d.queue[0].sector) && Catching(d, d.queue[0].sector, target)
    ensures EventualOfClients(SendOne(d), d.queue[0].sector) == target
  {
    var p := d.queue[0];
    var rest := d.queue[1..];
    SentIsUntainted(d);
    SettleConcat(Lookup(d.content, p.sector), d.wire, [p], p.sector, true);
    assert forall i :: 0 <= i < |rest| ==> rest[i] == d.queue[i + 1];
    SettleUntouched(p.data, rest, p.sector, false);
  }

  lemma SendClientEventual(d: Disk, sector: nat)
    requires d.queue != [] && d.state.Sync? && d.queue[0].fd >= -1
    requires !(IsSyncWrite(d.queue[0], sector) && SendOne(d).sent != d.sent)
    ensures EventualOfClients(SendOne(d), sector) == EventualOfClients(d, sector)
  {
    SettleConcat(Lookup(d.content, sector), d.wire, [d.queue[0]], sector, true);
  }

  /** A sync write is sent only to a sector no client write was sent or queued for. */
  lemma SentIsUntainted(d: Disk)
    requires d.queue != [] && d.state.Sync? && d.queue[0].kind.Write? && d.queue[0].fd == -1
    requires SendOne(d).sent != d.sent
    ensures !Tainted(d, d.queue[0].sector)
  {
    var p := d.queue[0];
    assert p.sector !in d.historic;
    if i :| 0 <= i < |d.queue| && Lands(d.queue[i], p.sector, false) {
      assert Hits(d.queue[1..][i - 1], p.sector, Write);
    }
  }

  // ---- something is served

  lemma ServeBase(d: Disk, i: nat, sector: nat)
    requires MayServe(d.wire, i)
    ensures Lookup(ServeOne(d, i).content, sector) ==
            if Lands(d.wire[i], sector, true) then d.wire[i].data else Lookup(d.content, sector)
  {
  }

  lemma ServeMirrored(d: Disk, i: nat, sector: nat, target: Data)
    requires MayServe(d.wire, i) && Mirrored(d, sector, target)
    ensures Mirrored(ServeOne(d, i), sector, target)
  {
    var e := ServeOne(d, i);
    var base := Lookup(d.content, sector);
    ServeBase(d, i, sector);
    SettleServe(base, d.wire, i, sector);
    SettleConcat(base, d.wire, d.queue, sector, true);
    SettleConcat(Lookup(e.content, sector), e.wire, d.queue, sector, true);
  }

  /** What comes before place `j` once place `i` is gone. */
  lemma BeforeServed(ps: seq<Petition>, i: nat, j: nat)
    requires i < |ps| && j < |ps| - 1
    ensures Without(ps, i)[..j] == if j < i then ps[..j] else Without(ps[..j + 1], i)
    ensures Without(ps, i)[j] == ps[if j < i then j else j + 1]
  {
  }

  lemma ServeReads(d: Disk, i: nat, total: nat)
    requires MayServe(d.wire, i) && ReadsRight(d.content, Ahead(d), total)
    ensures ReadsRight(ServeOne(d, i).content, Ahead(ServeOne(d, i)), total)
  {
    var e := ServeOne(d, i);
    var ps := Ahead(d);
    var qs := Ahead(e);
    assert qs == Without(ps, i);
    forall j | 0 <= j < |qs| && qs[j].kind.Read? && qs[j].sector < total
      ensures Settle(Lookup(e.content, qs[j].sector), qs[..j], qs[j].sector, true) == qs[j].wanted
    {
      var sector := qs[j].sector;
      ServeBase(d, i, sector);
      BeforeServed(ps, i, j);
      if j < i {
        assert d.wire[j] == qs[j];
      } else {
        var before := ps[..j + 1];
        assert forall k :: 0 <= k <= i ==> before[k] == d.wire[k];
        SettleServe(Lookup(d.content, sector), before, i, sector);
      }
    }
  }

  lemma ServedReadIsRight(d: Disk, i: nat, total: nat)
    requires MayServe(d.wire, i) && ReadsRight(d.content, Ahead(d), total)
    requires d.wire[i].kind.Read? && d.wire[i].sector < total
    ensures Lookup(d.content, d.wire[i].sector) == d.wire[i].wanted
  {
    var sector := d.wire[i].sector;
    assert Ahead(d)[..i] == d.wire[..i] && Ahead(d)[i] == d.wire[i];
    SettleUntouched(Lookup(d.content, sector), d.wire[..i], sector, true);
  }

  // ---- something is received

  lemma SettledCatching(d: Disk, total: nat, sector: nat, target: Data)
    requires d.resp != [] && Answers(d) && d.state.Sync? && Catching(d, sector, target)
    requires Matched(d).kind.Write?
    ensures Catching(Settled(d, total).(state := Sync, historic := d.historic), sector, target)
  {
    var e := Settled(d, total);
    var m := FirstMatch(d.sent, d.resp[0].sector, d.resp[0].kind);
    if SyncSent(e, sector) {
      var i :| 0 <= i < |e.sent| && IsSyncWrite(e.sent[i], sector);
      assert e.sent[i] == d.sent[if i < m then i else i + 1];
    } else if sector in e.completed && sector !in d.completed {
      assert Matched(d) == d.sent[m] && Matched(d).sector == sector;
      assert d.resp[0].kind.Write? ==> IsSyncWrite(d.sent[m], sector);
    }
  }

  /** The disk that has just finished: every sector was written, so every sector is right. */
  lemma PromotedMirrored(d: Disk, total: nat, sector: nat, target: Data)
    requires d.resp != [] && Answers(d) && Promotes(d, total) && Catching(d, sector, target)
    requires Matched(d).kind.Write?
    requires sector in Settled(d, total).completed
    requires forall i :: 0 <= i < |d.queue| ==> d.queue[i].fd >= 0
    ensures Eventual(Settled(d, total), sector) == target
  {
    SettledCatching(d, total, sector, target);
    var base := Lookup(d.content, sector);
    SettleConcat(base, d.wire, d.queue, sector, true);
    SettleSameWrites(Settle(base, d.wire, sector, true), d.queue, sector);
  }
}
