/** Who may hold which petition, and why a response always finds the petition it answers. */
module MirrorShape {
  import opened Petitions
  import opened Mirror

  predicate MayWait(p: Petition) {
    p.fd >= -1 && (if p.fd == -1 then p.kind.Read? && p.toSync else !p.toSync)
  }

  /** A petition in the hands of a disk: only an up-to-date disk reads, only a disk being
      synchronised takes sync writes, and only its own. */
  predicate Belongs(p: Petition, d: Disk) {
    && p.fd >= -1
    && (p.kind.Read? ==> d.state.Ok?)
    && (p.fd >= 0 ==> !p.toSync)
    && (p.fd == -1 && p.kind.Read? ==> p.toSync && p.reply)
    && (p.fd == -1 && p.kind.Write? ==> !p.toSync && !p.reply && d.state.Sync? && p.owner == d.id)
  }

  function Origins(resp: seq<Response>): (r: seq<Petition>)
    ensures |r| == |resp|
  {
    seq(|resp|, i requires 0 <= i < |resp| => resp[i].origin)
  }

  /** What is between a disk thread and its disk, the next to be received first. */
  function Flow(d: Disk): seq<Petition> {
    Origins(d.resp) + d.wire
  }

  /** For every sector and type, the petitions waiting for a response are, in order, those
      whose responses will come. */
  ghost predicate FlowOk(d: Disk) {
    forall sector: nat, kind: Kind :: Select(d.sent, sector, kind) == Select(Flow(d), sector, kind)
  }

  predicate Truthful(r: Response, total: nat) {
    && r.kind == r.origin.kind && r.sector == r.origin.sector
    && (if r.kind.Write? then r.data == [] else r.sector < total ==> r.data == r.origin.wanted)
  }

  ghost predicate DiskShape(d: Disk, total: nat) {
    && (forall p :: p in d.queue ==> Belongs(p, d))
    && (forall p :: p in d.sent ==> Belongs(p, d))
    && FlowOk(d)
    && (forall r :: r in d.resp ==> Truthful(r, total))
  }

  /** Every petition on the wire or answered is still in the sent list. */
  lemma FlowInSent(d: Disk, p: Petition)
    requires FlowOk(d)
    ensures p in Flow(d) <==> p in d.sent
  {
    SelectMember(d.sent, p);
    SelectMember(Flow(d), p);
  }

  /** Response matching is exact: the first sent petition with the sector and type of the next
      response exists and is the one the response was made for. */
  lemma MatchIsExact(d: Disk, total: nat)
    requires DiskShape(d, total) && d.resp != []
    ensures Answers(d) && Matched(d) == d.resp[0].origin
  {
    var r := d.resp[0];
    var p := r.origin;
    assert Truthful(r, total);
    assert Flow(d)[0] == p;
    FlowInSent(d, p);
    var i :| 0 <= i < |d.sent| && d.sent[i] == p;
    assert Hits(d.sent[i], r.sector, r.kind);
    SelectWithoutFirst(d.sent, r.sector, r.kind, r.sector, r.kind);
    assert Select(Flow(d), r.sector, r.kind)[0] == p;
  }

  lemma SendFlow(d: Disk)
    requires FlowOk(d) && d.queue != []
    ensures FlowOk(SendOne(d))
  {
    var p := d.queue[0];
    var e := SendOne(d);
    if e.sent != d.sent {
      assert Flow(e) == Flow(d) + [p];
      forall sector: nat, kind: Kind
        ensures Select(e.sent, sector, kind) == Select(Flow(e), sector, kind)
      {
        SelectConcat(d.sent, [p], sector, kind);
        SelectConcat(Flow(d), [p], sector, kind);
      }
    }
  }

  lemma SendShape(d: Disk, total: nat)
    requires DiskShape(d, total) && d.queue != []
    ensures DiskShape(SendOne(d), total)
  {
    var e := SendOne(d);
    SendFlow(d);
    forall q | q in e.queue || q in e.sent
      ensures Belongs(q, e)
    {
      assert q in d.queue || q in d.sent;
      assert Belongs(q, d);
    }
  }

  lemma ServeFlow(d: Disk, i: nat)
    requires FlowOk(d) && MayServe(d.wire, i)
    ensures FlowOk(ServeOne(d, i))
  {
    var p := d.wire[i];
    var e := ServeOne(d, i);
    assert Origins(e.resp) == Origins(d.resp) + [p];
    forall sector: nat, kind: Kind
      ensures Select(e.sent, sector, kind) == Select(Flow(e), sector, kind)
    {
      SelectExtract(d.wire, i, sector, kind);
      SelectConcat([p], e.wire, sector, kind);
      SelectConcat(Origins(d.resp), d.wire, sector, kind);
      SelectConcat(Origins(d.resp), [p] + e.wire, sector, kind);
      assert Flow(e) == Origins(d.resp) + ([p] + e.wire);
    }
  }

  lemma ReceiveFlow(d: Disk, total: nat)
    requires DiskShape(d, total) && d.resp != [] && Answers(d)
    ensures FlowOk(Settled(d, total))
  {
    var r := d.resp[0];
    var e := Settled(d, total);
    MatchIsExact(d, total);
    assert Flow(d) == [r.origin] + Flow(e);
    forall sector: nat, kind: Kind
      ensures Select(e.sent, sector, kind) == Select(Flow(e), sector, kind)
    {
      SelectWithoutFirst(d.sent, r.sector, r.kind, sector, kind);
      SelectConcat([r.origin], Flow(e), sector, kind);
      var head := if Hits(r.origin, sector, kind) then [r.origin] else [];
      assert Select([r.origin], sector, kind) == head;
      assert (head + Select(e.sent, sector, kind))[|head|..] == Select(e.sent, sector, kind);
    }
  }
}
