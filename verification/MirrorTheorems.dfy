/** What the RAID guarantees in every run: `total` sectors, any sequence of steps. */
module MirrorTheorems {
  import opened Petitions
  import opened Mirror
  import opened MirrorShape
  import opened MirrorAccounts
  import opened MirrorContents
  import opened MirrorHistory
  import opened MirrorInvariant

  /** Both disks have been told the same of the sector: neither was left out by the last round to
      write it, and a round that goes on has given both their copy, or neither. */
  predicate Comparable(s: State, i: nat, j: nat, sector: nat) {
    && sector !in Unsure(s, i) && sector !in Unsure(s, j)
    && (s.round.Some? && s.round.value.p.sector == sector ==> (i < Waiting(s) <==> j < Waiting(s)))
  }

  lemma Agree(s: State, i: nat, j: nat, sector: nat)
    requires Inv(s) && sector < s.total && Comparable(s, i, j, sector)
    requires i < |s.ring| && j < |s.ring| && s.ring[i].state.Ok? && s.ring[j].state.Ok?
    ensures Eventual(s.ring[i], sector) == Eventual(s.ring[j], sector)
  {
    assert Mirrored(s.ring[i], sector, Lookup(Told(s, i), sector));
    assert Mirrored(s.ring[j], sector, Lookup(Told(s, j), sector));
  }

  /** Any two up-to-date disks will agree in every such sector once each has done what was sent
      or queued to it. */
  lemma MirrorsAgree(total: nat, steps: seq<Step>, i: nat, j: nat, sector: nat)
    requires var s := After(total, steps);
             && i < |s.ring| && j < |s.ring| && s.ring[i].state.Ok? && s.ring[j].state.Ok?
             && sector < total && Comparable(s, i, j, sector)
    ensures var ring := After(total, steps).ring; Eventual(ring[i], sector) == Eventual(ring[j], sector)
  {
    InvAlways(total, steps);
    Agree(After(total, steps), i, j, sector);
  }

  /** In particular at the moment a disk turns from SYNC to OK. */
  lemma PromotedDiskMirrors(total: nat, steps: seq<Step>, k: nat, j: nat, sector: nat)
    requires var s := After(total, steps);
             && Enabled(s, Receive(k)) && Promotes(s.ring[k], total) && j < |s.ring| && s.ring[j].state.Ok?
             && sector < total && Comparable(s, k, j, sector)
    ensures var ring := Apply(After(total, steps), Receive(k)).ring;
            j < |ring| == |After(total, steps).ring| && ring[k].state.Ok? && ring[j].state.Ok?
            && Eventual(ring[k], sector) == Eventual(ring[j], sector)
  {
    var s := After(total, steps);
    InvAlways(total, steps);
    InvReceive(s, k);
    PromotionCompares(s, k, j, sector);
    Agree(Apply(s, Receive(k)), k, j, sector);
  }

  lemma PromotionCompares(s: State, k: nat, j: nat, sector: nat)
    requires Enabled(s, Receive(k)) && Promotes(s.ring[k], s.total) && j < |s.ring| && s.ring[j].state.Ok?
    requires Comparable(s, k, j, sector)
    ensures var s' := Apply(s, Receive(k));
            && |s'.ring| == |s.ring| && s'.ring[k].state.Ok? && s'.ring[j].state.Ok?
            && s'.total == s.total && Comparable(s', k, j, sector)
  {
    ReceiveBooks(s, k, k);
    ReceiveBooks(s, k, j);
  }

  /** Every client petition is answered once, or is still to be answered, exactly once: waiting
      to be dispatched, or as the one REPLY copy in the hands of the disks. */
  lemma ExactlyOneReply(total: nat, steps: seq<Step>, id: nat)
    ensures var s := After(total, steps);
            Owed(s, ClientKey(id)) + RepliesTo(s.replied, id) == One(id < |s.submitted|)
  {
    InvAlways(total, steps);
  }

  /** The response at the head of a channel always has a petition to answer, and the first one
      with its sector and type is the one it was made for. */
  lemma ResponsesMatch(total: nat, steps: seq<Step>, k: nat)
    requires var ring := After(total, steps).ring; k < |ring| && ring[k].resp != []
    ensures var d := After(total, steps).ring[k]; Answers(d) && Matched(d) == d.resp[0].origin
  {
    InvAlways(total, steps);
    MatchIsExact(After(total, steps).ring[k], total);
  }

  /** A read dispatched is to return what the clients have last written to its sector. */
  lemma ReadsWantLogical(total: nat, steps: seq<Step>)
    requires var s := After(total, steps);
             && Enabled(s, Dispatch) && s.general[0].kind.Read?
             && s.general[0].sector < total && s.general[0].sector !in s.stale
    ensures var s := After(total, steps);
            FirstOk(s.ring) < |s.ring| &&
            ReadFor(s.general[0], s.ring[FirstOk(s.ring)]).wanted == Lookup(s.logical, s.general[0].sector)
  {
    InvAlways(total, steps);
    var s := After(total, steps);
    FirstOkExists(s.ring);
    assert Mirrored(s.ring[FirstOk(s.ring)], s.general[0].sector, Lookup(s.logical, s.general[0].sector));
  }

  /** And this is what the response says. */
  lemma ReadsReturnWanted(total: nat, steps: seq<Step>, k: nat)
    requires var ring := After(total, steps).ring;
             k < |ring| && ring[k].resp != [] && ring[k].resp[0].kind.Read? && ring[k].resp[0].sector < total
    ensures var d := After(total, steps).ring[k];
            Answers(d) && Matched(d).kind.Read? && d.resp[0].data == Matched(d).wanted
  {
    InvAlways(total, steps);
    var d := After(total, steps).ring[k];
    ResponsesMatch(total, steps, k);
    assert Truthful(d.resp[0], total);
  }

  /** Semaphore, sync petitions under way and sectors given up make 32; sectors done, under
      way and given up make those issued; each sector issued is in exactly one of the three
      conditions.  The next one is asked for while fewer than 32 are under way or given up. */
  lemma SyncAccounts(total: nat, steps: seq<Step>, k: nat, sector: nat)
    requires k < |After(total, steps).ring|
    ensures var s := After(total, steps);
            var d := s.ring[k];
            && d.semaf + Owed(s, OwnerKey(d.id)) + |d.skipped| == 32
            && (Enabled(s, IssueSync(k)) <==> s.running && d.state.Sync? && d.issued < total &&
                                              Owed(s, OwnerKey(d.id)) + |d.skipped| < 32)
            && d.nSync + Owed(s, OwnerKey(d.id)) + |d.skipped| == d.issued <= total
            && Owed(s, SectorKey(d.id, sector)) + One(sector in d.completed) + One(sector in d.skipped)
               == One(sector < d.issued)
  {
    InvAlways(total, steps);
    var s := After(total, steps);
    assert TotalLaw(s, s.ring[k]) && SectorLaw(s, s.ring[k], sector);
  }

  /** A disk that gave up a sector is still not up to date, and cannot become so. */
  lemma SkippedNeverPromoted(total: nat, steps: seq<Step>, k: nat)
    requires k < |After(total, steps).ring| && After(total, steps).ring[k].skipped != {}
    ensures var s := After(total, steps);
            s.ring[k].state.Sync? && (Enabled(s, Receive(k)) ==> !Promotes(s.ring[k], total))
  {
    InvAlways(total, steps);
    var s := After(total, steps);
    assert TotalLaw(s, s.ring[k]);
    if Enabled(s, Receive(k)) {
      InvReceive(s, k);
      ReceiveBooks(s, k, k);
      assert TotalLaw(Apply(s, Receive(k)), Apply(s, Receive(k)).ring[k]);
    }
  }

  /** Among the petitions sent to a disk being synchronised, no sync write comes after a client
      write to its sector. */
  lemma NoSyncWriteAfterClientWrite(total: nat, steps: seq<Step>, k: nat, i: nat, j: nat)
    requires var ring := After(total, steps).ring;
             k < |ring| && ring[k].state.Sync? && i < j < |ring[k].log|
    ensures var log := After(total, steps).ring[k].log;
            !(Lands(log[i], log[i].sector, false) && IsSyncWrite(log[j], log[i].sector))
  {
    InvAlways(total, steps);
    assert LogOk(After(total, steps).ring[k]);
  }

  /** Once a disk has joined, a running RAID has an up-to-date one. */
  lemma AlwaysAnOkDisk(total: nat, steps: seq<Step>)
    requires var s := After(total, steps); s.running && s.ring != []
    ensures SomeOk(After(total, steps).ring)
  {
    InvAlways(total, steps);
  }

  /** Between changes of the ring, the reads given to any two up-to-date disks differ by at most
      one. */
  lemma ReadsBalanced(total: nat, steps: seq<Step>, i: nat, j: nat)
    requires var ring := After(total, steps).ring;
             i < |ring| && j < |ring| && ring[i].state.Ok? && ring[j].state.Ok?
    ensures var ring := After(total, steps).ring;
            && ring[i].readCount <= ring[j].readCount + 1
            && ReadsGiven(Init(total), steps, ring[i].id, 0) <= ReadsGiven(Init(total), steps, ring[j].id, 0) + 1
  {
    InvAlways(total, steps);
    ReadsExactly(total, steps, i);
    ReadsExactly(total, steps, j);
    var s := After(total, steps);
    assert Turn(s, i) < Turn(s, j) || Turn(s, j) < Turn(s, i) || i == j;
  }

  /** A disk that is up to date remembers no client writes. */
  lemma OkDiskForgets(total: nat, steps: seq<Step>, k: nat)
    requires k < |After(total, steps).ring| && After(total, steps).ring[k].state.Ok?
    ensures After(total, steps).ring[k].historic == {} && After(total, steps).ring[k].skipped == {}
  {
    InvAlways(total, steps);
    var s := After(total, steps);
    assert LogOk(s.ring[k]) && TotalLaw(s, s.ring[k]);
  }

  predicate Idle(d: Disk) {
    d.queue == [] && d.wire == [] && d.resp == []
  }

  predicate AtRest(s: State) {
    s.general == [] && s.orphans == [] && s.round.None? && forall k :: 0 <= k < |s.ring| ==> Idle(s.ring[k])
  }

  lemma {:induction false} IdleHoldsNothing(ring: seq<Disk>, key: Key)
    requires forall k :: 0 <= k < |ring| ==> Idle(ring[k]) && FlowOk(ring[k])
    ensures RingHeld(ring, key) == 0
  {
    if ring != [] {
      if ring[0].sent != [] { FlowInSent(ring[0], ring[0].sent[0]); }
      IdleHoldsNothing(ring[1..], key);
    }
  }

  /** Every client petition has had exactly one reply. */
  ghost predicate AllAnswered(s: State) {
    forall id: nat :: RepliesTo(s.replied, id) == One(id < |s.submitted|)
  }

  lemma RestAnswersAll(s: State)
    requires Inv(s) && AtRest(s)
    ensures AllAnswered(s)
  {
    forall id: nat
      ensures RepliesTo(s.replied, id) == One(id < |s.submitted|)
    {
      assert forall k :: 0 <= k < |s.ring| ==> DiskShape(s.ring[k], s.total);
      IdleHoldsNothing(s.ring, ClientKey(id));
      assert Owed(s, ClientKey(id)) == 0;
    }
  }

  /** When all is quiet, every client petition has had exactly one reply and the up-to-date
      disks hold the same data in every sector whose last round left no disk out. */
  lemma QuietMeansDone(total: nat, steps: seq<Step>, i: nat, j: nat, sector: nat)
    requires AtRest(After(total, steps))
    ensures var s := After(total, steps);
            && AllAnswered(s)
            && (i < |s.ring| && j < |s.ring| && s.ring[i].state.Ok? && s.ring[j].state.Ok?
                && sector < total && sector !in s.stale
                ==> Lookup(s.ring[i].content, sector) == Lookup(s.ring[j].content, sector))
  {
    InvAlways(total, steps);
    var s := After(total, steps);
    RestAnswersAll(s);
    if i < |s.ring| && j < |s.ring| && s.ring[i].state.Ok? && s.ring[j].state.Ok? &&
       sector < total && sector !in s.stale {
      Agree(s, i, j, sector);
    }
  }
}
