/** How far a disk being synchronised is with one sector: done, taken over by a client write, or
    with such a write still to come. */
module MirrorMarks {
  import opened Options
  import opened Petitions
  import opened Mirror
  import opened MirrorShape
  import opened MirrorAccounts
  import opened MirrorContents
  import opened MirrorInvariant

  /** The sync write of the sector was sent, whether or not its response has come. */
  predicate Synced(d: Disk, sector: nat) {
    sector in d.completed || SyncSent(d, sector)
  }

  /** A client write to the sector waits and will be copied to disk `k`. */
  predicate Awaits(s: State, k: nat, sector: nat) {
    || WrittenByClient(s.general, sector) || WrittenByClient(s.orphans, sector)
    || (s.round.Some? && k < |s.ring| - s.round.value.position && Lands(s.round.value.p, sector, false))
  }

  /** Where disk `i` was in the ring before the step; a disk that joins was nowhere. */
  function Before(s: State, step: Step, i: nat): nat
    requires Enabled(s, step)
  {
    if step.Copy? then (if i < |s.ring| - 1 then i + 1 else 0)
    else if step.Dispatch? && s.general[0].kind.Read? then
      (if i == |s.ring| - 1 then FirstOk(s.ring) else if i < FirstOk(s.ring) then i else i + 1)
    else if step.Die? && SomeOk(Without(s.ring, step.k)) && i >= step.k then i + 1
    else i
  }

  lemma IdRead(s: State, i: nat)
    requires Enabled(s, Dispatch) && s.general[0].kind.Read? && i < |s.ring|
    ensures |DispatchRead(s).ring| == |s.ring| && Before(s, Dispatch, i) < |s.ring|
    ensures DispatchRead(s).ring[i].id == s.ring[Before(s, Dispatch, i)].id
  {
    FirstOkExists(s.ring);
  }

  lemma IdDie(s: State, k: nat, i: nat)
    requires Enabled(s, Die(k)) && i < |Apply(s, Die(k)).ring|
    ensures Before(s, Die(k), i) < |s.ring|
    ensures Apply(s, Die(k)).ring[i].id == s.ring[Before(s, Die(k), i)].id
  {
  }

  lemma DisksGrow(s: State, step: Step)
    requires Enabled(s, step)
    ensures s.nextDisk <= Apply(s, step).nextDisk
  {
  }

  lemma SameId(s: State, step: Step, i: nat)
    requires Enabled(s, step) && i < |Apply(s, step).ring|
    ensures var j := Before(s, step, i);
            Apply(s, step).ring[i].id == if j < |s.ring| then s.ring[j].id else s.nextDisk
  {
    match step
    case Receive(k) => ReceiveBooks(s, k, i);
    case Dispatch => if s.general[0].kind.Read? { IdRead(s, i); }
    case Die(k) => IdDie(s, k, i);
    case _ =>
  }

  /** A disk that was nowhere in the ring has joined. */
  lemma OnlyJoinAdds(s: State, step: Step, i: nat)
    requires Enabled(s, step) && i < |Apply(s, step).ring| && Before(s, step, i) >= |s.ring|
    ensures step.Join? && Apply(s, step).ring[i] == NewDisk(s.nextDisk, if s.ring == [] then Ok else Sync, step.content)
  {
    match step
    case Dispatch => if s.general[0].kind.Read? { IdRead(s, i); }
    case Receive(k) => ReceiveBooks(s, k, i);
    case Die(k) => IdDie(s, k, i);
    case _ =>
  }

  /** From disk `d` to disk `e`: a mark stays, and none is set unless it may be. */
  predicate Advances(d: Disk, e: Disk, sector: nat, awaited: bool) {
    && (Synced(d, sector) ==> Synced(e, sector))
    && (Tainted(d, sector) ==> Tainted(e, sector))
    && (Synced(e, sector) && !Synced(d, sector) ==> !Tainted(d, sector))
    && (Tainted(e, sector) && !Tainted(d, sector) ==> awaited)
  }

  lemma PushAdvances(d: Disk, p: Petition, sector: nat, awaited: bool)
    requires Lands(p, sector, false) ==> awaited
    ensures Advances(d, d.(queue := d.queue + [p]), sector, awaited)
    ensures Lands(p, sector, false) ==> Tainted(d.(queue := d.queue + [p]), sector)
  {
    WrittenConcat(d.queue, [p], sector);
    if Lands(p, sector, false) { assert Lands([p][0], sector, false); }
  }

  lemma SendAdvances(d: Disk, sector: nat)
    requires d.queue != [] && d.state.Sync? && d.queue[0].fd >= -1
    ensures Advances(d, SendOne(d), sector, false)
  {
    var e := SendOne(d);
    SendTaint(d, sector);
    if i :| 0 <= i < |d.sent| && IsSyncWrite(d.sent[i], sector) {
      assert IsSyncWrite(e.sent[i], sector);
    }
    if SyncSent(e, sector) && !SyncSent(d, sector) {
      var i :| 0 <= i < |e.sent| && IsSyncWrite(e.sent[i], sector);
      assert i == |d.sent| && e.sent != d.sent;
      SentIsUntainted(d);
    }
  }

  /** Receiving sets no new mark; and the last sector to be done was sent. */
  lemma SettledAdvances(d: Disk, total: nat, sector: nat)
    requires d.resp != [] && Answers(d) && d.state.Sync? && Belongs(Matched(d), d)
    ensures var e := Settled(d, total);
            && Synced(e, sector) == Synced(d, sector)
            && (e.state.Sync? ==> Tainted(e, sector) == Tainted(d, sector))
  {
    var e := Settled(d, total);
    var m := FirstMatch(d.sent, d.resp[0].sector, d.resp[0].kind);
    if i :| 0 <= i < |e.sent| && IsSyncWrite(e.sent[i], sector) {
      assert IsSyncWrite(d.sent[if i < m then i else i + 1], sector);
    }
    if i :| 0 <= i < |d.sent| && IsSyncWrite(d.sent[i], sector) && i != m {
      assert e.sent[if i < m then i else i - 1] == d.sent[i];
    }
    assert d.sent[m].fd == -1 ==> IsSyncWrite(d.sent[m], d.sent[m].sector);
  }

  // ---- the steps

  /** What a step makes of disk `i` when it leaves it as `e`. */
  predicate Stage(s: State, i: nat, e: Disk, sector: nat)
    requires i < |s.ring|
  {
    && e.id == s.ring[i].id
    && (e.state.Sync? ==> Advances(s.ring[i], e, sector, Awaits(s, i, sector)))
    && (e.state.Ok? ==> Synced(s.ring[i], sector))
  }

  lemma ReceiverMarks(s: State, k: nat, sector: nat)
    requires Inv(s) && Enabled(s, Receive(k)) && s.ring[k].state.Sync? && sector < s.total
    ensures Stage(s, k, Settled(s.ring[k], s.total), sector)
  {
    var d := s.ring[k];
    assert DiskShape(d, s.total);
    assert Belongs(Matched(d), d);
    SettledAdvances(d, s.total, sector);
    if Promotes(d, s.total) {
      InvReceive(s, k);
      PromotionComplete(s, k);
    }
  }

  /** Another disk than the one that receives may have a sync write pushed. */
  lemma ReceiveMarks(s: State, k: nat, i: nat, sector: nat)
    requires Inv(s) && Enabled(s, Receive(k)) && i < |s.ring| && s.ring[i].state.Sync? && sector < s.total
    ensures |Apply(s, Receive(k)).ring| == |s.ring| && Stage(s, i, Apply(s, Receive(k)).ring[i], sector)
  {
    ReceiveBooks(s, k, i);
    if i == k {
      ReceiverMarks(s, k, sector);
      ReceiverQueue(s, k);
    } else {
      assert DiskShape(s.ring[k], s.total) && Belongs(Matched(s.ring[k]), s.ring[k]);
      OtherMarks(s, k, i, sector);
    }
  }

  lemma OtherMarks(s: State, k: nat, i: nat, sector: nat)
    requires Enabled(s, Receive(k)) && i < |s.ring| && i != k && s.ring[i].state.Sync?
    requires Belongs(Matched(s.ring[k]), s.ring[k])
    ensures |Apply(s, Receive(k)).ring| == |s.ring| && Stage(s, i, Apply(s, Receive(k)).ring[i], sector)
  {
    var p := Matched(s.ring[k]);
    if p.toSync { PushAdvances(s.ring[i], SyncWriteFor(p, s.ring[k].resp[0].data), sector, false); }
  }

  /** A disk being synchronised received no read, so nothing is pushed. */
  lemma ReceiverQueue(s: State, k: nat)
    requires Inv(s) && Enabled(s, Receive(k)) && s.ring[k].state.Sync?
    ensures |Apply(s, Receive(k)).ring| == |s.ring|
    ensures Apply(s, Receive(k)).ring[k] == RingSettled(s, k)[k]
  {
    assert DiskShape(s.ring[k], s.total) && Belongs(Matched(s.ring[k]), s.ring[k]);
  }

  lemma CopyMarks(s: State, i: nat, sector: nat)
    requires Enabled(s, Copy) && i < |s.ring| && s.ring[Before(s, Copy, i)].state.Sync?
    ensures |CopyStep(s).ring| == |s.ring| && Stage(s, Before(s, Copy, i), CopyStep(s).ring[i], sector)
  {
    var r := s.round.value;
    if i == |s.ring| - 1 {
      PushAdvances(s.ring[0], r.p.(reply := r.position == 0), sector, Awaits(s, 0, sector));
    }
  }

  lemma ReadMarks(s: State, i: nat, sector: nat)
    requires Enabled(s, Dispatch) && s.general[0].kind.Read? && i < |s.ring|
    requires Before(s, Dispatch, i) < |s.ring| && s.ring[Before(s, Dispatch, i)].state.Sync?
    ensures |DispatchRead(s).ring| == |s.ring| && Stage(s, Before(s, Dispatch, i), DispatchRead(s).ring[i], sector)
  {
    FirstOkExists(s.ring);
  }

  predicate SamePetitions(d: Disk, e: Disk) {
    && e.id == d.id && e.state == d.state && e.queue == d.queue && e.sent == d.sent
    && e.historic == d.historic && e.completed == d.completed
  }

  lemma SameStage(s: State, j: nat, e: Disk, sector: nat)
    requires j < |s.ring| && s.ring[j].state.Sync? && SamePetitions(s.ring[j], e)
    ensures Stage(s, j, e, sector)
  {
  }

  lemma DieMarks(s: State, k: nat, i: nat, sector: nat)
    requires Enabled(s, Die(k)) && i < |Apply(s, Die(k)).ring|
    requires var j := Before(s, Die(k), i); j < |s.ring| && s.ring[j].state.Sync?
    ensures Stage(s, Before(s, Die(k), i), Apply(s, Die(k)).ring[i], sector)
  {
    SurvivorPetitions(s, k, i);
    SameStage(s, Before(s, Die(k), i), Apply(s, Die(k)).ring[i], sector);
  }

  lemma SurvivorPetitions(s: State, k: nat, i: nat)
    requires Enabled(s, Die(k)) && i < |Apply(s, Die(k)).ring| && Before(s, Die(k), i) < |s.ring|
    ensures SamePetitions(s.ring[Before(s, Die(k), i)], Apply(s, Die(k)).ring[i])
  {
  }

  /** Steps that leave every disk in its place, with the same petitions. */
  lemma StillMarks(s: State, step: Step, i: nat, sector: nat)
    requires Enabled(s, step) && i < |s.ring| && s.ring[i].state.Sync?
    requires step.Submit? || step.EndRound? || step.Requeue? || step.IssueSync? || step.Serve? || step.Join?
    ensures |s.ring| <= |Apply(s, step).ring| && Stage(s, i, Apply(s, step).ring[i], sector)
  {
    assert SamePetitions(s.ring[i], Apply(s, step).ring[i]);
    SameStage(s, i, Apply(s, step).ring[i], sector);
  }

  lemma SenderMarks(s: State, k: nat, i: nat, sector: nat)
    requires Inv(s) && Enabled(s, Send(k)) && i < |s.ring| && s.ring[i].state.Sync?
    ensures |Apply(s, Send(k)).ring| == |s.ring| && Stage(s, i, Apply(s, Send(k)).ring[i], sector)
  {
    if i == k {
      assert DiskShape(s.ring[k], s.total) && Belongs(s.ring[k].queue[0], s.ring[k]);
      SendAdvances(s.ring[k], sector);
    } else {
      SameStage(s, i, s.ring[i], sector);
    }
  }

  /** Any step at all. */
  lemma StepMarks(s: State, step: Step, i: nat, sector: nat)
    requires Inv(s) && Enabled(s, step) && i < |Apply(s, step).ring| && sector < s.total
    requires var j := Before(s, step, i); j < |s.ring| && s.ring[j].state.Sync?
    ensures Stage(s, Before(s, step, i), Apply(s, step).ring[i], sector)
  {
    match step
    case Dispatch =>
      if s.general[0].kind.Read? { ReadMarks(s, i, sector); } else { SameStage(s, i, s.ring[i], sector); }
    case Copy => CopyMarks(s, i, sector);
    case Send(k) => SenderMarks(s, k, i, sector);
    case Receive(k) => ReceiveMarks(s, k, i, sector);
    case Die(k) => DieMarks(s, k, i, sector);
    case _ => StillMarks(s, step, i, sector);
  }

  /** While no one submits and no disk joins or dies, no client write turns up anew. */
  predicate Settles(step: Step) {
    !step.Submit? && !step.Join? && !step.Die?
  }

  lemma SettlingAwaits(s: State, step: Step, i: nat, sector: nat)
    requires Inv(s) && Enabled(s, step) && Settles(step) && i < |s.ring|
    ensures |Apply(s, step).ring| == |s.ring| && Before(s, step, i) < |s.ring|
    ensures Awaits(Apply(s, step), i, sector) ==> Awaits(s, Before(s, step, i), sector)
  {
    match step
    case Dispatch => DispatchAwaits(s, i, sector);
    case Requeue(j) => RequeueAwaits(s, j, sector);
    case IssueSync(k) => IssueAwaits(s, k, sector);
    case Copy => CopyAwaits(s, i, sector);
    case EndRound =>
    case _ => ThreadsAwait(s, step, i, sector);
  }

  lemma CopyAwaits(s: State, i: nat, sector: nat)
    requires Enabled(s, Copy) && i < |s.ring|
    ensures |CopyStep(s).ring| == |s.ring| && Before(s, Copy, i) < |s.ring|
    ensures Awaits(CopyStep(s), i, sector) ==> Awaits(s, Before(s, Copy, i), sector)
  {
  }

  lemma ThreadsAwait(s: State, step: Step, i: nat, sector: nat)
    requires Enabled(s, step) && (step.Send? || step.Serve? || step.Receive?) && i < |s.ring|
    ensures |Apply(s, step).ring| == |s.ring| && Before(s, step, i) == i
    ensures Awaits(Apply(s, step), i, sector) == Awaits(s, i, sector)
  {
    if step.Receive? { ReceiveBooks(s, step.k, i); }
  }

  lemma DispatchAwaits(s: State, i: nat, sector: nat)
    requires Enabled(s, Dispatch) && i < |s.ring|
    ensures |Apply(s, Dispatch).ring| == |s.ring| && Before(s, Dispatch, i) < |s.ring|
    ensures Awaits(Apply(s, Dispatch), i, sector) == Awaits(s, Before(s, Dispatch, i), sector)
  {
    FirstOkExists(s.ring);
    WrittenFirst(s.general, sector);
  }

  lemma WrittenFirst(ps: seq<Petition>, sector: nat)
    requires ps != []
    ensures WrittenByClient(ps, sector) == (Lands(ps[0], sector, false) || WrittenByClient(ps[1..], sector))
  {
    assert ps == [ps[0]] + ps[1..];
    WrittenConcat([ps[0]], ps[1..], sector);
    assert WrittenByClient([ps[0]], sector) == Lands([ps[0]][0], sector, false);
  }

  lemma RequeueAwaits(s: State, j: nat, sector: nat)
    requires j < |s.orphans|
    ensures var s' := RequeueStep(s, j);
            (WrittenByClient(s'.general, sector) || WrittenByClient(s'.orphans, sector)) ==
            (WrittenByClient(s.general, sector) || WrittenByClient(s.orphans, sector))
  {
    var ps := s.orphans;
    WrittenConcat([ps[j]], s.general, sector);
    WrittenConcat(ps[..j], ps[j + 1..], sector);
    WrittenConcat(ps[..j], ps[j..], sector);
    WrittenFirst(ps[j..], sector);
    assert ps == ps[..j] + ps[j..] && ps[j..][1..] == ps[j + 1..];
    assert WrittenByClient([ps[j]], sector) == Lands([ps[j]][0], sector, false);
  }

  lemma IssueAwaits(s: State, k: nat, sector: nat)
    requires Enabled(s, IssueSync(k))
    ensures WrittenByClient(IssueStep(s, k).general, sector) == WrittenByClient(s.general, sector)
  {
    WrittenConcat(s.general, [IssueStep(s, k).general[|s.general|]], sector);
  }
}
