/** When a disk being synchronised catches up: exactly when every sector it has not yet been sent
    is safe from client writes. */
module MirrorCatchUp {
  import opened Petitions
  import opened Mirror
  import opened MirrorShape
  import opened MirrorAccounts
  import opened MirrorContents
  import opened MirrorHistory
  import opened MirrorInvariant
  import opened MirrorTheorems
  import opened MirrorProgress
  import opened MirrorMarks

  // ---- what makes a disk give up a sector

  /** The sync write at the head of a queue is given up exactly when a client write to its sector
      was sent to the disk before or is queued behind it; or when nothing is queued behind it,
      and the last sync write that had something behind it had a write to its sector there.
      This one was given up too. */
  lemma SkipsExactly(total: nat, steps: seq<Step>, k: nat)
    requires var ring := After(total, steps).ring;
             k < |ring| && ring[k].state.Sync? && ring[k].queue != [] && ring[k].queue[0].fd == -1
    ensures var d := After(total, steps).ring[k];
            var sector := d.queue[0].sector;
            var foundLast := FoundLast(Init(total), steps, d.id, false);
            && (Skips(d) <==> WrittenByClient(d.log, sector) || WrittenByClient(d.queue, sector)
                              || (|d.queue| == 1 && foundLast))
            && (foundLast ==> d.skipped != {})
  {
    InvAlways(total, steps);
    FlagExactly(total, steps, k);
    var s := After(total, steps);
    assert DiskShape(s.ring[k], total) && LogOk(s.ring[k]) && Belongs(s.ring[k].queue[0], s.ring[k]);
    OneSyncWrite(s, k);
    SkipGuard(s.ring[k]);
  }

  lemma SkipGuard(d: Disk)
    requires d.state.Sync? && d.queue != [] && d.queue[0].fd == -1 && d.queue[0].kind.Write?
    requires NoOther(d) && forall p :: p in d.queue ==> p.fd >= -1
    ensures Skips(d) <==> Tainted(d, d.queue[0].sector) || (|d.queue| == 1 && d.auxFound)
  {
    var sector := d.queue[0].sector;
    assert |d.sent + [d.queue[0]]| != |d.sent|;
    WrittenFirst(d.queue, sector);
    if i :| 0 <= i < |d.queue[1..]| && Hits(d.queue[1..][i], sector, Write) {
      assert d.queue[1..][i] == d.queue[i + 1];
      assert Lands(d.queue[1..][i], sector, false);
    }
    if i :| 0 <= i < |d.queue[1..]| && Lands(d.queue[1..][i], sector, false) {
      assert Hits(d.queue[1..][i], sector, Write);
    }
  }

  // ---- sectors that are safe, and sectors that are lost

  predicate SafeSector(s: State, k: nat, sector: nat)
    requires k < |s.ring|
  {
    Synced(s.ring[k], sector) || !(Tainted(s.ring[k], sector) || Awaits(s, k, sector))
  }

  /** No client write was sent to the disk, is queued for it or will be copied to it, but to
      sectors whose sync write is sent. */
  predicate Spared(s: State, k: nat)
    requires k < |s.ring|
  {
    s.ring[k].state.Ok? || forall sector: nat :: sector < s.total ==> SafeSector(s, k, sector)
  }

  /** A client write came before the sync write of the sector. */
  predicate LostSector(d: Disk, sector: nat) {
    d.state.Sync? && Tainted(d, sector) && !Synced(d, sector)
  }

  lemma SparedSkipsNone(s: State, k: nat)
    requires Inv(s) && k < |s.ring| && Spared(s, k)
    ensures s.ring[k].skipped == {}
  {
    var d := s.ring[k];
    assert TotalLaw(s, d) && LogOk(d);
    if d.skipped != {} {
      var sector :| sector in d.skipped && Tainted(d, sector);
      assert SectorLaw(s, d, sector) && SafeSector(s, k, sector);
      var i :| 0 <= i < |d.sent| && IsSyncWrite(d.sent[i], sector);
      assert DiskShape(d, s.total) && Belongs(d.sent[i], d);
      OwedAtLeast(s, k, d.sent[i], SectorKey(d.id, sector));
    }
  }

  // ---- a lost sector stays lost

  predicate Lost(s: State, id: nat, sector: nat) {
    id < s.nextDisk && forall i :: 0 <= i < |s.ring| && s.ring[i].id == id ==> LostSector(s.ring[i], sector)
  }

  lemma LostStep(s: State, step: Step, id: nat, sector: nat)
    requires Inv(s) && sector < s.total && Lost(s, id, sector) && Enabled(s, step)
    ensures Lost(Apply(s, step), id, sector)
  {
    var s' := Apply(s, step);
    DisksGrow(s, step);
    forall i | 0 <= i < |s'.ring| && s'.ring[i].id == id
      ensures LostSector(s'.ring[i], sector)
    {
      SameId(s, step, i);
      StepMarks(s, step, i, sector);
    }
  }

  lemma {:induction false} LostRun(s: State, steps: seq<Step>, id: nat, sector: nat)
    requires Inv(s) && sector < s.total && Lost(s, id, sector)
    ensures Lost(Run(s, steps), id, sector)
    decreases steps
  {
    if steps != [] {
      InvNext(s, steps[0]);
      if Enabled(s, steps[0]) { LostStep(s, steps[0], id, sector); }
      LostRun(Next(s, steps[0]), steps[1..], id, sector);
    }
  }

  /** Whatever happens afterwards, a disk with a lost sector never becomes up to date. */
  lemma LostForever(total: nat, steps: seq<Step>, k: nat, sector: nat, more: seq<Step>, i: nat)
    requires k < |After(total, steps).ring| && sector < total && LostSector(After(total, steps).ring[k], sector)
    requires var s' := Run(After(total, steps), more);
             i < |s'.ring| && s'.ring[i].id == After(total, steps).ring[k].id
    ensures Run(After(total, steps), more).ring[i].state.Sync?
  {
    InvAlways(total, steps);
    var s := After(total, steps);
    LostHere(s, k, sector);
    LostRun(s, more, s.ring[k].id, sector);
  }

  lemma LostHere(s: State, k: nat, sector: nat)
    requires Inv(s) && k < |s.ring| && LostSector(s.ring[k], sector)
    ensures Lost(s, s.ring[k].id, sector)
  {
    forall i | 0 <= i < |s.ring| && s.ring[i].id == s.ring[k].id
      ensures i == k
    {
      assert i < k || k < i || i == k;
    }
  }

  // ---- a spared disk stays spared, and comes to its end

  predicate Settling(steps: seq<Step>) {
    forall i :: 0 <= i < |steps| ==> Settles(steps[i])
  }

  /** Disk `k` has this number and `n` sectors issued. */
  predicate Tracked(s: State, k: nat, id: nat, n: nat, spared: bool) {
    k < |s.ring| && s.ring[k].id == id && s.ring[k].issued == n && (spared ==> Spared(s, k))
  }

  predicate Follows(s: State, id: nat, n: nat, spared: bool) {
    exists k :: 0 <= k < |s.ring| && Tracked(s, k, id, n, spared)
  }

  /** Where disk `k` goes. */
  lemma Place(s: State, step: Step, k: nat) returns (i: nat)
    requires Enabled(s, step) && Settles(step) && k < |s.ring|
    ensures i < |s.ring| && Before(s, step, i) == k
  {
    i := k;
    if step.Copy? {
      i := if k == 0 then |s.ring| - 1 else k - 1;
    } else if step.Dispatch? && s.general[0].kind.Read? {
      FirstOkExists(s.ring);
      i := if k == FirstOk(s.ring) then |s.ring| - 1 else if k < FirstOk(s.ring) then k else k - 1;
    }
  }

  /** How far the synchronisation has come; and an up-to-date disk stays so. */
  lemma SettlingBooks(s: State, step: Step, i: nat)
    requires Enabled(s, step) && Settles(step) && i < |s.ring|
    ensures |Apply(s, step).ring| == |s.ring| && Before(s, step, i) < |s.ring|
    ensures var d, e := s.ring[Before(s, step, i)], Apply(s, step).ring[i];
            && e.id == d.id && e.issued == d.issued + One(step == IssueSync(i))
            && (d.state.Ok? ==> e.state.Ok?)
  {
    match step
    case Receive(k) => ReceiveBooks(s, k, i);
    case Dispatch => FirstOkExists(s.ring);
    case _ =>
  }

  lemma SettlingRuns(s: State, step: Step)
    requires Enabled(s, step) && Settles(step)
    ensures var s' := Apply(s, step); s'.running && s'.total == s.total
  {
  }

  lemma SparedStep(s: State, step: Step, i: nat)
    requires Inv(s) && Enabled(s, step) && Settles(step) && i < |s.ring| && Before(s, step, i) < |s.ring|
    requires Spared(s, Before(s, step, i))
    ensures |Apply(s, step).ring| == |s.ring| && Spared(Apply(s, step), i)
  {
    var j := Before(s, step, i);
    var s' := Apply(s, step);
    SettlingBooks(s, step, i);
    SettlingRuns(s, step);
    if s.ring[j].state.Sync? {
      forall sector: nat | sector < s.total
        ensures s'.ring[i].state.Sync? ==> SafeSector(s', i, sector)
      {
        assert SafeSector(s, j, sector);
        StepMarks(s, step, i, sector);
        SettlingAwaits(s, step, i, sector);
      }
    }
  }

  lemma FollowsStep(s: State, step: Step, id: nat, n: nat, spared: bool) returns (n': nat)
    requires Inv(s) && Enabled(s, step) && Settles(step) && Follows(s, id, n, spared)
    ensures Follows(Apply(s, step), id, n', spared) && n <= n' && (Internal(step) ==> n' == n)
  {
    var k :| 0 <= k < |s.ring| && Tracked(s, k, id, n, spared);
    var i := Place(s, step, k);
    SettlingBooks(s, step, i);
    if spared { SparedStep(s, step, i); }
    n' := n + One(step == IssueSync(i));
    assert Tracked(Apply(s, step), i, id, n', spared);
  }

  ghost predicate Going(s: State, id: nat, n: nat, spared: bool) {
    Inv(s) && s.running && Follows(s, id, n, spared)
  }

  lemma FollowsNext(s: State, step: Step, id: nat, n: nat, spared: bool) returns (n': nat)
    requires Going(s, id, n, spared) && Settles(step)
    ensures Going(Next(s, step), id, n', spared) && Next(s, step).total == s.total
    ensures n <= n' && (Internal(step) ==> n' == n)
  {
    n' := n;
    InvNext(s, step);
    if Enabled(s, step) {
      n' := FollowsStep(s, step, id, n, spared);
      SettlingRuns(s, step);
    }
  }

  lemma {:induction false} FollowsRun(s: State, steps: seq<Step>, id: nat, n: nat, spared: bool) returns (n': nat)
    requires Going(s, id, n, spared) && Settling(steps)
    ensures Going(Run(s, steps), id, n', spared) && Run(s, steps).total == s.total
    ensures n <= n' && ((forall i :: 0 <= i < |steps| ==> Internal(steps[i])) ==> n' == n)
    decreases steps
  {
    n' := n;
    if steps != [] {
      n' := FollowsNext(s, steps[0], id, n, spared);
      n' := FollowsRun(Next(s, steps[0]), steps[1..], id, n', spared);
    }
  }

  /** At rest, a disk that is not up to date and gave up no sector has more sectors to come,
      and a slot to ask for the next one. */
  lemma NextSectorAtRest(s: State, k: nat)
    requires Inv(s) && s.running && s.total > 0 && AtRest(s) && k < |s.ring|
    requires s.ring[k].state.Sync? && s.ring[k].skipped == {}
    ensures Enabled(s, IssueSync(k))
  {
    assert forall i :: 0 <= i < |s.ring| ==> DiskShape(s.ring[i], s.total);
    IdleHoldsNothing(s.ring, OwnerKey(s.ring[k].id));
    assert TotalLaw(s, s.ring[k]);
  }

  predicate CaughtUp(d: Disk, id: nat) {
    d.id == id && (d.state.Ok? || d.skipped != {})
  }

  predicate UpToDate(d: Disk, id: nat) {
    d.id == id && d.state.Ok?
  }

  lemma RestFirst(s: State, id: nat, n: nat, spared: bool) returns (rest: seq<Step>, k: nat)
    requires Inv(s) && s.running && Follows(s, id, n, spared)
    ensures Settling(rest)
    ensures var s1 := Run(s, rest);
            Inv(s1) && s1.running && s1.total == s.total && AtRest(s1) && Tracked(s1, k, id, n, spared)
  {
    rest := ComesToRest(s);
    var n' := FollowsRun(s, rest, id, n, spared);
    k :| 0 <= k < |Run(s, rest).ring| && Tracked(Run(s, rest), k, id, n, spared);
  }

  lemma AskForNext(s: State, k: nat, id: nat, n: nat, spared: bool)
    requires Inv(s) && s.running && s.total > 0 && AtRest(s)
    requires Tracked(s, k, id, n, spared) && !CaughtUp(s.ring[k], id)
    ensures Enabled(s, IssueSync(k)) && n < s.total
    ensures var s' := Apply(s, IssueSync(k));
            Inv(s') && s'.running && s'.total == s.total && Follows(s', id, n + 1, spared)
  {
    NextSectorAtRest(s, k);
    InvStep(s, IssueSync(k));
    SettlingBooks(s, IssueSync(k), k);
    if spared { SparedStep(s, IssueSync(k), k); }
    assert Tracked(Apply(s, IssueSync(k)), k, id, n + 1, spared);
  }

  /** The steps end with disk `k`, which has this number, up to date or with a sector given up. */
  predicate Ends(s: State, more: seq<Step>, k: nat, id: nat, spared: bool) {
    && Settling(more) && k < |Run(s, more).ring|
    && CaughtUp(Run(s, more).ring[k], id) && (spared ==> UpToDate(Run(s, more).ring[k], id))
  }

  /** The threads come to rest; then the disk is done, or the next sector is asked for. */
  lemma OneSectorMore(s: State, id: nat, n: nat, spared: bool) returns (more: seq<Step>, k: nat, ended: bool)
    requires Inv(s) && s.running && s.total > 0 && Follows(s, id, n, spared)
    ensures ended ==> Ends(s, more, k, id, spared)
    ensures !ended ==> Asked(s, more, k, id, n, spared)
  {
    more, k := RestFirst(s, id, n, spared);
    var s1 := Run(s, more);
    if spared { SparedSkipsNone(s1, k); }
    ended := CaughtUp(s1.ring[k], id);
    if !ended { AskForNext(s1, k, id, n, spared); }
  }

  predicate Asked(s: State, more: seq<Step>, k: nat, id: nat, n: nat, spared: bool) {
    && Settling(more) && Enabled(Run(s, more), IssueSync(k)) && n < s.total
    && Follows(Apply(Run(s, more), IssueSync(k)), id, n + 1, spared)
  }

  lemma {:induction false} CatchesUpFrom(s: State, id: nat, n: nat, spared: bool) returns (more: seq<Step>, k: nat)
    requires Inv(s) && s.running && s.total > 0 && Follows(s, id, n, spared)
    ensures Ends(s, more, k, id, spared)
    decreases s.total - n
  {
    var ended;
    more, k, ended := OneSectorMore(s, id, n, spared);
    if !ended {
      InvRun(s, more);
      InvStep(Run(s, more), IssueSync(k));
      var after, i := CatchesUpFrom(Apply(Run(s, more), IssueSync(k)), id, n + 1, spared);
      AndThen(s, more, IssueSync(k), after, i, id, spared);
      more, k := more + ([IssueSync(k)] + after), i;
    }
  }

  lemma AndThen(s: State, before: seq<Step>, step: Step, after: seq<Step>, k: nat, id: nat, spared: bool)
    requires Enabled(Run(s, before), step) && Settling(before) && Settles(step)
    requires Ends(Apply(Run(s, before), step), after, k, id, spared)
    ensures Ends(s, before + ([step] + after), k, id, spared)
  {
    RunConcat(s, before, [step] + after);
    assert ([step] + after)[1..] == after;
  }

  /** From every reachable state the threads can bring a disk up to date if it is spared;
      otherwise they can but for the sectors it gives up. */
  lemma CatchesUp(total: nat, steps: seq<Step>, k: nat) returns (more: seq<Step>, k': nat)
    requires var s := After(total, steps); total > 0 && s.running && k < |s.ring|
    ensures var s := After(total, steps); Ends(s, more, k', s.ring[k].id, Spared(s, k))
  {
    InvAlways(total, steps);
    var s := After(total, steps);
    assert Tracked(s, k, s.ring[k].id, s.ring[k].issued, Spared(s, k));
    more, k' := CatchesUpFrom(s, s.ring[k].id, s.ring[k].issued, Spared(s, k));
  }

  // ---- and a disk that is not spared may be overtaken

  /** The consumer's next move, or that of a thread that puts petitions back. */
  lemma ConsumerStep(s: State, k: nat, sector: nat) returns (step: Step, i: nat)
    requires Inv(s) && s.running && k < |s.ring| && Awaits(s, k, sector)
    ensures Enabled(s, step) && Internal(step)
    ensures var s' := Apply(s, step);
            && i < |s'.ring| && s'.ring[i].id == s.ring[k].id && s'.ring[i].state == s.ring[k].state
            && Synced(s'.ring[i], sector) == Synced(s.ring[k], sector)
            && (Tainted(s'.ring[i], sector) || Awaits(s', i, sector))
  {
    step := if s.round.Some? then (if |s.ring| > s.round.value.position then Copy else EndRound)
            else if s.orphans != [] then Requeue(0) else Dispatch;
    i := Place(s, step, k);
    if step.Copy? {
      CopyOvertakes(s, k, i, sector);
    } else if step.Dispatch? {
      DispatchAwaits(s, i, sector);
      DispatchOvertakesNone(s, k, i, sector);
    } else if step.Requeue? {
      RequeueAwaits(s, 0, sector);
    }
  }

  lemma CopyOvertakes(s: State, k: nat, i: nat, sector: nat)
    requires Enabled(s, Copy) && i < |s.ring| && k == Before(s, Copy, i) && Awaits(s, k, sector)
    ensures var s' := CopyStep(s);
            && |s'.ring| == |s.ring| && s'.ring[i].id == s.ring[k].id && s'.ring[i].state == s.ring[k].state
            && Synced(s'.ring[i], sector) == Synced(s.ring[k], sector)
            && (Tainted(s'.ring[i], sector) || Awaits(s', i, sector))
  {
    var r := s.round.value;
    if k == 0 { PushAdvances(s.ring[0], r.p.(reply := r.position == 0), sector, true); }
  }

  lemma DispatchOvertakesNone(s: State, k: nat, i: nat, sector: nat)
    requires Enabled(s, Dispatch) && i < |s.ring| && k == Before(s, Dispatch, i) < |s.ring|
    ensures var s' := Apply(s, Dispatch);
            && |s'.ring| == |s.ring| && s'.ring[i].id == s.ring[k].id && s'.ring[i].state == s.ring[k].state
            && Synced(s'.ring[i], sector) == Synced(s.ring[k], sector)
  {
    FirstOkExists(s.ring);
  }

  predicate Overtakes(s: State, more: seq<Step>, i: nat, id: nat, sector: nat) {
    && Settling(more) && i < |Run(s, more).ring|
    && Run(s, more).ring[i].id == id && LostSector(Run(s, more).ring[i], sector)
  }

  lemma {:induction false} Overtaken(s: State, k: nat, sector: nat) returns (more: seq<Step>, i: nat)
    requires Inv(s) && s.running && k < |s.ring| && s.ring[k].state.Sync? && !Synced(s.ring[k], sector)
    requires Tainted(s.ring[k], sector) || Awaits(s, k, sector)
    ensures Overtakes(s, more, i, s.ring[k].id, sector)
    decreases Work(s)
  {
    more, i := [], k;
    if !Tainted(s.ring[k], sector) {
      var step, j := ConsumerStep(s, k, sector);
      InvStep(s, step);
      InternalStepsWork(s, step);
      SettlingRuns(s, step);
      more, i := Overtaken(Apply(s, step), j, sector);
      OneMore(s, step, more, i, s.ring[k].id, sector);
      more := [step] + more;
    }
  }

  lemma OneMore(s: State, step: Step, more: seq<Step>, i: nat, id: nat, sector: nat)
    requires Enabled(s, step) && Settles(step) && Overtakes(Apply(s, step), more, i, id, sector)
    ensures Overtakes(s, [step] + more, i, id, sector)
  {
    assert ([step] + more)[1..] == more;
  }

  /** Some continuation by the threads brings the disk up to date. */
  ghost predicate CanCatchUp(s: State, id: nat) {
    exists more, k :: Brings(s, more, k, id)
  }

  predicate Brings(s: State, more: seq<Step>, k: nat, id: nat) {
    Settling(more) && k < |Run(s, more).ring| && UpToDate(Run(s, more).ring[k], id)
  }

  /** And so it stays, whatever the threads do first. */
  ghost predicate SureToCatchUp(s: State, id: nat) {
    forall before :: Settling(before) ==> CanCatchUp(Run(s, before), id)
  }

  /** As long as no one submits and no disk joins or dies, a disk is sure to catch up exactly
      when it is spared. */
  lemma SureExactlyWhenSpared(total: nat, steps: seq<Step>, k: nat)
    requires var s := After(total, steps); total > 0 && s.running && k < |s.ring|
    ensures var s := After(total, steps); SureToCatchUp(s, s.ring[k].id) <==> Spared(s, k)
  {
    InvAlways(total, steps);
    var s := After(total, steps);
    if Spared(s, k) {
      forall before | Settling(before)
        ensures CanCatchUp(Run(s, before), s.ring[k].id)
      {
        SparedCatchesUp(s, k, before);
      }
    } else {
      var sector: nat :| sector < s.total && !SafeSector(s, k, sector);
      var before, i := Overtaken(s, k, sector);
      InvRun(s, before);
      LostCannot(Run(s, before), i, sector);
    }
  }

  lemma SparedCatchesUp(s: State, k: nat, before: seq<Step>)
    requires Inv(s) && s.running && s.total > 0 && k < |s.ring| && Spared(s, k) && Settling(before)
    ensures CanCatchUp(Run(s, before), s.ring[k].id)
  {
    var id := s.ring[k].id;
    assert Tracked(s, k, id, s.ring[k].issued, true);
    var n := FollowsRun(s, before, id, s.ring[k].issued, true);
    var more, i := CatchesUpFrom(Run(s, before), id, n, true);
    assert Brings(Run(s, before), more, i, id);
  }

  lemma LostCannot(s: State, k: nat, sector: nat)
    requires Inv(s) && sector < s.total && k < |s.ring| && LostSector(s.ring[k], sector)
    ensures !CanCatchUp(s, s.ring[k].id)
  {
    LostHere(s, k, sector);
    forall more, i
      ensures !Brings(s, more, i, s.ring[k].id)
    {
      LostRun(s, more, s.ring[k].id, sector);
    }
  }
}
