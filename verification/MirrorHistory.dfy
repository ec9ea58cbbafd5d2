/** What the steps of a run say of a disk, without looking at the fields that record it: whether
    its flag is set, and how many reads it was given. */
module MirrorHistory {
  import opened Petitions
  import opened Mirror
  import opened MirrorAccounts
  import opened MirrorInvariant
  import opened MirrorMarks

  /** Disk `id` takes a sync write from its queue and something is queued behind it. */
  predicate Compares(s: State, step: Step, id: nat) {
    && Enabled(s, step) && step.Send? && s.ring[step.k].id == id
    && s.ring[step.k].state.Sync? && |s.ring[step.k].queue| > 1
    && s.ring[step.k].queue[0].fd == -1 && s.ring[step.k].queue[0].kind.Write?
  }

  /** A write to the sector of the first petition is queued behind it. */
  predicate WriteBehind(queue: seq<Petition>) {
    exists j :: 0 < j < |queue| && queue[j].kind.Write? && queue[j].sector == queue[0].sector
  }

  /** Whether the last sync write that disk `id` took with something queued behind it had a write
      to its sector behind it; `last` is what is known of the steps before. */
  function FoundLast(s: State, steps: seq<Step>, id: nat, last: bool): bool
    decreases steps
  {
    if steps == [] then last
    else
      var found := if Compares(s, steps[0], id) then WriteBehind(s.ring[steps[0].k].queue) else last;
      FoundLast(Next(s, steps[0]), steps[1..], id, found)
  }

  lemma FlagSent(d: Disk)
    requires d.queue != []
    ensures var p := d.queue[0];
            SendOne(d).auxFound ==
            if d.state.Sync? && |d.queue| > 1 && p.fd == -1 && p.kind.Write? then WriteBehind(d.queue) else d.auxFound
  {
    var rest := d.queue[1..];
    if j :| 0 < j < |d.queue| && d.queue[j].kind.Write? && d.queue[j].sector == d.queue[0].sector {
      assert Hits(rest[j - 1], d.queue[0].sector, Write);
    }
    if i :| 0 <= i < |rest| && Hits(rest[i], d.queue[0].sector, Write) {
      assert d.queue[i + 1].kind.Write?;
    }
  }

  /** Only the sending thread touches the flag. */
  lemma FlagKept(s: State, step: Step, i: nat)
    requires Enabled(s, step) && i < |Apply(s, step).ring| && Before(s, step, i) < |s.ring|
    requires step.Send? ==> step.k != Before(s, step, i)
    ensures Apply(s, step).ring[i].auxFound == s.ring[Before(s, step, i)].auxFound
  {
    match step
    case Dispatch => if s.general[0].kind.Read? { FlagRead(s, i); }
    case Receive(k) => FlagReceive(s, k, i);
    case Die(k) => FlagDie(s, k, i);
    case _ =>
  }

  lemma FlagRead(s: State, i: nat)
    requires Enabled(s, Dispatch) && s.general[0].kind.Read? && i < |s.ring|
    ensures |DispatchRead(s).ring| == |s.ring| && Before(s, Dispatch, i) < |s.ring|
    ensures DispatchRead(s).ring[i].auxFound == s.ring[Before(s, Dispatch, i)].auxFound
  {
    FirstOkExists(s.ring);
  }

  lemma FlagReceive(s: State, k: nat, i: nat)
    requires Enabled(s, Receive(k)) && i < |s.ring|
    ensures |Apply(s, Receive(k)).ring| == |s.ring|
    ensures Apply(s, Receive(k)).ring[i].auxFound == s.ring[i].auxFound
  {
    FlagSettled(s, k, i);
    assert Apply(s, Receive(k)).ring[i].auxFound == RingSettled(s, k)[i].auxFound;
  }

  lemma FlagSettled(s: State, k: nat, i: nat)
    requires Enabled(s, Receive(k)) && i < |s.ring|
    ensures |RingSettled(s, k)| == |s.ring| && RingSettled(s, k)[i].auxFound == s.ring[i].auxFound
  {
  }

  lemma FlagDie(s: State, k: nat, i: nat)
    requires Enabled(s, Die(k)) && i < |Apply(s, Die(k)).ring| && Before(s, Die(k), i) < |s.ring|
    ensures Apply(s, Die(k)).ring[i].auxFound == s.ring[Before(s, Die(k), i)].auxFound
  {
  }

  /** The flag of disk `id` is `flag`; that of a disk still to join will be clear. */
  predicate FlagIs(s: State, id: nat, flag: bool) {
    && (forall k :: 0 <= k < |s.ring| && s.ring[k].id == id ==> s.ring[k].auxFound == flag)
    && (id >= s.nextDisk ==> !flag)
  }

  lemma FlagStep(s: State, step: Step, id: nat, flag: bool)
    requires Inv(s) && Enabled(s, step) && FlagIs(s, id, flag)
    ensures FlagIs(Apply(s, step), id, if Compares(s, step, id) then WriteBehind(s.ring[step.k].queue) else flag)
  {
    var s' := Apply(s, step);
    var flag' := if Compares(s, step, id) then WriteBehind(s.ring[step.k].queue) else flag;
    DisksGrow(s, step);
    forall i | 0 <= i < |s'.ring| && s'.ring[i].id == id
      ensures s'.ring[i].auxFound == flag'
    {
      SameId(s, step, i);
      FlagOfOne(s, step, i, flag);
    }
    if step.Send? { assert s.ring[step.k].id < s.nextDisk; }
  }

  lemma FlagOfOne(s: State, step: Step, i: nat, flag: bool)
    requires Inv(s) && Enabled(s, step) && i < |Apply(s, step).ring|
    requires FlagIs(s, Apply(s, step).ring[i].id, flag)
    ensures var id := Apply(s, step).ring[i].id;
            Apply(s, step).ring[i].auxFound ==
            if Compares(s, step, id) then WriteBehind(s.ring[step.k].queue) else flag
  {
    SameId(s, step, i);
    if step.Send? { FlagSender(s, step.k, i, flag); } else { FlagOther(s, step, i, flag); }
  }

  lemma FlagSender(s: State, k: nat, i: nat, flag: bool)
    requires Distinct(s.ring) && Enabled(s, Send(k)) && i < |s.ring| && FlagIs(s, s.ring[i].id, flag)
    ensures |Apply(s, Send(k)).ring| == |s.ring|
    ensures Apply(s, Send(k)).ring[i].auxFound ==
            if Compares(s, Send(k), s.ring[i].id) then WriteBehind(s.ring[k].queue) else flag
  {
    FlagSent(s.ring[k]);
    if i != k { assert s.ring[k].id != s.ring[i].id; }
  }

  lemma FlagOther(s: State, step: Step, i: nat, flag: bool)
    requires Inv(s) && Enabled(s, step) && !step.Send? && i < |Apply(s, step).ring|
    requires Before(s, step, i) < |s.ring| ==> FlagIs(s, s.ring[Before(s, step, i)].id, flag)
    requires Before(s, step, i) >= |s.ring| ==> FlagIs(s, s.nextDisk, flag)
    ensures Apply(s, step).ring[i].auxFound == flag
  {
    if Before(s, step, i) < |s.ring| { FlagKept(s, step, i); } else { OnlyJoinAdds(s, step, i); }
  }

  lemma {:induction false} FlagRun(s: State, steps: seq<Step>, id: nat, flag: bool)
    requires Inv(s) && FlagIs(s, id, flag)
    ensures FlagIs(Run(s, steps), id, FoundLast(s, steps, id, flag))
    decreases steps
  {
    if steps != [] {
      InvNext(s, steps[0]);
      if Enabled(s, steps[0]) { FlagStep(s, steps[0], id, flag); }
      var found := if Compares(s, steps[0], id) then WriteBehind(s.ring[steps[0].k].queue) else flag;
      FlagRun(Next(s, steps[0]), steps[1..], id, found);
    }
  }

  /** The flag is set exactly when the last sync write that was taken with something queued
      behind it had a write to its sector behind it. */
  lemma FlagExactly(total: nat, steps: seq<Step>, k: nat)
    requires k < |After(total, steps).ring|
    ensures var d := After(total, steps).ring[k];
            d.auxFound == FoundLast(Init(total), steps, d.id, false)
  {
    InvAlways(total, []);
    FlagRun(Init(total), steps, After(total, steps).ring[k].id, false);
  }

  // ---- reads

  /** The queue of disk `id` has grown. */
  predicate Grew(ring: seq<Disk>, ring': seq<Disk>, id: nat) {
    exists i, j :: 0 <= i < |ring| && 0 <= j < |ring'| && Longer(ring[i], ring'[j], id)
  }

  predicate Longer(d: Disk, e: Disk, id: nat) {
    d.id == id && e.id == id && |e.queue| > |d.queue|
  }

  /** A read was put into the queue of disk `id`. */
  predicate GivesRead(s: State, step: Step, id: nat)
    requires Enabled(s, step)
  {
    step.Dispatch? && s.general[0].kind.Read? && Grew(s.ring, Apply(s, step).ring, id)
  }

  /** A disk joined, died or was promoted. */
  predicate RingChanges(s: State, step: Step)
    requires Enabled(s, step)
  {
    step.Join? || (step.Die? && Apply(s, step).running) || (step.Receive? && Promotes(s.ring[step.k], s.total))
  }

  /** How many reads were put into the queue of disk `id` since the ring last changed; `n` before
      these steps. */
  function ReadsGiven(s: State, steps: seq<Step>, id: nat, n: nat): nat
    decreases steps
  {
    if steps == [] then n
    else
      var now := if !Enabled(s, steps[0]) then n else ReadsAfter(s, steps[0], id, n);
      ReadsGiven(Next(s, steps[0]), steps[1..], id, now)
  }

  function ReadsAfter(s: State, step: Step, id: nat, n: nat): nat
    requires Enabled(s, step)
  {
    if RingChanges(s, step) then 0 else if GivesRead(s, step, id) then n + 1 else n
  }

  predicate ReadsAre(s: State, id: nat, n: nat) {
    && (forall k :: 0 <= k < |s.ring| && s.ring[k].id == id ==> s.ring[k].readCount == n)
    && (id >= s.nextDisk ==> n == 0)
  }

  lemma ReadGiven(s: State, i: nat)
    requires Inv(s) && Enabled(s, Dispatch) && s.general[0].kind.Read? && i < |s.ring|
    ensures var s' := DispatchRead(s);
            var j := Before(s, Dispatch, i);
            && |s'.ring| == |s.ring| && j < |s.ring|
            && s'.ring[i].readCount == s.ring[j].readCount + One(GivesRead(s, Dispatch, s'.ring[i].id))
  {
    ReadPlace(s, i);
    GrewByRead(s, i);
  }

  /** Only the queue of the disk that takes the read grows. */
  lemma GrewByRead(s: State, i: nat)
    requires Distinct(s.ring) && s.general != [] && SomeOk(s.ring) && i < |s.ring|
    ensures var ring := DispatchRead(s).ring;
            |ring| == |s.ring| && (Grew(s.ring, ring, ring[i].id) <==> i == |s.ring| - 1)
  {
    var ring := DispatchRead(s).ring;
    var id := ring[i].id;
    DistinctRead(s);
    ReadPlace(s, i);
    if i == |s.ring| - 1 {
      assert Longer(s.ring[FirstOk(s.ring)], ring[i], id);
    } else {
      var j := if i < FirstOk(s.ring) then i else i + 1;
      forall a, b | 0 <= a < |s.ring| && 0 <= b < |ring|
        ensures !Longer(s.ring[a], ring[b], id)
      {
        if s.ring[a].id == id && ring[b].id == id { assert a == j && b == i; }
      }
    }
  }

  lemma ReadsReset(s: State, step: Step, i: nat)
    requires Enabled(s, step) && RingChanges(s, step) && i < |Apply(s, step).ring|
    ensures Apply(s, step).ring[i].readCount == 0
  {
  }

  /** No other step counts a read. */
  lemma ReadsKept(s: State, step: Step, i: nat)
    requires Enabled(s, step) && !RingChanges(s, step) && i < |Apply(s, step).ring|
    requires !(step.Dispatch? && s.general[0].kind.Read?)
    ensures Before(s, step, i) < |s.ring|
    ensures Apply(s, step).ring[i].readCount == s.ring[Before(s, step, i)].readCount
  {
  }

  lemma ReadsOfOne(s: State, step: Step, i: nat, n: nat)
    requires Inv(s) && Enabled(s, step) && i < |Apply(s, step).ring|
    requires ReadsAre(s, Apply(s, step).ring[i].id, n)
    ensures Apply(s, step).ring[i].readCount == ReadsAfter(s, step, Apply(s, step).ring[i].id, n)
  {
    SameId(s, step, i);
    if RingChanges(s, step) {
      ReadsReset(s, step, i);
    } else if step.Dispatch? && s.general[0].kind.Read? {
      ReadGiven(s, i);
    } else {
      ReadsKept(s, step, i);
    }
  }

  lemma ReadsStep(s: State, step: Step, id: nat, n: nat)
    requires Inv(s) && Enabled(s, step) && ReadsAre(s, id, n)
    ensures ReadsAre(Apply(s, step), id, ReadsAfter(s, step, id, n))
  {
    var s' := Apply(s, step);
    DisksGrow(s, step);
    forall i | 0 <= i < |s'.ring| && s'.ring[i].id == id
      ensures s'.ring[i].readCount == ReadsAfter(s, step, id, n)
    {
      SameId(s, step, i);
      ReadsOfOne(s, step, i, n);
    }
    assert forall k :: 0 <= k < |s.ring| ==> s.ring[k].id < s.nextDisk;
  }

  lemma {:induction false} ReadsRun(s: State, steps: seq<Step>, id: nat, n: nat)
    requires Inv(s) && ReadsAre(s, id, n)
    ensures ReadsAre(Run(s, steps), id, ReadsGiven(s, steps, id, n))
    decreases steps
  {
    if steps != [] {
      InvNext(s, steps[0]);
      if Enabled(s, steps[0]) { ReadsStep(s, steps[0], id, n); }
      var now := if !Enabled(s, steps[0]) then n else ReadsAfter(s, steps[0], id, n);
      ReadsRun(Next(s, steps[0]), steps[1..], id, now);
    }
  }

  /** What is counted is what was given. */
  lemma ReadsExactly(total: nat, steps: seq<Step>, k: nat)
    requires k < |After(total, steps).ring|
    ensures var d := After(total, steps).ring[k];
            d.readCount == ReadsGiven(Init(total), steps, d.id, 0)
  {
    InvAlways(total, []);
    ReadsRun(Init(total), steps, After(total, steps).ring[k].id, 0);
  }
}
