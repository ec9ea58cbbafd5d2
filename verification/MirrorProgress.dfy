/** Why the RAID comes to rest: putting back, dispatching, copying, sending, serving and
    receiving use up a measure. */
module MirrorProgress {
  import opened Options
  import opened Petitions
  import opened Mirror
  import opened MirrorShape
  import opened MirrorAccounts
  import opened MirrorInvariant
  import opened MirrorTheorems

  /** A step of a thread or disk that handles what is already there. */
  predicate Internal(step: Step) {
    step.Dispatch? || step.Copy? || step.EndRound? || step.Requeue? || step.Send? || step.Serve? || step.Receive?
  }

  /** Steps still due: `stages` for each petition, and three more for a read that will come
      back as a sync write. */
  function Toil(ps: seq<Petition>, stages: nat): nat {
    if ps == [] then 0 else stages + (if ps[0].toSync then 3 else 0) + Toil(ps[1..], stages)
  }

  function DiskToil(d: Disk): nat {
    Toil(d.queue, 3) + Toil(d.wire, 2) + Toil(Origins(d.resp), 1)
  }

  function RingToil(ring: seq<Disk>): nat {
    if ring == [] then 0 else DiskToil(ring[0]) + RingToil(ring[1..])
  }

  /** A write waiting to be dispatched will become one copy for each of the `n` disks. */
  function Due(p: Petition, n: nat): nat {
    if p.kind.Write? then 2 + 4 * n else 4 + (if p.toSync then 3 else 0)
  }

  function GeneralToil(ps: seq<Petition>, n: nat): nat {
    if ps == [] then 0 else Due(ps[0], n) + GeneralToil(ps[1..], n)
  }

  /** The copies still to be given, and the end of the round. */
  function RoundToil(round: Option<Round>, n: nat): nat {
    if round.None? then 0 else 1 + (if n > round.value.position then 4 * (n - round.value.position) else 0)
  }

  function Work(s: State): nat {
    var n := |s.ring|;
    GeneralToil(s.general, n) + GeneralToil(s.orphans, n) + |s.orphans| + RoundToil(s.round, n) + RingToil(s.ring)
  }

  lemma {:induction false} ToilConcat(a: seq<Petition>, b: seq<Petition>, stages: nat)
    ensures Toil(a + b, stages) == Toil(a, stages) + Toil(b, stages)
  {
    if a == [] {
      assert a + b == b;
    } else {
      assert (a + b)[1..] == a[1..] + b;
      ToilConcat(a[1..], b, stages);
    }
  }

  lemma ToilWithout(ps: seq<Petition>, i: nat, stages: nat)
    requires i < |ps|
    ensures Toil(ps, stages) == Toil(Without(ps, i), stages) + Toil([ps[i]], stages)
  {
    assert ps == ps[..i] + ([ps[i]] + ps[i + 1..]);
    ToilConcat(ps[..i], [ps[i]] + ps[i + 1..], stages);
    ToilConcat([ps[i]], ps[i + 1..], stages);
    ToilConcat(ps[..i], ps[i + 1..], stages);
  }

  lemma {:induction false} GeneralToilWithout(ps: seq<Petition>, i: nat, n: nat)
    requires i < |ps|
    ensures GeneralToil(ps, n) == Due(ps[i], n) + GeneralToil(Without(ps, i), n)
  {
    if i == 0 {
      assert Without(ps, 0) == ps[1..];
    } else {
      GeneralToilWithout(ps[1..], i - 1, n);
      assert Without(ps, i) == [ps[0]] + Without(ps[1..], i - 1);
    }
  }

  lemma {:induction false} RingToilConcat(a: seq<Disk>, b: seq<Disk>)
    ensures RingToil(a + b) == RingToil(a) + RingToil(b)
  {
    if a == [] {
      assert a + b == b;
    } else {
      assert (a + b)[1..] == a[1..] + b;
      RingToilConcat(a[1..], b);
    }
  }

  lemma RingToilWithout(ring: seq<Disk>, k: nat)
    requires k < |ring|
    ensures RingToil(ring) == DiskToil(ring[k]) + RingToil(Without(ring, k))
  {
    var left, right := ring[..k], ring[k..];
    assert ring == left + right && right[1..] == ring[k + 1..];
    RingToilConcat(left, right);
    RingToilConcat(left, right[1..]);
  }

  lemma RingToilUpdate(ring: seq<Disk>, k: nat, d: Disk)
    requires k < |ring|
    ensures RingToil(ring[k := d]) + DiskToil(ring[k]) == RingToil(ring) + DiskToil(d)
  {
    RingToilWithout(ring, k);
    RingToilWithout(ring[k := d], k);
    assert Without(ring[k := d], k) == Without(ring, k);
  }

  lemma {:induction false} RingToilReset(ring: seq<Disk>)
    ensures RingToil(ResetReads(ring)) == RingToil(ring)
  {
    if ring != [] {
      assert ResetReads(ring)[1..] == ResetReads(ring[1..]);
      RingToilReset(ring[1..]);
    }
  }

  lemma {:induction false} RingToilSyncWrite(ring: seq<Disk>, p: Petition)
    requires !p.toSync && Distinct(ring)
    ensures RingToil(PushSyncWrite(ring, p)) <= RingToil(ring) + 3
    ensures !HasDisk(ring, p.owner) ==> RingToil(PushSyncWrite(ring, p)) == RingToil(ring)
  {
    if ring != [] {
      var tail := ring[1..];
      assert PushSyncWrite(ring, p)[1..] == PushSyncWrite(tail, p);
      ToilConcat(ring[0].queue, [p], 3);
      RingToilSyncWrite(tail, p);
      assert ring == [ring[0]] + tail;
      if ring[0].id == p.owner {
        forall i | 0 <= i < |tail|
          ensures tail[i].id != p.owner
        {
          assert tail[i] == ring[i + 1];
        }
      }
    }
  }

  lemma RingToilMove(ring: seq<Disk>, k: nat, d: Disk)
    requires k < |ring|
    ensures RingToil(Without(ring, k) + [d]) + DiskToil(ring[k]) == RingToil(ring) + DiskToil(d)
  {
    RingToilWithout(ring, k);
    RingToilConcat(Without(ring, k), [d]);
    assert RingToil([d]) == DiskToil(d);
  }

  lemma DispatchReadToil(s: State)
    requires s.general != [] && SomeOk(s.ring) && s.general[0].kind.Read?
    ensures Work(DispatchRead(s)) < Work(s)
  {
    FirstOkExists(s.ring);
    var k := FirstOk(s.ring);
    var d := s.ring[k];
    ToilConcat(d.queue, [ReadFor(s.general[0], d)], 3);
    RingToilMove(s.ring, k, PushRead(d, s.general[0]));
  }

  lemma CopyToil(s: State)
    requires Enabled(s, Copy) && !s.round.value.p.toSync
    ensures Work(CopyStep(s)) < Work(s)
  {
    var r := s.round.value;
    ToilConcat(s.ring[0].queue, [r.p.(reply := r.position == 0)], 3);
    RingToilMove(s.ring, 0, PushWrite(s.ring[0], r.p, r.position == 0));
    assert Without(s.ring, 0) == s.ring[1..];
  }

  lemma RequeueToil(s: State, i: nat)
    requires i < |s.orphans|
    ensures Work(RequeueStep(s, i)) < Work(s)
  {
    GeneralToilWithout(s.orphans, i, |s.ring|);
  }

  lemma SendToil(d: Disk)
    requires d.queue != []
    ensures DiskToil(SendOne(d)) < DiskToil(d)
  {
    ToilConcat(d.wire, [d.queue[0]], 2);
  }

  lemma ServeToil(d: Disk, i: nat)
    requires i < |d.wire|
    ensures DiskToil(ServeOne(d, i)) < DiskToil(d)
  {
    var e := ServeOne(d, i);
    ToilWithout(d.wire, i, 2);
    assert Origins(e.resp) == Origins(d.resp) + [d.wire[i]];
    ToilConcat(Origins(d.resp), [d.wire[i]], 1);
  }

  lemma SettledToil(d: Disk, total: nat)
    requires d.resp != [] && Answers(d)
    ensures DiskToil(d) == DiskToil(Settled(d, total)) + 1 + (if d.resp[0].origin.toSync then 3 else 0)
  {
    assert Origins(d.resp)[1..] == Origins(Settled(d, total).resp);
  }

  lemma ReceiveToil(s: State, k: nat)
    requires Enabled(s, Receive(k)) && Distinct(s.ring) && Matched(s.ring[k]) == s.ring[k].resp[0].origin
    ensures Work(Apply(s, Receive(k))) < Work(s)
  {
    var e := Settled(s.ring[k], s.total);
    var p := Matched(s.ring[k]);
    SettledToil(s.ring[k], s.total);
    RingToilUpdate(s.ring, k, e);
    RingToilReset(s.ring[k := e]);
    SettledIds(s, k);
    RingToilSyncWrite(RingSettled(s, k),
                      SyncWriteFor(p, s.ring[k].resp[0].data));
  }

  lemma SettledIds(s: State, k: nat)
    requires Enabled(s, Receive(k)) && Distinct(s.ring)
    ensures Distinct(RingSettled(s, k)) && |RingSettled(s, k)| == |s.ring|
  {
    assert forall i :: 0 <= i < |s.ring| ==> RingSettled(s, k)[i].id == s.ring[i].id;
  }

  /** Every internal step uses up some work. */
  lemma InternalStepsWork(s: State, step: Step)
    requires Inv(s) && Enabled(s, step) && Internal(step)
    ensures Work(Apply(s, step)) < Work(s)
  {
    match step
    case Dispatch => if s.general[0].kind.Read? { DispatchReadToil(s); }
    case Copy => CopyToil(s);
    case Requeue(i) => RequeueToil(s, i);
    case Send(k) => SendToil(s.ring[k]); RingToilUpdate(s.ring, k, SendOne(s.ring[k]));
    case Serve(k, i) => ServeToil(s.ring[k], i); RingToilUpdate(s.ring, k, ServeOne(s.ring[k], i));
    case Receive(k) => MatchIsExact(s.ring[k], s.total); ReceiveToil(s, k);
    case _ =>
  }

  lemma InternalKeeps(s: State, step: Step)
    requires Enabled(s, step) && Internal(step)
    ensures var s' := Apply(s, step); s'.running && s'.submitted == s.submitted && |s'.ring| == |s.ring|
  {
  }

  /** The RAID does not get stuck: while some thread or disk has something in hand, one of
      the steps that handle it can be taken. */
  lemma NeverStuck(s: State) returns (step: Step)
    requires Inv(s) && s.running && s.ring != [] && !AtRest(s)
    ensures Internal(step) && Enabled(s, step)
  {
    if s.round.Some? {
      step := if |s.ring| > s.round.value.position then Copy else EndRound;
    } else if s.orphans != [] {
      step := Requeue(0);
    } else if s.general != [] {
      step := Dispatch;
    } else {
      var k :| 0 <= k < |s.ring| && !Idle(s.ring[k]);
      if s.ring[k].queue != [] {
        step := Send(k);
      } else if s.ring[k].wire != [] {
        step := Serve(k, 0);
      } else {
        MatchIsExact(s.ring[k], s.total);
        step := Receive(k);
      }
    }
  }

  /** Internal steps, no more than the work in hand, after which nothing is left to do. */
  predicate Rests(s: State, more: seq<Step>) {
    && |more| <= Work(s) && (forall i :: 0 <= i < |more| ==> Internal(more[i]))
    && AtRest(Run(s, more)) && Run(s, more).submitted == s.submitted
  }

  lemma RestsAfterStep(s: State, step: Step, rest: seq<Step>)
    requires Inv(s) && Enabled(s, step) && Internal(step) && Rests(Apply(s, step), rest)
    ensures Rests(s, [step] + rest)
  {
    InternalStepsWork(s, step);
    InternalKeeps(s, step);
    assert ([step] + rest)[1..] == rest;
  }

  lemma {:induction false} ComesToRest(s: State) returns (more: seq<Step>)
    requires Inv(s) && s.running && s.ring != []
    ensures Rests(s, more)
    decreases Work(s)
  {
    if AtRest(s) {
      more := [];
    } else {
      var step := NeverStuck(s);
      InvStep(s, step);
      InternalStepsWork(s, step);
      InternalKeeps(s, step);
      var rest := ComesToRest(Apply(s, step));
      RestsAfterStep(s, step, rest);
      more := [step] + rest;
    }
  }

  /** Left alone, the RAID answers: every reachable running state has a continuation of
      internal steps, no longer than the work in hand, after which every client petition ever
      submitted has had exactly one reply and nothing is left to do. */
  lemma AnswersWhenLeftAlone(total: nat, steps: seq<Step>) returns (more: seq<Step>)
    requires var s := After(total, steps); s.running && s.ring != []
    ensures Rests(After(total, steps), more) && AllAnswered(Run(After(total, steps), more))
  {
    InvAlways(total, steps);
    more := ComesToRest(After(total, steps));
    InvRun(After(total, steps), more);
    RestAnswersAll(Run(After(total, steps), more));
  }
}
