/** Each disk is sent its petitions in the order in which they were given to it. */
module MirrorQueues {
  import opened Petitions
  import opened Mirror
  import opened MirrorAccounts
  import opened MirrorInvariant
  import opened MirrorMarks
  import opened MirrorRequests

  predicate InRing(ring: seq<Disk>, id: nat) {
    exists k :: 0 <= k < |ring| && ring[k].id == id
  }

  /** Disk `k` receives what is read for the synchronisation of another one. */
  predicate SyncReadFor(s: State, k: nat, id: nat)
    requires Enabled(s, Receive(k))
  {
    var p := Matched(s.ring[k]);
    p.toSync && p.owner == id && !(p.fd == -1 && s.ring[k].state.Sync?)
  }

  /** What a step gives disk `id` to do: a read to the first up-to-date disk, a copy of a write to
      the one at the head of the ring, and what was read for it. */
  function GivenBy(s: State, step: Step, id: nat): seq<Petition> {
    if !Enabled(s, step) || !InRing(s.ring, id) then []
    else
      match step
      case Dispatch => if s.general[0].kind.Read? then ReadGivenTo(s, id) else []
      case Copy => if s.ring[0].id == id then [s.round.value.p.(reply := s.round.value.position == 0)] else []
      case Receive(k) =>
        if SyncReadFor(s, k, id) then [SyncWriteFor(Matched(s.ring[k]), s.ring[k].resp[0].data)] else []
      case _ => []
  }

  function ReadGivenTo(s: State, id: nat): seq<Petition>
    requires s.general != []
  {
    var i := FirstOk(s.ring);
    if i < |s.ring| && s.ring[i].id == id then [ReadFor(s.general[0], s.ring[i])] else []
  }

  function Given(s: State, steps: seq<Step>, id: nat): seq<Petition>
    decreases steps
  {
    if steps == [] then [] else GivenBy(s, steps[0], id) + Given(Next(s, steps[0]), steps[1..], id)
  }

  /** The petition that the thread of disk `id` takes from its queue. */
  function TakenBy(s: State, step: Step, id: nat): seq<Petition> {
    if step.Send? && Enabled(s, step) && s.ring[step.k].id == id then [s.ring[step.k].queue[0]] else []
  }

  function Taken(s: State, steps: seq<Step>, id: nat): seq<Petition>
    decreases steps
  {
    if steps == [] then [] else TakenBy(s, steps[0], id) + Taken(Next(s, steps[0]), steps[1..], id)
  }

  // ---- one step

  /** What was waiting and what is given are what is taken and what waits then. */
  predicate Passes(s: State, step: Step, i: nat)
    requires Enabled(s, step) && i < |Apply(s, step).ring|
  {
    var j := Before(s, step, i);
    var id := Apply(s, step).ring[i].id;
    j < |s.ring| && s.ring[j].queue + GivenBy(s, step, id) == TakenBy(s, step, id) + Apply(s, step).ring[i].queue
  }

  lemma PassesRead(s: State, i: nat)
    requires Distinct(s.ring) && Enabled(s, Dispatch) && s.general[0].kind.Read? && i < |s.ring|
    ensures |Apply(s, Dispatch).ring| == |s.ring| && Passes(s, Dispatch, i)
  {
    ReadPlace(s, i);
    var j := Before(s, Dispatch, i);
    assert InRing(s.ring, s.ring[j].id);
    if j != FirstOk(s.ring) { assert s.ring[j].id != s.ring[FirstOk(s.ring)].id; }
  }

  lemma PassesCopy(s: State, i: nat)
    requires Distinct(s.ring) && Enabled(s, Copy) && i < |s.ring|
    ensures |Apply(s, Copy).ring| == |s.ring| && Passes(s, Copy, i)
  {
    var j := Before(s, Copy, i);
    assert InRing(s.ring, s.ring[j].id);
    if j != 0 { assert s.ring[j].id != s.ring[0].id; }
  }

  lemma PassesReceive(s: State, k: nat, i: nat)
    requires Enabled(s, Receive(k)) && i < |s.ring|
    ensures |Apply(s, Receive(k)).ring| == |s.ring| && Passes(s, Receive(k), i)
  {
    SameId(s, Receive(k), i);
    assert InRing(s.ring, s.ring[i].id);
    QueueSettled(s, k, i);
  }

  lemma QueueSettled(s: State, k: nat, i: nat)
    requires Enabled(s, Receive(k)) && i < |s.ring|
    ensures |RingSettled(s, k)| == |s.ring| && RingSettled(s, k)[i].queue == s.ring[i].queue
    ensures RingSettled(s, k)[i].id == s.ring[i].id
  {
  }

  lemma PassesSend(s: State, k: nat, i: nat)
    requires Distinct(s.ring) && Enabled(s, Send(k)) && i < |s.ring|
    ensures |Apply(s, Send(k)).ring| == |s.ring| && Passes(s, Send(k), i)
  {
    if i != k { assert s.ring[i].id != s.ring[k].id; }
  }

  /** No other step gives or takes anything. */
  lemma PassesStill(s: State, step: Step, i: nat)
    requires Enabled(s, step) && i < |Apply(s, step).ring| && Before(s, step, i) < |s.ring|
    requires !step.Copy? && !step.Receive? && !step.Send? && !(step.Dispatch? && s.general[0].kind.Read?)
    ensures Passes(s, step, i)
  {
  }

  lemma StepPasses(s: State, step: Step, i: nat)
    requires Inv(s) && Enabled(s, step) && i < |Apply(s, step).ring| && Before(s, step, i) < |s.ring|
    ensures Passes(s, step, i)
  {
    match step
    case Dispatch => if s.general[0].kind.Read? { PassesRead(s, i); } else { PassesStill(s, step, i); }
    case Copy => PassesCopy(s, i);
    case Receive(k) => PassesReceive(s, k, i);
    case Send(k) => PassesSend(s, k, i);
    case _ => PassesStill(s, step, i);
  }

  // ---- whole runs

  /** All that disk `id` was given was taken, in order, but for what is in its queue. */
  predicate QueueIs(s: State, id: nat, given: seq<Petition>, taken: seq<Petition>) {
    && (forall k :: 0 <= k < |s.ring| && s.ring[k].id == id ==> given == taken + s.ring[k].queue)
    && (id >= s.nextDisk ==> given == taken == [])
  }

  lemma QueueOfOne(s: State, step: Step, i: nat, given: seq<Petition>, taken: seq<Petition>)
    requires Inv(s) && Enabled(s, step) && i < |Apply(s, step).ring|
    requires QueueIs(s, Apply(s, step).ring[i].id, given, taken)
    ensures var d := Apply(s, step).ring[i];
            given + GivenBy(s, step, d.id) == taken + TakenBy(s, step, d.id) + d.queue
  {
    SameId(s, step, i);
    var j := Before(s, step, i);
    if j < |s.ring| {
      StepPasses(s, step, i);
      var d := Apply(s, step).ring[i];
      Chained(given, taken, s.ring[j].queue, GivenBy(s, step, d.id), TakenBy(s, step, d.id), d.queue);
    } else {
      OnlyJoinAdds(s, step, i);
      NotYet(s, step, s.nextDisk);
    }
  }

  /** Nothing is given to a disk still to join, or taken. */
  lemma NotYet(s: State, step: Step, id: nat)
    requires Inv(s) && Enabled(s, step) && id >= s.nextDisk
    ensures GivenBy(s, step, id) == [] && TakenBy(s, step, id) == []
  {
    assert forall k :: 0 <= k < |s.ring| ==> s.ring[k].id < s.nextDisk;
  }

  lemma QueueStep(s: State, step: Step, id: nat, given: seq<Petition>, taken: seq<Petition>)
    requires Inv(s) && Enabled(s, step) && QueueIs(s, id, given, taken)
    ensures QueueIs(Apply(s, step), id, given + GivenBy(s, step, id), taken + TakenBy(s, step, id))
  {
    var s' := Apply(s, step);
    DisksGrow(s, step);
    if id >= s'.nextDisk { NotYet(s, step, id); }
    forall i | 0 <= i < |s'.ring| && s'.ring[i].id == id
      ensures given + GivenBy(s, step, id) == taken + TakenBy(s, step, id) + s'.ring[i].queue
    {
      QueueOfOne(s, step, i, given, taken);
    }
  }

  lemma Regroup<T>(a: seq<T>, b: seq<T>, c: seq<T>)
    ensures a + b + c == a + (b + c)
  {
  }

  lemma Chained<T>(given: seq<T>, taken: seq<T>, queue: seq<T>, more: seq<T>, gone: seq<T>, queue': seq<T>)
    requires given == taken + queue && queue + more == gone + queue'
    ensures given + more == taken + gone + queue'
  {
    assert given + more == taken + (queue + more);
    assert taken + gone + queue' == taken + (gone + queue');
  }

  lemma {:induction false} QueueRun(s: State, steps: seq<Step>, id: nat, given: seq<Petition>, taken: seq<Petition>)
    requires Inv(s) && QueueIs(s, id, given, taken)
    ensures QueueIs(Run(s, steps), id, given + Given(s, steps, id), taken + Taken(s, steps, id))
    decreases steps
  {
    if steps == [] {
      assert given + [] == given && taken + [] == taken;
    } else {
      var more, gone := GivenBy(s, steps[0], id), TakenBy(s, steps[0], id);
      var s' := Next(s, steps[0]);
      InvNext(s, steps[0]);
      QueueNext(s, steps[0], id, given, taken);
      QueueRun(s', steps[1..], id, given + more, taken + gone);
      Regroup(given, more, Given(s', steps[1..], id));
      Regroup(taken, gone, Taken(s', steps[1..], id));
    }
  }

  lemma QueueNext(s: State, step: Step, id: nat, given: seq<Petition>, taken: seq<Petition>)
    requires Inv(s) && QueueIs(s, id, given, taken)
    ensures QueueIs(Next(s, step), id, given + GivenBy(s, step, id), taken + TakenBy(s, step, id))
  {
    if Enabled(s, step) {
      QueueStep(s, step, id, given, taken);
    } else {
      assert given + [] == given && taken + [] == taken;
    }
  }

  /** In every run a disk thread takes, in order, all that its disk was given, but for what still
      waits in its queue. */
  lemma FirstGivenFirstTaken(total: nat, steps: seq<Step>, k: nat)
    requires k < |After(total, steps).ring|
    ensures var d := After(total, steps).ring[k];
            Given(Init(total), steps, d.id) == Taken(Init(total), steps, d.id) + d.queue
  {
    InvAlways(total, []);
    var id := After(total, steps).ring[k].id;
    QueueRun(Init(total), steps, id, [], []);
    assert [] + Given(Init(total), steps, id) == Given(Init(total), steps, id);
    assert [] + Taken(Init(total), steps, id) == Taken(Init(total), steps, id);
  }

  // ---- the general queue

  /** What a client asks for, or what the synchronisation of a disk asks for next. */
  function QueuedBy(s: State, step: Step): seq<Petition> {
    if !Enabled(s, step) then []
    else
      match step
      case Submit(fd, kind, sector, data) =>
        [Petition(fd, kind, sector, data, false, 0, false, |s.submitted|, [])]
      case IssueSync(k) =>
        [Petition(-1, Read, s.ring[k].issued, [], false, s.ring[k].id, true, 0, [])]
      case _ => []
  }

  function Queued(s: State, steps: seq<Step>): seq<Petition>
    decreases steps
  {
    if steps == [] then [] else QueuedBy(s, steps[0]) + Queued(Next(s, steps[0]), steps[1..])
  }

  function ConsumedBy(s: State, step: Step): seq<Petition> {
    if step.Dispatch? && Enabled(s, step) then [s.general[0]] else []
  }

  function Consumed(s: State, steps: seq<Step>): seq<Petition>
    decreases steps
  {
    if steps == [] then [] else ConsumedBy(s, steps[0]) + Consumed(Next(s, steps[0]), steps[1..])
  }

  lemma GeneralStep(s: State, step: Step)
    requires Enabled(s, step) && !step.Requeue?
    ensures s.general + QueuedBy(s, step) == ConsumedBy(s, step) + Apply(s, step).general
  {
    if step.Receive? { GeneralReceive(s, step.k); }
  }

  lemma GeneralReceive(s: State, k: nat)
    requires Enabled(s, Receive(k))
    ensures Apply(s, Receive(k)).general == s.general
  {
  }

  lemma {:induction false} GeneralRun(s: State, steps: seq<Step>, queued: seq<Petition>, consumed: seq<Petition>)
    requires NonePutBack(steps) && queued == consumed + s.general
    ensures queued + Queued(s, steps) == consumed + Consumed(s, steps) + Run(s, steps).general
    decreases steps
  {
    if steps == [] {
      assert queued + [] == queued && consumed + [] == consumed;
    } else {
      var more, gone := QueuedBy(s, steps[0]), ConsumedBy(s, steps[0]);
      var s' := Next(s, steps[0]);
      if Enabled(s, steps[0]) {
        GeneralStep(s, steps[0]);
        Chained(queued, consumed, s.general, more, gone, s'.general);
      } else {
        assert queued + [] == queued && consumed + [] == consumed;
      }
      GeneralRun(s', steps[1..], queued + more, consumed + gone);
      Regroup(queued, more, Queued(s', steps[1..]));
      Regroup(consumed, gone, Consumed(s', steps[1..]));
    }
  }

  /** As long as no dead disk's petitions are put back, the consumer takes, in order, all that clients
      and synchronisations asked for, but for what still waits. */
  lemma FirstQueuedFirstConsumed(total: nat, steps: seq<Step>)
    requires NonePutBack(steps)
    ensures Queued(Init(total), steps) == Consumed(Init(total), steps) + After(total, steps).general
  {
    GeneralRun(Init(total), steps, [], []);
    assert [] + Queued(Init(total), steps) == Queued(Init(total), steps);
    assert [] + Consumed(Init(total), steps) == Consumed(Init(total), steps);
  }
}
