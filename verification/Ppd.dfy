/** PPD/PPD.c: the disk process.  It turns sectors into cylinders, queues what arrives, and
    serves what its scheduler picks. */
module Ppd {
  import opened Arithmetic
  import opened Options
  import opened Seek
  import opened SeekQueue
  import Mirror
  import MirrorAccounts
  import MirrorInvariant
  import MirrorMarks
  import Petitions

  const TYPE_READ := 3
  const TYPE_WRITE := 4

  datatype Place = Place(cylinder: nat, sector: nat)

  function ToPhysical(n: nat, perTrack: nat): Place
    requires perTrack > 0
  {
    Place(n / perTrack, n % perTrack)
  }

  function ToLogical(p: Place, perTrack: nat): nat {
    p.cylinder * perTrack + p.sector
  }

  /** Logical sectors and places on the disk correspond one to one. */
  lemma SectorsRoundTrip(n: nat, p: Place, perTrack: nat)
    requires perTrack > 0
    ensures var place := ToPhysical(n, perTrack);
            place.sector < perTrack && n == place.cylinder * perTrack + place.sector
    ensures ToLogical(ToPhysical(n, perTrack), perTrack) == n
    ensures p.sector < perTrack ==> ToPhysical(ToLogical(p, perTrack), perTrack) == p
  {
    assert n == n / perTrack * perTrack + n % perTrack;
    if p.sector < perTrack { ModOf(p.cylinder, p.sector, perTrack); }
  }

  /** What the RAID assumes of a disk: whichever policy it uses, and however many of the
      requests on their way have reached its queue, the one it serves is preceded by none for
      the same sector. */
  lemma PicksWhatRaidAllows(wire: seq<Petitions.Petition>, queue: seq<Request>, policy: Policy, steps: nat, at: nat,
                            perTrack: nat)
    requires perTrack > 0 && 0 < |queue| <= |wire| && (policy.NSteps? ==> steps > 0)
    requires forall j :: 0 <= j < |queue| ==> queue[j].cylinder == ToPhysical(wire[j].sector, perTrack).cylinder
    ensures Mirror.MayServe(wire, Pick(policy, queue, steps, at))
  {
    var i := Pick(policy, queue, steps, at);
    forall j | 0 <= j < i
      ensures wire[j].sector != wire[i].sector
    {
      assert queue[j].cylinder != queue[i].cylinder;
    }
  }

  datatype Response = Response(kind: int, fd: int, sector: nat, data: seq<bv8>)

  class Process {
    const perTrack: nat
    const policy: Policy
    const waiting: Waiting
    var at: nat
    var content: map<nat, seq<bv8>>
    /** History. */
    var arrived: nat
    ghost var served: seq<Request>

    ghost predicate Valid()
      reads this, waiting, waiting.Repr
    {
      && waiting.Valid() && this !in waiting.Repr && perTrack > 0
      && (policy.NSteps? ==> waiting.steps <= policy.max == waiting.maxSteps)
    }

    /** The process as a scheduler. */
    ghost function Abs(): Scheduler
      reads this, waiting
    {
      Scheduler(policy, waiting.contents, if policy.NSteps? then waiting.steps else 0, at, arrived, served)
    }

    constructor (perTrack: nat, policy: Policy, content: map<nat, seq<bv8>>)
      requires perTrack > 0 && Configured(policy)
      ensures Valid() && fresh(waiting.Repr) && Abs() == Start(policy)
      ensures this.perTrack == perTrack && this.content == content
    {
      this.perTrack, this.policy, this.content := perTrack, policy, content;
      waiting := new Waiting(if policy.NSteps? then policy.max else 128);
      at, arrived, served := 0, 0, [];
    }

    /** A read or write arrives. */
    method Enqueue(fd: int, kind: int, sector: nat, data: seq<bv8>)
      requires Valid()
      modifies this, waiting.Repr
      ensures Valid() && fresh(waiting.Repr - old(waiting.Repr)) && content == old(content)
      ensures var p := ToPhysical(sector, perTrack);
              Abs() == Happen(old(Abs()), Arrive(kind, fd, p.cylinder, p.sector, data))
    {
      var p := ToPhysical(sector, perTrack);
      waiting.Push(Request(kind, fd, p.cylinder, p.sector, data, arrived));
      arrived := arrived + 1;
    }

    /** One request is taken from the queue, carried out and answered; the arm stays there. */
    method ServeNext() returns (r: Option<Response>)
      requires Valid()
      modifies this, waiting.Repr
      ensures Valid() && waiting.Repr == old(waiting.Repr)
      ensures Abs() == Happen(old(Abs()), Serve)
      ensures old(waiting.contents) == [] ==> r == None && content == old(content)
      ensures old(waiting.contents) != [] ==>
                var info := Abs().served[|old(Abs()).served|];
                && r == Some(Solved(info, perTrack, old(content)).0)
                && content == Solved(info, perTrack, old(content)).1 && at == info.cylinder
    {
      var next := Pop();
      r := None;
      if next.Some? {
        var info := next.value;
        at := info.cylinder;
        served := served + [info];
        var solved := Solved(info, perTrack, content);
        r := Some(solved.0);
        content := solved.1;
      }
    }

    method Pop() returns (next: Option<Request>)
      requires Valid()
      modifies waiting.Repr
      ensures Valid() && waiting.Repr == old(waiting.Repr)
      ensures old(waiting.contents) == [] ==> next == None && Abs() == old(Abs())
      ensures old(waiting.contents) != [] ==>
                var s := old(Abs());
                var i := Pick(policy, s.queue, s.steps, at);
                && next == Some(s.queue[i])
                && Abs() == s.(queue := Without(s.queue, i), steps := StepsAfter(policy, s.steps))
    {
      if policy.Sstf? {
        next := waiting.Sstf(at);
      } else {
        next := waiting.SstfNSteps(at);
      }
    }
  }

  /** The response to a request and the contents after it. */
  function Solved(info: Request, perTrack: nat, content: map<nat, seq<bv8>>): (Response, map<nat, seq<bv8>>) {
    var n := ToLogical(Place(info.cylinder, info.sector), perTrack);
    if info.kind == TYPE_READ then (Response(info.kind, info.fd, n, Mirror.Lookup(content, n)), content)
    else if info.kind == TYPE_WRITE then (Response(info.kind, info.fd, n, []), content[n := info.data])
    else (Response(info.kind, info.fd, n, []), content)
  }

  /** A sector written is read back, whatever is written elsewhere in between. */
  lemma WriteThenRead(n: nat, m: nat, perTrack: nat, w: Request, other: Request, r: Request,
                      content: map<nat, seq<bv8>>)
    requires perTrack > 0 && n != m && w.kind == other.kind == TYPE_WRITE && r.kind == TYPE_READ
    requires Place(w.cylinder, w.sector) == Place(r.cylinder, r.sector) == ToPhysical(n, perTrack)
    requires Place(other.cylinder, other.sector) == ToPhysical(m, perTrack)
    ensures var content1 := Solved(w, perTrack, content).1;
            var content2 := Solved(other, perTrack, content1).1;
            Solved(r, perTrack, content2).0 == Response(TYPE_READ, r.fd, n, w.data)
  {
    SectorsRoundTrip(n, ToPhysical(n, perTrack), perTrack);
    SectorsRoundTrip(m, ToPhysical(m, perTrack), perTrack);
  }

  // ---- the disk as the RAID sees it

  /** The process: the connection to the RAID, the scheduler, the file, and the responses sent. */
  datatype Device = Device(raid: int, scheduler: Scheduler, content: map<nat, seq<bv8>>, sent: seq<Response>)

  /** A petition arrives from the RAID, or the next request is served. */
  datatype Action = Deliver(p: Petitions.Petition) | Work

  function TypeOf(kind: Petitions.Kind): int {
    if kind.Read? then TYPE_READ else TYPE_WRITE
  }

  function Arrival(p: Petitions.Petition, raid: int, perTrack: nat): Event
    requires perTrack > 0
  {
    var place := ToPhysical(p.sector, perTrack);
    Arrive(TypeOf(p.kind), raid, place.cylinder, place.sector, p.data)
  }

  predicate Going(d: Device) {
    d.scheduler.policy.NSteps? ==> d.scheduler.policy.max > 0 && d.scheduler.steps > 0
  }

  function Act(d: Device, action: Action, perTrack: nat): (d': Device)
    requires perTrack > 0 && Going(d)
    ensures Going(d')
  {
    match action
    case Deliver(p) => d.(scheduler := Happen(d.scheduler, Arrival(p, d.raid, perTrack)))
    case Work =>
      if d.scheduler.queue == [] then d
      else
        var s := d.scheduler;
        var solved := Solved(s.queue[Pick(s.policy, s.queue, s.steps, s.at)], perTrack, d.content);
        d.(scheduler := Happen(s, Serve), content := solved.1, sent := d.sent + [solved.0])
  }

  function ActAll(d: Device, actions: seq<Action>, perTrack: nat): (d': Device)
    requires perTrack > 0 && Going(d)
    ensures Going(d')
    decreases actions
  {
    if actions == [] then d else ActAll(Act(d, actions[0], perTrack), actions[1..], perTrack)
  }

  function Delivered(actions: seq<Action>): seq<Petitions.Petition> {
    if actions == [] then []
    else (if actions[0].Deliver? then [actions[0].p] else []) + Delivered(actions[1..])
  }

  predicate Carries(r: Request, p: Petitions.Petition, raid: int, perTrack: nat)
    requires perTrack > 0
  {
    && r.kind == TypeOf(p.kind) && r.fd == raid && r.data == p.data
    && Place(r.cylinder, r.sector) == ToPhysical(p.sector, perTrack)
  }

  predicate Says(sent: Response, resp: Mirror.Response, raid: int) {
    sent == Response(TypeOf(resp.kind), raid, resp.sector, resp.data)
  }

  /** The process holds the contents, its queue is the front of the wire, and its last responses
      are those still to be received. */
  predicate Matches(d: Device, disk: Mirror.Disk, perTrack: nat)
    requires perTrack > 0
  {
    var queue := d.scheduler.queue;
    && d.content == disk.content
    && |queue| <= |disk.wire| && (forall j :: 0 <= j < |queue| ==> Carries(queue[j], disk.wire[j], d.raid, perTrack))
    && |disk.resp| <= |d.sent|
    && (forall j :: 0 <= j < |disk.resp| ==> Says(d.sent[|d.sent| - |disk.resp| + j], disk.resp[j], d.raid))
  }

  lemma SolvedAsExpected(r: Request, p: Petitions.Petition, disk: Mirror.Disk, i: nat, raid: int, perTrack: nat)
    requires perTrack > 0 && i < |disk.wire| && disk.wire[i] == p && Carries(r, p, raid, perTrack)
    ensures var solved := Solved(r, perTrack, disk.content);
            var disk' := Mirror.ServeOne(disk, i);
            && disk'.content == solved.1
            && |disk'.resp| == |disk.resp| + 1 && disk'.resp == disk.resp + [disk'.resp[|disk.resp|]]
            && Says(solved.0, disk'.resp[|disk.resp|], raid)
  {
    SectorsRoundTrip(p.sector, ToPhysical(p.sector, perTrack), perTrack);
  }

  /** Serving is a step that the RAID allows for, and gives the response it expects. */
  lemma WorkIsServe(d: Device, disk: Mirror.Disk, perTrack: nat)
    requires perTrack > 0 && Going(d) && Matches(d, disk, perTrack) && d.scheduler.queue != []
    ensures var s := d.scheduler;
            var i := Pick(s.policy, s.queue, s.steps, s.at);
            Mirror.MayServe(disk.wire, i) && Matches(Act(d, Work, perTrack), Mirror.ServeOne(disk, i), perTrack)
  {
    var s := d.scheduler;
    var i := Pick(s.policy, s.queue, s.steps, s.at);
    PicksWhatRaidAllows(disk.wire, s.queue, s.policy, s.steps, s.at, perTrack);
    assert Carries(s.queue[i], disk.wire[i], d.raid, perTrack);
    SolvedAsExpected(s.queue[i], disk.wire[i], disk, i, d.raid, perTrack);
    FrontKept(s.queue, disk.wire, i, d.raid, perTrack);
    var solved := Solved(s.queue[i], perTrack, d.content);
    SaidMore(d.sent, disk.resp, solved.0, Mirror.ServeOne(disk, i).resp[|disk.resp|], d.raid);
  }

  lemma SaidMore(sent: seq<Response>, resp: seq<Mirror.Response>, last: Response, next: Mirror.Response, raid: int)
    requires |resp| <= |sent| && forall j :: 0 <= j < |resp| ==> Says(sent[|sent| - |resp| + j], resp[j], raid)
    requires Says(last, next, raid)
    ensures forall j :: 0 <= j <= |resp| ==> Says((sent + [last])[|sent| - |resp| + j], (resp + [next])[j], raid)
  {
  }

  lemma FrontKept(queue: seq<Request>, wire: seq<Petitions.Petition>, i: nat, raid: int, perTrack: nat)
    requires perTrack > 0 && i < |queue| <= |wire|
    requires forall j :: 0 <= j < |queue| ==> Carries(queue[j], wire[j], raid, perTrack)
    ensures forall j :: 0 <= j < |queue| - 1 ==> Carries(Without(queue, i)[j], Without(wire, i)[j], raid, perTrack)
  {
    forall j | 0 <= j < |queue| - 1
      ensures Carries(Without(queue, i)[j], Without(wire, i)[j], raid, perTrack)
    {
      var j' := if j < i then j else j + 1;
      assert Without(queue, i)[j] == queue[j'] && Without(wire, i)[j] == wire[j'];
    }
  }

  lemma WorkStep(d: Device, s: Mirror.State, k: nat, perTrack: nat) returns (step: Mirror.Step)
    requires perTrack > 0 && Going(d) && d.scheduler.queue != []
    requires s.running && k < |s.ring| && Matches(d, s.ring[k], perTrack)
    ensures step.Serve? && step.k == k && Mirror.Enabled(s, step)
    ensures var s' := Mirror.Apply(s, step);
            var d' := Act(d, Work, perTrack);
            && s'.running && |s'.ring| == |s.ring| && Matches(d', s'.ring[k], perTrack)
            && s'.ring[k].wire[|d'.scheduler.queue|..] == s.ring[k].wire[|d.scheduler.queue|..]
  {
    WorkIsServe(d, s.ring[k], perTrack);
    step := Mirror.Serve(k, Pick(d.scheduler.policy, d.scheduler.queue, d.scheduler.steps, d.scheduler.at));
  }

  /** The steps serve disk `k`, and leave it as the process is after its actions. */
  predicate Serves(s: Mirror.State, k: nat, steps: seq<Mirror.Step>, d: Device, perTrack: nat)
    requires perTrack > 0
  {
    var s' := Mirror.Run(s, steps);
    && (forall j :: 0 <= j < |steps| ==> steps[j].Serve? && steps[j].k == k)
    && k < |s'.ring| == |s.ring| && Matches(d, s'.ring[k], perTrack)
  }

  lemma ServesOneMore(s: Mirror.State, k: nat, step: Mirror.Step, rest: seq<Mirror.Step>, d: Device, perTrack: nat)
    requires perTrack > 0 && Mirror.Enabled(s, step) && step.Serve? && step.k == k
    requires |Mirror.Apply(s, step).ring| == |s.ring| && Serves(Mirror.Apply(s, step), k, rest, d, perTrack)
    ensures Serves(s, k, [step] + rest, d, perTrack)
  {
    assert ([step] + rest)[1..] == rest;
  }

  /** Any run of the process over what the RAID sends it is a run of service steps of the RAID's
      disk, with the same contents and the same responses. */
  lemma {:induction false} ProcessRunIsServeRun(d: Device, s: Mirror.State, k: nat, actions: seq<Action>, perTrack: nat)
      returns (steps: seq<Mirror.Step>)
    requires perTrack > 0 && Going(d) && s.running && k < |s.ring| && Matches(d, s.ring[k], perTrack)
    requires Delivered(actions) <= s.ring[k].wire[|d.scheduler.queue|..]
    ensures Serves(s, k, steps, ActAll(d, actions, perTrack), perTrack)
    decreases actions
  {
    steps := [];
    if actions != [] {
      var d' := Act(d, actions[0], perTrack);
      if actions[0].Work? && d.scheduler.queue != [] {
        var step := WorkStep(d, s, k, perTrack);
        var rest := ProcessRunIsServeRun(d', Mirror.Apply(s, step), k, actions[1..], perTrack);
        ServesOneMore(s, k, step, rest, ActAll(d, actions, perTrack), perTrack);
        steps := [step] + rest;
      } else {
        if actions[0].Deliver? { DeliverMatches(d, s.ring[k], actions, perTrack); }
        steps := ProcessRunIsServeRun(d', s, k, actions[1..], perTrack);
      }
    }
  }

  lemma DeliverMatches(d: Device, disk: Mirror.Disk, actions: seq<Action>, perTrack: nat)
    requires perTrack > 0 && Going(d) && Matches(d, disk, perTrack) && actions != [] && actions[0].Deliver?
    requires Delivered(actions) <= disk.wire[|d.scheduler.queue|..]
    ensures var d' := Act(d, actions[0], perTrack);
            Matches(d', disk, perTrack) && Delivered(actions[1..]) <= disk.wire[|d'.scheduler.queue|..]
  {
    var n := |d.scheduler.queue|;
    assert Delivered(actions)[0] == actions[0].p == disk.wire[n];
    assert disk.wire[n..][1..] == disk.wire[n + 1..];
    assert Delivered(actions)[1..] == Delivered(actions[1..]);
    NextMatches(d, disk, perTrack);
  }

  lemma NextMatches(d: Device, disk: Mirror.Disk, perTrack: nat)
    requires perTrack > 0 && Going(d) && Matches(d, disk, perTrack) && |d.scheduler.queue| < |disk.wire|
    ensures var n := |d.scheduler.queue|;
            var d' := Act(d, Deliver(disk.wire[n]), perTrack);
            |d'.scheduler.queue| == n + 1 && Matches(d', disk, perTrack)
  {
    var queue := d.scheduler.queue;
    var d' := Act(d, Deliver(disk.wire[|queue|]), perTrack);
    assert Carries(d'.scheduler.queue[|queue|], disk.wire[|queue|], d'.raid, perTrack);
    assert d'.scheduler.queue[..|queue|] == queue && d'.sent == d.sent;
  }

  /** The contents stay, the wire grows at its end, and responses go from the front. */
  predicate KeepsEnd(d: Mirror.Disk, e: Mirror.Disk) {
    && e.content == d.content && d.wire <= e.wire
    && (e.resp == d.resp || (d.resp != [] && e.resp == d.resp[1..]))
  }

  lemma ReadKeepsEnd(s: Mirror.State, i: nat)
    requires Mirror.Enabled(s, Mirror.Dispatch) && s.general[0].kind.Read? && i < |s.ring|
    requires MirrorMarks.Before(s, Mirror.Dispatch, i) < |s.ring|
    ensures var ring := Mirror.DispatchRead(s).ring;
            |ring| == |s.ring| && KeepsEnd(s.ring[MirrorMarks.Before(s, Mirror.Dispatch, i)], ring[i])
  {
    MirrorInvariant.ReadPlace(s, i);
  }

  lemma CopyKeepsEnd(s: Mirror.State, i: nat)
    requires Mirror.Enabled(s, Mirror.Copy) && i < |s.ring|
    ensures var ring := Mirror.CopyStep(s).ring;
            |ring| == |s.ring| && KeepsEnd(s.ring[MirrorMarks.Before(s, Mirror.Copy, i)], ring[i])
  {
  }

  lemma ThreadKeepsEnd(s: Mirror.State, step: Mirror.Step, i: nat)
    requires Mirror.Enabled(s, step) && (step.Send? || step.Serve?) && i < |s.ring| && (step.Serve? ==> step.k != i)
    ensures |Mirror.Apply(s, step).ring| == |s.ring| && KeepsEnd(s.ring[i], Mirror.Apply(s, step).ring[i])
  {
  }

  lemma ReceiveKeepsEnd(s: Mirror.State, k: nat, i: nat)
    requires Mirror.Enabled(s, Mirror.Receive(k)) && i < |s.ring|
    ensures var s' := Mirror.Apply(s, Mirror.Receive(k)); |s'.ring| == |s.ring| && KeepsEnd(s.ring[i], s'.ring[i])
  {
    SettledKeepsEnd(s, k, i);
    var e := MirrorAccounts.RingSettled(s, k)[i];
    var e' := Mirror.Apply(s, Mirror.Receive(k)).ring[i];
    assert e'.content == e.content && e'.wire == e.wire && e'.resp == e.resp;
  }

  lemma SettledKeepsEnd(s: Mirror.State, k: nat, i: nat)
    requires Mirror.Enabled(s, Mirror.Receive(k)) && i < |s.ring|
    ensures |MirrorAccounts.RingSettled(s, k)| == |s.ring| && KeepsEnd(s.ring[i], MirrorAccounts.RingSettled(s, k)[i])
  {
  }

  lemma DieKeepsEnd(s: Mirror.State, k: nat, i: nat)
    requires Mirror.Enabled(s, Mirror.Die(k)) && i < |Mirror.Apply(s, Mirror.Die(k)).ring|
    requires MirrorMarks.Before(s, Mirror.Die(k), i) < |s.ring|
    ensures KeepsEnd(s.ring[MirrorMarks.Before(s, Mirror.Die(k), i)], Mirror.Apply(s, Mirror.Die(k)).ring[i])
  {
  }

  /** All steps of the RAID but the service of this disk. */
  lemma OtherStepsKeepEnd(s: Mirror.State, step: Mirror.Step, i: nat)
    requires Mirror.Enabled(s, step) && i < |Mirror.Apply(s, step).ring|
    requires var j := MirrorMarks.Before(s, step, i); j < |s.ring| && (step.Serve? ==> step.k != j)
    ensures KeepsEnd(s.ring[MirrorMarks.Before(s, step, i)], Mirror.Apply(s, step).ring[i])
  {
    match step
    case Dispatch => if s.general[0].kind.Read? { ReadKeepsEnd(s, i); }
    case Copy => CopyKeepsEnd(s, i);
    case Send(_) => ThreadKeepsEnd(s, step, i);
    case Serve(_, _) => ThreadKeepsEnd(s, step, i);
    case Receive(k) => ReceiveKeepsEnd(s, k, i);
    case Die(k) => DieKeepsEnd(s, k, i);
    case _ =>
  }

  lemma KeptEndMatches(d: Device, disk: Mirror.Disk, e: Mirror.Disk, perTrack: nat)
    requires perTrack > 0 && Matches(d, disk, perTrack) && KeepsEnd(disk, e)
    ensures Matches(d, e, perTrack)
  {
  }

  /** They leave the process the view it has of its disk. */
  lemma OtherStepsMatch(d: Device, s: Mirror.State, step: Mirror.Step, i: nat, perTrack: nat)
    requires perTrack > 0 && Mirror.Enabled(s, step) && i < |Mirror.Apply(s, step).ring|
    requires var j := MirrorMarks.Before(s, step, i);
             j < |s.ring| && (step.Serve? ==> step.k != j) && Matches(d, s.ring[j], perTrack)
    ensures Matches(d, Mirror.Apply(s, step).ring[i], perTrack)
  {
    OtherStepsKeepEnd(s, step, i);
    KeptEndMatches(d, s.ring[MirrorMarks.Before(s, step, i)], Mirror.Apply(s, step).ring[i], perTrack);
  }
}
