/** PPD/algoritmos.c: which request the disk serves next, and what that means over a whole run
    of arrivals and services. */
module Seek {
  import opened Arithmetic
  import opened Options

  /** `arrival` numbers the requests as they come (history). */
  datatype Request = Request(kind: int, fd: int, cylinder: nat, sector: nat, data: seq<bv8>, arrival: nat)

  /** A 32-bit difference read as a signed number. */
  function ToInt32(x: int): int {
    var m := x % 0x1_0000_0000;
    if m < 0x8000_0000 then m else m - 0x1_0000_0000
  }

  function Modulo(value: int): nat {
    if value < 0 then -value else value
  }

  function Distance(r: Request, at: nat): nat {
    Modulo(ToInt32(r.cylinder - at))
  }

  /** On disks of fewer than 2^31 cylinders it is the seek distance. */
  lemma DistanceIsExact(r: Request, at: nat)
    ensures r.cylinder - at < 0x8000_0000 && at - r.cylinder < 0x8000_0000 ==>
              Distance(r, at) == if r.cylinder < at then at - r.cylinder else r.cylinder - at
  {
  }

  /** The earliest of the requests at minimal distance. */
  function Nearest(q: seq<Request>, at: nat): (i: nat)
    requires q != []
    ensures i < |q|
    ensures forall j :: 0 <= j < |q| ==> Distance(q[i], at) <= Distance(q[j], at)
    ensures forall j :: 0 <= j < i ==> Distance(q[i], at) < Distance(q[j], at)
  {
    if |q| == 1 then 0
    else
      var n := |q| - 1;
      var i := Nearest(q[..n], at);
      if Distance(q[n], at) < Distance(q[i], at) then n else i
  }

  /** How many requests `sstf_nSteps` looks at: `steps` as an eight-bit counter that is
      decremented before it is first tested. */
  function Window(steps: nat): (w: nat)
    requires steps > 0
    ensures 0 < w <= steps && w <= 256 && (steps - w) % 256 == 0
  {
    if steps % 256 == 0 then 256 else steps % 256
  }

  datatype Policy = Sstf | NSteps(max: nat)

  datatype Scheduler = Scheduler(policy: Policy, queue: seq<Request>, steps: nat, at: nat, arrived: nat,
                                 served: seq<Request>)

  datatype Event = Arrive(kind: int, fd: int, cylinder: nat, sector: nat, data: seq<bv8>) | Serve

  function Candidates(policy: Policy, queue: seq<Request>, steps: nat): (q: seq<Request>)
    requires policy.NSteps? ==> steps > 0
    ensures queue != [] ==> q != []
    ensures q <= queue
  {
    if policy.Sstf? || |queue| < Window(steps) then queue else queue[..Window(steps)]
  }

  function Pick(policy: Policy, queue: seq<Request>, steps: nat, at: nat): (i: nat)
    requires queue != [] && (policy.NSteps? ==> steps > 0)
    ensures i < |queue|
    ensures forall j :: 0 <= j < i ==> queue[j].cylinder != queue[i].cylinder
    ensures policy.NSteps? ==> i < steps
  {
    Nearest(Candidates(policy, queue, steps), at)
  }

  function StepsAfter(policy: Policy, steps: nat): nat {
    if policy.Sstf? then steps else if steps <= 1 then policy.max else steps - 1
  }

  function Start(policy: Policy): Scheduler {
    Scheduler(policy, [], if policy.NSteps? then policy.max else 0, 0, 0, [])
  }

  predicate Configured(policy: Policy) {
    policy.NSteps? ==> policy.max > 0
  }

  /** After a service the arm stays where it went.  Without requests nothing is served. */
  function Happen(s: Scheduler, e: Event): Scheduler
    requires s.policy.NSteps? ==> s.steps > 0
  {
    match e
    case Arrive(kind, fd, cylinder, sector, data) =>
      s.(queue := s.queue + [Request(kind, fd, cylinder, sector, data, s.arrived)], arrived := s.arrived + 1)
    case Serve =>
      if s.queue == [] then s
      else
        var i := Pick(s.policy, s.queue, s.steps, s.at);
        s.(queue := Without(s.queue, i), steps := StepsAfter(s.policy, s.steps),
           at := s.queue[i].cylinder, served := s.served + [s.queue[i]])
  }

  function After(policy: Policy, events: seq<Event>): (s: Scheduler)
    requires Configured(policy)
    ensures s.policy == policy && (policy.NSteps? ==> s.steps > 0)
  {
    if events == [] then Start(policy)
    else Happen(After(policy, events[..|events| - 1]), events[|events| - 1])
  }

  // ---- order

  predicate Ascending(q: seq<Request>) {
    forall i, j :: 0 <= i < j < |q| ==> q[i].arrival < q[j].arrival
  }

  predicate Apart(served: seq<Request>, queue: seq<Request>) {
    forall t, i :: 0 <= t < |served| && 0 <= i < |queue| ==> served[t].arrival != queue[i].arrival
  }

  predicate Distinct(served: seq<Request>) {
    forall t, u :: 0 <= t < u < |served| ==> served[t].arrival != served[u].arrival
  }

  predicate Below(q: seq<Request>, n: nat) {
    forall i :: 0 <= i < |q| ==> q[i].arrival < n
  }

  /** Waiting requests are in order of arrival, and each arrival is waiting or was served,
      once. */
  ghost predicate NoneLost(s: Scheduler) {
    && Ascending(s.queue) && Apart(s.served, s.queue) && Distinct(s.served)
    && s.arrived == |s.served| + |s.queue| && Below(s.queue, s.arrived) && Below(s.served, s.arrived)
  }

  /** Requests for the same cylinder were served, and will be, in order of arrival. */
  ghost predicate Fifo(s: Scheduler) {
    ServedBefore(s.served, s.queue) && ServedInOrder(s.served)
  }

  ghost predicate ServedBefore(served: seq<Request>, queue: seq<Request>) {
    forall t, i :: 0 <= t < |served| && 0 <= i < |queue| && served[t].cylinder == queue[i].cylinder ==>
      served[t].arrival < queue[i].arrival
  }

  ghost predicate ServedInOrder(served: seq<Request>) {
    forall t, u :: 0 <= t < u < |served| && served[t].cylinder == served[u].cylinder ==>
      served[t].arrival < served[u].arrival
  }

  lemma TakeOut(served: seq<Request>, queue: seq<Request>, i: nat)
    requires Ascending(queue) && Apart(served, queue) && i < |queue|
    ensures Ascending(Without(queue, i)) && Apart(served + [queue[i]], Without(queue, i))
  {
    var q := Without(queue, i);
    assert forall j :: 0 <= j < |q| ==> q[j] == queue[if j < i then j else j + 1];
  }

  lemma TakenOutOnce(served: seq<Request>, queue: seq<Request>, i: nat, arrived: nat)
    requires Apart(served, queue) && Distinct(served) && i < |queue| && Below(queue, arrived) && Below(served, arrived)
    ensures Distinct(served + [queue[i]]) && Below(served + [queue[i]], arrived) && Below(Without(queue, i), arrived)
  {
    var q := Without(queue, i);
    assert forall j :: 0 <= j < |q| ==> q[j] == queue[if j < i then j else j + 1];
  }

  lemma NoneLostServe(s: Scheduler)
    requires NoneLost(s) && s.queue != [] && (s.policy.NSteps? ==> s.steps > 0)
    ensures NoneLost(Happen(s, Serve))
  {
    var i := Pick(s.policy, s.queue, s.steps, s.at);
    TakeOut(s.served, s.queue, i);
    TakenOutOnce(s.served, s.queue, i, s.arrived);
  }

  lemma ServedBeforeServe(served: seq<Request>, queue: seq<Request>, i: nat)
    requires ServedBefore(served, queue) && Ascending(queue) && i < |queue|
    requires forall j :: 0 <= j < i ==> queue[j].cylinder != queue[i].cylinder
    ensures ServedBefore(served + [queue[i]], Without(queue, i))
  {
    var q := Without(queue, i);
    assert forall j :: 0 <= j < |q| ==> q[j] == queue[if j < i then j else j + 1];
  }

  lemma FifoServe(s: Scheduler)
    requires Ascending(s.queue) && Fifo(s) && s.queue != [] && (s.policy.NSteps? ==> s.steps > 0)
    ensures Fifo(Happen(s, Serve))
  {
    ServedBeforeServe(s.served, s.queue, Pick(s.policy, s.queue, s.steps, s.at));
  }

  ghost predicate Orderly(s: Scheduler) {
    NoneLost(s) && Fifo(s)
  }

  lemma OrderlyStep(s: Scheduler, e: Event)
    requires Orderly(s) && (s.policy.NSteps? ==> s.steps > 0)
    ensures Orderly(Happen(s, e))
  {
    if e.Serve? && s.queue != [] {
      NoneLostServe(s);
      FifoServe(s);
    }
  }

  lemma {:induction false} OrderlyAlways(policy: Policy, events: seq<Event>)
    requires Configured(policy)
    ensures Orderly(After(policy, events))
  {
    if events != [] {
      OrderlyAlways(policy, events[..|events| - 1]);
      OrderlyStep(After(policy, events[..|events| - 1]), events[|events| - 1]);
    }
  }

  /** Both policies serve the requests for one cylinder in the order they arrived. */
  lemma SameCylinderFifo(policy: Policy, events: seq<Event>, t: nat, u: nat)
    requires Configured(policy) && t < u < |After(policy, events).served|
    ensures var served := After(policy, events).served;
            served[t].cylinder == served[u].cylinder ==> served[t].arrival < served[u].arrival
  {
    OrderlyAlways(policy, events);
  }

  // ---- fairness of SSTF in steps

  /** The first arrival of the epoch that service `t` belongs to. */
  function Base(t: nat, max: nat): (b: nat)
    requires max > 0
    ensures b <= t < b + max
  {
    t - t % max
  }

  lemma BaseNext(t: nat, max: nat)
    requires max > 0
    ensures Base(t + 1, max) == if t + 1 == Base(t, max) + max then t + 1 else Base(t, max)
  {
    var q := t / max;
    assert t == q * max + t % max;
    if t % max + 1 == max {
      assert t + 1 == (q + 1) * max;
      assert (t + 1) % max == 0 by { ModOf(q + 1, 0, max); }
    } else {
      ModOf(q, t % max + 1, max);
    }
  }

  predicate InEpoch(arrival: nat, t: nat, max: nat)
    requires max > 0
  {
    Base(t, max) <= arrival < Base(t, max) + max
  }

  /** Of the waiting requests the first `steps` belong to the current epoch; the rest follow
      the number of the services without a gap. */
  ghost predicate Epochs(s: Scheduler) {
    s.policy.NSteps? && s.policy.max > 0 &&
    var max := s.policy.max;
    var t := |s.served|;
    && s.steps == Base(t, max) + max - t
    && s.arrived == t + |s.queue|
    && (forall j :: 0 <= j < |s.queue| && j < s.steps ==> InEpoch(s.queue[j].arrival, t, max))
    && (forall j :: s.steps <= j < |s.queue| ==> s.queue[j].arrival == t + j)
    && (forall u :: 0 <= u < t ==> InEpoch(s.served[u].arrival, u, max))
  }

  lemma EpochsServe(s: Scheduler)
    requires Epochs(s) && s.queue != []
    ensures Epochs(Happen(s, Serve))
  {
    var s' := Happen(s, Serve);
    var max := s.policy.max;
    var t := |s.served|;
    var i := Pick(s.policy, s.queue, s.steps, s.at);
    BaseNext(t, max);
    assert forall j :: 0 <= j < |s'.queue| ==> s'.queue[j] == s.queue[if j < i then j else j + 1];
    assert InEpoch(s.queue[i].arrival, t, max);
  }

  lemma {:induction false} EpochsAlways(max: nat, events: seq<Event>)
    requires max > 0
    ensures Epochs(After(NSteps(max), events))
  {
    if events == [] {
      assert Base(0, max) == 0;
    } else {
      var s := After(NSteps(max), events[..|events| - 1]);
      EpochsAlways(max, events[..|events| - 1]);
      if events[|events| - 1].Serve? && s.queue != [] { EpochsServe(s); }
    }
  }

  // ---- what every service does

  /** The cylinder of the request last served, 0 before the first. */
  function ArmAt(served: seq<Request>): nat {
    if served == [] then 0 else served[|served| - 1].cylinder
  }

  lemma {:induction false} ArmAlways(policy: Policy, events: seq<Event>)
    requires Configured(policy)
    ensures After(policy, events).at == ArmAt(After(policy, events).served)
  {
    if events != [] { ArmAlways(policy, events[..|events| - 1]); }
  }

  /** How many of the waiting requests service `t` looks at. */
  function LooksAt(policy: Policy, t: nat, waiting: nat): (w: nat)
    requires Configured(policy)
    ensures w <= waiting
    ensures policy.Sstf? ==> w == waiting
    ensures policy.NSteps? && policy.max <= 256 ==>
              var left := policy.max - t % policy.max; w == if waiting < left then waiting else left
  {
    if policy.Sstf? then waiting
    else
      var w := Window(policy.max - t % policy.max);
      if waiting < w then waiting else w
  }

  /** Of the first `w` requests, the `i`-th is the first one that is nearest to the arm. */
  predicate FirstNearest(q: seq<Request>, w: nat, i: nat, at: nat) {
    && i < w <= |q|
    && (forall j :: 0 <= j < w ==> Distance(q[i], at) <= Distance(q[j], at))
    && (forall j :: 0 <= j < i ==> Distance(q[i], at) < Distance(q[j], at))
  }

  lemma NearestIsFirst(q: seq<Request>, w: nat, at: nat)
    requires 0 < w <= |q|
    ensures FirstNearest(q, w, Nearest(q[..w], at), at)
  {
  }

  lemma CandidatesLookedAt(policy: Policy, queue: seq<Request>, steps: nat, t: nat)
    requires Configured(policy) && (policy.NSteps? ==> steps == policy.max - t % policy.max)
    ensures Candidates(policy, queue, steps) == queue[..LooksAt(policy, t, |queue|)]
  {
  }

  lemma StepsLeft(policy: Policy, events: seq<Event>)
    requires Configured(policy)
    ensures var s := After(policy, events); policy.NSteps? ==> s.steps == policy.max - |s.served| % policy.max
  {
    if policy.NSteps? { EpochsAlways(policy.max, events); }
  }

  lemma PicksNearest(policy: Policy, events: seq<Event>)
    requires Configured(policy) && After(policy, events).queue != []
    ensures var s := After(policy, events);
            FirstNearest(s.queue, LooksAt(policy, |s.served|, |s.queue|), Pick(policy, s.queue, s.steps, s.at),
                         ArmAt(s.served))
  {
    var s := After(policy, events);
    ArmAlways(policy, events);
    StepsLeft(policy, events);
    CandidatesLookedAt(policy, s.queue, s.steps, |s.served|);
    NearestIsFirst(s.queue, LooksAt(policy, |s.served|, |s.queue|), s.at);
  }

  /** The `t`-th service takes, of the requests that the policy looks at among those then waiting,
      the first one that is nearest to the request served before it; it is event `n`, and finds its
      request `i`-th in the queue. */
  lemma {:induction false} ServedNearest(policy: Policy, events: seq<Event>, t: nat) returns (n: nat, i: nat)
    requires Configured(policy) && t < |After(policy, events).served|
    ensures n < |events| && events[n].Serve?
    ensures var s := After(policy, events[..n]);
            var served := After(policy, events).served;
            && s.served == served[..t] && i < |s.queue| && served[t] == s.queue[i]
            && FirstNearest(s.queue, LooksAt(policy, t, |s.queue|), i, ArmAt(served[..t]))
    decreases |events|
  {
    n := |events| - 1;
    var s := After(policy, events[..n]);
    if t < |s.served| {
      var before := events[..n];
      ServedMore(s, events[n], t);
      n, i := ServedNearest(policy, before, t);
      assert before[..n] == events[..n];
    } else {
      i := Pick(policy, s.queue, s.steps, s.at);
      PicksNearest(policy, events[..n]);
      assert After(policy, events).served[..t] == s.served;
    }
  }

  lemma ServedMore(s: Scheduler, e: Event, t: nat)
    requires (s.policy.NSteps? ==> s.steps > 0) && t < |s.served|
    ensures var served := Happen(s, e).served; t < |served| && served[t] == s.served[t] && served[..t] == s.served[..t]
  {
  }

  /** The requests that the events bring, in order. */
  function Arrivals(events: seq<Event>): seq<Request> {
    if events == [] then []
    else
      var most := Arrivals(events[..|events| - 1]);
      match events[|events| - 1]
      case Arrive(kind, fd, cylinder, sector, data) => most + [Request(kind, fd, cylinder, sector, data, |most|)]
      case Serve => most
  }

  predicate AreArrivals(q: seq<Request>, arrivals: seq<Request>) {
    forall i :: 0 <= i < |q| ==> q[i].arrival < |arrivals| && q[i] == arrivals[q[i].arrival]
  }

  ghost predicate FromArrivals(s: Scheduler, arrivals: seq<Request>) {
    s.arrived == |arrivals| && AreArrivals(s.queue, arrivals) && AreArrivals(s.served, arrivals)
  }

  lemma ArrivalServed(s: Scheduler, arrivals: seq<Request>)
    requires FromArrivals(s, arrivals) && s.queue != [] && (s.policy.NSteps? ==> s.steps > 0)
    ensures FromArrivals(Happen(s, Serve), arrivals)
  {
    var i := Pick(s.policy, s.queue, s.steps, s.at);
    assert forall j :: 0 <= j < |s.queue| - 1 ==> Without(s.queue, i)[j] == s.queue[if j < i then j else j + 1];
  }

  lemma ArrivalsMore(q: seq<Request>, arrivals: seq<Request>, r: Request)
    requires AreArrivals(q, arrivals)
    ensures AreArrivals(q, arrivals + [r])
    ensures r.arrival == |arrivals| ==> AreArrivals(q + [r], arrivals + [r])
  {
  }

  /** What waits and what was served is what arrived. */
  lemma {:induction false} AsArrived(policy: Policy, events: seq<Event>)
    requires Configured(policy)
    ensures FromArrivals(After(policy, events), Arrivals(events))
  {
    if events != [] {
      var n := |events| - 1;
      AsArrived(policy, events[..n]);
      var s := After(policy, events[..n]);
      if events[n].Serve? {
        if s.queue != [] { ArrivalServed(s, Arrivals(events)); }
      } else {
        var before := Arrivals(events[..n]);
        ArrivalsMore(s.queue, before, Arrivals(events)[|before|]);
        ArrivalsMore(s.served, before, Arrivals(events)[|before|]);
      }
    }
  }

  /** The request served `t`-th is one of the `t / max`-th group of `max` arrivals. */
  lemma ServedInItsEpoch(max: nat, events: seq<Event>, t: nat)
    requires max > 0 && t < |After(NSteps(max), events).served|
    ensures After(NSteps(max), events).served[t].arrival / max == t / max
  {
    EpochsAlways(max, events);
    EpochNumber(After(NSteps(max), events).served[t].arrival, t, max);
  }

  lemma EpochNumber(k: nat, t: nat, max: nat)
    requires max > 0 && InEpoch(k, t, max)
    ensures k / max == t / max
  {
    assert k == k / max * max + k % max && Base(t, max) == t / max * max;
    if k / max < t / max { MulGap(k / max, t / max, max); }
    if t / max < k / max { MulGap(t / max, k / max, max); }
  }

  /** So a younger request is served first only within an epoch: fewer than `max` services
      apart. */
  lemma OvertakenWithinEpoch(max: nat, events: seq<Event>, t: nat, u: nat)
    requires max > 0 && t < u < |After(NSteps(max), events).served|
    ensures var served := After(NSteps(max), events).served;
            served[u].arrival < served[t].arrival ==> t / max == u / max && u - t < max
  {
    var served := After(NSteps(max), events).served;
    if served[u].arrival < served[t].arrival {
      EpochsAlways(max, events);
      assert InEpoch(served[t].arrival, t, max) && InEpoch(served[u].arrival, u, max);
      SameBase(t, u, max);
    }
  }

  /** Epochs do not interleave. */
  lemma SameBase(t: nat, u: nat, max: nat)
    requires max > 0 && t <= u
    ensures t / max <= u / max && Base(t, max) == t / max * max && Base(u, max) == u / max * max
    ensures t / max < u / max ==> Base(t, max) + max <= Base(u, max)
  {
    assert t == t / max * max + t % max && u == u / max * max + u % max;
    if u / max < t / max { MulGap(u / max, t / max, max); }
    if t / max < u / max { MulGap(t / max, u / max, max); }
  }

  /** A request still waiting has seen fewer than `max` younger ones go first. */
  lemma WaitsBehindFewerThanMax(max: nat, events: seq<Event>, i: nat, t: nat)
    requires max > 0
    requires var s := After(NSteps(max), events); i < |s.queue| && t < |s.served|
    ensures var s := After(NSteps(max), events);
            s.served[t].arrival > s.queue[i].arrival ==> |s.served| - t < max
  {
    var s := After(NSteps(max), events);
    EpochsAlways(max, events);
    assert InEpoch(s.served[t].arrival, t, max);
    SameBase(t, |s.served|, max);
    if i < s.steps { assert InEpoch(s.queue[i].arrival, |s.served|, max); }
  }

  /** Once an epoch is over, all of its arrivals have been served, during it. */
  lemma EpochServesAll(max: nat, events: seq<Event>, k: nat) returns (t: nat)
    requires max > 0 && k / max < |After(NSteps(max), events).served| / max
    ensures var served := After(NSteps(max), events).served;
            t < |served| && served[t].arrival == k && t / max == k / max
  {
    EpochsAlways(max, events);
    OrderlyAlways(NSteps(max), events);
    t := PastArrivalServed(After(NSteps(max), events), k);
    ServedInItsEpoch(max, events, t);
  }

  lemma PastArrivalServed(s: Scheduler, k: nat) returns (t: nat)
    requires Epochs(s) && NoneLost(s) && k / s.policy.max < |s.served| / s.policy.max
    ensures t < |s.served| && s.served[t].arrival == k
  {
    SameQuotients(k, |s.served|, s.policy.max);
    forall i | 0 <= i < |s.queue|
      ensures s.queue[i].arrival != k
    {
      WaitingIsRecent(s, i);
    }
    t := ServedOrWaiting(s, k);
  }

  lemma SameQuotients(k: nat, t: nat, max: nat)
    requires max > 0 && k / max < t / max
    ensures k < Base(t, max)
  {
    if t < k { SameBase(t, k, max); } else { SameBase(k, t, max); }
  }

  lemma WaitingIsRecent(s: Scheduler, i: nat)
    requires Epochs(s) && i < |s.queue|
    ensures s.queue[i].arrival >= Base(|s.served|, s.policy.max)
  {
    if i < s.steps { assert InEpoch(s.queue[i].arrival, |s.served|, s.policy.max); }
  }

  /** Counting: an arrival that is not waiting was served. */
  lemma ServedOrWaiting(s: Scheduler, k: nat) returns (t: nat)
    requires NoneLost(s) && k < s.arrived
    requires forall i :: 0 <= i < |s.queue| ==> s.queue[i].arrival != k
    ensures t < |s.served| && s.served[t].arrival == k
  {
    if t' :| 0 <= t' < |s.served| && s.served[t'].arrival == k {
      t := t';
    } else {
      var all := s.served + s.queue;
      var numbers := seq(|all|, i requires 0 <= i < |all| => all[i].arrival);
      forall i, j | 0 <= i < j < |numbers|
        ensures numbers[i] != numbers[j]
      {
        assert all[i] == if i < |s.served| then s.served[i] else s.queue[i - |s.served|];
        assert all[j] == if j < |s.served| then s.served[j] else s.queue[j - |s.served|];
      }
      forall i | 0 <= i < |numbers|
        ensures numbers[i] < s.arrived && numbers[i] != k
      {
        assert all[i] == if i < |s.served| then s.served[i] else s.queue[i - |s.served|];
      }
      Pigeonhole(numbers + [k], s.arrived);
      assert false;
    }
  }

  lemma {:induction false} Pigeonhole(numbers: seq<nat>, n: nat)
    requires forall i :: 0 <= i < |numbers| ==> numbers[i] < n
    requires forall i, j :: 0 <= i < j < |numbers| ==> numbers[i] != numbers[j]
    ensures |numbers| <= n
  {
    if numbers == [] { return; }
    assert numbers[0] < n;
    if i :| 0 <= i < |numbers| && numbers[i] == n - 1 {
      var rest := Without(numbers, i);
      assert forall j :: 0 <= j < |rest| ==> rest[j] == numbers[if j < i then j else j + 1];
      Pigeonhole(rest, n - 1);
    } else {
      Pigeonhole(numbers, n - 1);
    }
  }
}
