/** A run in which a sector that no client wrote is given up, because of a flag left over from the
    sector before it. */
module MirrorStaleFlag {
  import opened Options
  import opened Petitions
  import opened Mirror
  import opened MirrorWitnesses

  function ReadOf(sector: nat, reply: bool): Petition {
    Petition(-1, Read, sector, [], reply, 1, true, 0, [])
  }

  function WriteOf(sector: nat): Petition {
    Petition(-1, Write, sector, [], false, 1, false, 0, [])
  }

  function Answer(sector: nat): Response {
    Response(Read, sector, [], ReadOf(sector, true))
  }

  /** The disk being synchronised, with both its sectors asked for. */
  function Asking(queue: seq<Petition>): Disk {
    NewDisk(1, Sync, map[]).(queue := queue, semaf := SYNC_SLOTS - 2, issued := 2)
  }

  /** The disk that joined first, with both reads sent or to send. */
  function Serving(queue: seq<Petition>): Disk {
    NewDisk(0, Ok, map[]).(queue := queue, readCount := 2)
  }

  function Two(general: seq<Petition>, ring: seq<Disk>): State {
    Init(2).(general := general, ring := ring, nextDisk := 2)
  }

  /** Beside the two disks only the client write, which is dispatched. */
  function WrittenTwo(data: Data, round: Option<Round>, ring: seq<Disk>): State {
    Two([], ring).(round := round, submitted := [ClientWrite(data, false, 0)], logical := map[0 := data])
  }

  /** Two disks join. */
  const JOIN_STEPS := [Join(map[]), Join(map[]), IssueSync(1)]

  const JOIN_STATES := [
    Init(2),
    Init(2).(ring := [NewDisk(0, Ok, map[])], nextDisk := 1),
    Two([], [NewDisk(0, Ok, map[]), NewDisk(1, Sync, map[])]),
    Two([ReadOf(0, false)], [NewDisk(0, Ok, map[]), Target([])])]

  /** Both sectors of the second one are asked for. */
  const ASK_STEPS := [Dispatch, IssueSync(0), Dispatch]

  const ASK_STATES := [
    Two([ReadOf(0, false)], [NewDisk(0, Ok, map[]), Target([])]),
    Two([], [Target([]), Serving([ReadOf(0, true)]).(readCount := 1)]),
    Two([ReadOf(1, false)], [Asking([]), Serving([ReadOf(0, true)]).(readCount := 1)]),
    Two([], [Asking([]), Serving([ReadOf(0, true), ReadOf(1, true)])])]

  /** The first one reads them. */
  const READ_STEPS := [Send(1), Send(1), Serve(1, 0), Serve(1, 0), Receive(1)]

  function Sent(sent: seq<Petition>): Disk {
    Serving([]).(log := [ReadOf(0, true), ReadOf(1, true)], sent := sent)
  }

  function ReadStates(): seq<State> {
    var r0, r1 := ReadOf(0, true), ReadOf(1, true);
    [Two([], [Asking([]), Serving([r0, r1])]),
     Two([], [Asking([]), Serving([r1]).(log := [r0], sent := [r0], wire := [r0])]),
     Two([], [Asking([]), Sent([r0, r1]).(wire := [r0, r1])]),
     Two([], [Asking([]), Sent([r0, r1]).(wire := [r1], resp := [Answer(0)])]),
     Two([], [Asking([]), Sent([r0, r1]).(resp := [Answer(0), Answer(1)])]),
     Two([], [Asking([WriteOf(0)]), Answering([])])]
  }

  /** A client writes sector 0 meanwhile. */
  function WriteSteps(data: Data): seq<Step> {
    [Submit(0, Write, 0, data), Dispatch, Copy, Copy, EndRound]
  }

  function WriteStates(data: Data): seq<State> {
    var w, w' := ClientWrite(data, true, 0), ClientWrite(data, false, 0);
    [Two([], [Asking([WriteOf(0)]), Answering([])]),
     Two([w'], [Asking([WriteOf(0)]), Answering([])]).(submitted := [w']),
     WrittenTwo(data, Going(data, 0), [Asking([WriteOf(0)]), Answering([])]),
     WrittenTwo(data, Going(data, 1), [Answering([]), Asking([WriteOf(0), w])]),
     WrittenTwo(data, Going(data, 2), [Asking([WriteOf(0), w]), Answering([w'])]),
     WrittenTwo(data, None, [Asking([WriteOf(0), w]), Answering([w'])])]
  }

  /** The second sector comes back, and the disk sends what is queued for it. */
  const SEND_STEPS := [Receive(1), Send(0), Send(0), Send(0)]

  function SendStates(data: Data): seq<State> {
    var w, w' := ClientWrite(data, true, 0), ClientWrite(data, false, 0);
    [WrittenTwo(data, None, [Asking([WriteOf(0), w]), Answering([w'])]),
     WrittenTwo(data, None, [Asking([WriteOf(0), w, WriteOf(1)]), Done(data)]),
     WrittenTwo(data, None, [Flagged(data), Done(data)]),
     WrittenTwo(data, None, [Overwritten(data), Done(data)]),
     WrittenTwo(data, None, [Overwritten(data).(queue := [], skipped := {0, 1}), Done(data)])]
  }

  /** Nobody writes sector 1. */
  function StaleSteps(data: Data): seq<Step> {
    JOIN_STEPS + ASK_STEPS + READ_STEPS + WriteSteps(data) + SEND_STEPS
  }

  // ---- single steps

  /** A step of one disk thread, or of its disk. */
  lemma One(s: State, k: nat, e: Disk, ring: seq<Disk>, step: Step)
    requires s.running && k < |s.ring| && ring == s.ring[k := e]
    requires step == Send(k) || (step.Serve? && step.k == k)
    requires if step.Send? then s.ring[k].queue != [] && e == SendOne(s.ring[k])
             else MayServe(s.ring[k].wire, step.i) && e == ServeOne(s.ring[k], step.i)
    ensures Becomes(s, step, s.(ring := ring))
  {
  }

  lemma Gives(s: State, p: Petition, a: Disk, b: Disk, step: Step)
    requires s.running && s.ring == [a, b] && s.round.Some? && s.round.value.position < 2 && step == Copy
    requires p == s.round.value.p.(reply := s.round.value.position == 0)
    ensures Becomes(s, step, s.(ring := [b, a.(queue := a.queue + [p])],
                                round := Some(s.round.value.(position := s.round.value.position + 1))))
  {
    Turned(a, b, a.(queue := a.queue + [p]));
  }

  lemma Reads(s: State, p: Petition, a: Disk, b: Disk)
    requires s.running && s.round.None? && s.general == [p] && p.kind.Read? && s.ring == [a, b]
    requires a.state.Sync? && b.state.Ok?
    ensures Becomes(s, Dispatch, s.(general := [], ring := [a, PushRead(b, p)]))
  {
    assert s.ring[1].state.Ok?;
    Popped(p, p);
    assert Without([a, b], 1) + [PushRead(b, p)] == [a, PushRead(b, p)];
  }

  /** The read of the synchronisation comes back and goes on as a write. */
  lemma Returns(s: State, a: Disk, b: Disk, sector: nat, sent: seq<Petition>, resp: seq<Response>)
    requires s.running && s.ring == [a, b] && a.id == 1 && b.id == 0 && b.state.Ok?
    requires b.sent == [ReadOf(sector, true)] + sent && b.resp == [Answer(sector)] + resp
    ensures Becomes(s, Receive(1),
                    s.(ring := [a.(queue := a.queue + [WriteOf(sector)]), b.(sent := sent, resp := resp)]))
  {
    var b' := b.(sent := sent, resp := resp);
    FirstIndexIs(b.sent, (p: Petition) => Hits(p, sector, Read), 0);
    assert b.sent[0] == ReadOf(sector, true) && b.resp[0] == Answer(sector);
    assert Without(b.sent, 0) == sent && b.resp[1..] == resp;
    assert Settled(b, s.total) == b';
    Turned(a, b, b');
    assert PushSyncWrite([a, b'], WriteOf(sector)) == [a.(queue := a.queue + [WriteOf(sector)]), b'];
  }

  // ---- the run

  lemma JoinFollows()
    ensures Follow(JOIN_STATES, JOIN_STEPS)
  {
    assert Becomes(JOIN_STATES[0], Join(map[]), JOIN_STATES[1]);
    assert Becomes(JOIN_STATES[1], Join(map[]), JOIN_STATES[2]);
    assert Becomes(JOIN_STATES[2], IssueSync(1), JOIN_STATES[3]);
  }

  lemma AskFollows()
    ensures Follow(ASK_STATES, ASK_STEPS)
  {
    StaleFirstRead();
    StaleAsks();
    StaleSecondRead();
  }

  lemma ReadFollows()
    ensures Follow(ReadStates(), READ_STEPS)
  {
    StaleSends();
    StaleServes();
    StaleReceives();
  }

  lemma WriteFollows(data: Data)
    ensures Follow(WriteStates(data), WriteSteps(data))
  {
    StaleSubmits(data);
    StaleCopies(data);
  }

  lemma SendFollows(data: Data)
    ensures Follow(SendStates(data), SEND_STEPS)
  {
    StaleReturns(data);
    StaleSkips(data);
    StaleWrites(data);
  }

  lemma StaleAsks()
    ensures Becomes(Two([], [Target([]), Serving([ReadOf(0, true)]).(readCount := 1)]), IssueSync(0),
                    Two([ReadOf(1, false)], [Asking([]), Serving([ReadOf(0, true)]).(readCount := 1)]))
  {
  }

  lemma StaleSecondRead()
    ensures Becomes(Two([ReadOf(1, false)], [Asking([]), Serving([ReadOf(0, true)]).(readCount := 1)]), Dispatch,
                    Two([], [Asking([]), Serving([ReadOf(0, true), ReadOf(1, true)])]))
  {
    var d := Serving([ReadOf(0, true)]).(readCount := 1);
    var s := Two([ReadOf(1, false)], [Asking([]), d]);
    Reads(s, ReadOf(1, false), Asking([]), d);
    assert Ahead(d) == [ReadOf(0, true)];
    Alone(ReadOf(0, true), []);
    Unwritten(ReadOf(0, true), [], 1);
    Popped(ReadOf(0, true), ReadOf(1, true));
    assert PushRead(d, ReadOf(1, false)) == Serving([ReadOf(0, true), ReadOf(1, true)]);
  }

  lemma Unwritten(p: Petition, base: Data, sector: nat)
    requires p.kind.Read?
    ensures Settle(base, [p], sector, true) == base
  {
    assert [p][1..] == [];
  }

  lemma StaleFirstRead()
    ensures Becomes(Two([ReadOf(0, false)], [NewDisk(0, Ok, map[]), Target([])]), Dispatch,
                    Two([], [Target([]), Serving([ReadOf(0, true)]).(readCount := 1)]))
  {
    var d := NewDisk(0, Ok, map[]);
    var s := Two([ReadOf(0, false)], [d, Target([])]);
    assert s.ring[0].state.Ok? && Ahead(d) == [];
    Popped(ReadOf(0, false), ReadOf(0, false));
    Popped(ReadOf(0, true), ReadOf(0, true));
    Turned(d, Target([]), PushRead(d, ReadOf(0, false)));
    assert PushRead(d, ReadOf(0, false)) == Serving([ReadOf(0, true)]).(readCount := 1);
  }

  lemma SendsRead(d: Disk, p: Petition, rest: seq<Petition>)
    requires d.queue == [p] + rest && p.kind.Read?
    ensures SendOne(d) == d.(queue := rest, sent := d.sent + [p], wire := d.wire + [p], log := d.log + [p])
  {
    assert d.queue[1..] == rest;
  }

  lemma StaleSends()
    ensures var r0, r1 := ReadOf(0, true), ReadOf(1, true);
            var d := Serving([r1]).(log := [r0], sent := [r0], wire := [r0]);
            && Becomes(Two([], [Asking([]), Serving([r0, r1])]), Send(1), Two([], [Asking([]), d]))
            && Becomes(Two([], [Asking([]), d]), Send(1),
                       Two([], [Asking([]), Sent([r0, r1]).(wire := [r0, r1])]))
  {
    var r0, r1 := ReadOf(0, true), ReadOf(1, true);
    var d := Serving([r1]).(log := [r0], sent := [r0], wire := [r0]);
    var e := Sent([r0, r1]).(wire := [r0, r1]);
    SendsRead(Serving([r0, r1]), r0, [r1]);
    SendsRead(d, r1, []);
    assert SendOne(Serving([r0, r1])) == d && SendOne(d) == e;
    Turned(Asking([]), Serving([r0, r1]), d);
    Turned(Asking([]), d, e);
    One(Two([], [Asking([]), Serving([r0, r1])]), 1, d, [Asking([]), d], Send(1));
    One(Two([], [Asking([]), d]), 1, e, [Asking([]), e], Send(1));
  }

  lemma ServesRead(d: Disk, sector: nat, rest: seq<Petition>)
    requires d.wire == [ReadOf(sector, true)] + rest && d.content == map[]
    ensures MayServe(d.wire, 0) && ServeOne(d, 0) == d.(wire := rest, resp := d.resp + [Answer(sector)])
  {
    assert Without(d.wire, 0) == rest;
  }

  lemma StaleServes()
    ensures var r0, r1 := ReadOf(0, true), ReadOf(1, true);
            var sent := Sent([r0, r1]);
            && Becomes(Two([], [Asking([]), sent.(wire := [r0, r1])]), Serve(1, 0),
                       Two([], [Asking([]), sent.(wire := [r1], resp := [Answer(0)])]))
            && Becomes(Two([], [Asking([]), sent.(wire := [r1], resp := [Answer(0)])]), Serve(1, 0),
                       Two([], [Asking([]), sent.(resp := [Answer(0), Answer(1)])]))
  {
    var r0, r1 := ReadOf(0, true), ReadOf(1, true);
    var sent := Sent([r0, r1]);
    var d, e := sent.(wire := [r0, r1]), sent.(wire := [r1], resp := [Answer(0)]);
    var f := sent.(resp := [Answer(0), Answer(1)]);
    ServesRead(d, 0, [r1]);
    ServesRead(e, 1, []);
    Popped(Answer(0), Answer(1));
    assert ServeOne(d, 0) == e && ServeOne(e, 0) == f;
    Turned(Asking([]), d, e);
    Turned(Asking([]), e, f);
    One(Two([], [Asking([]), d]), 1, e, [Asking([]), e], Serve(1, 0));
    One(Two([], [Asking([]), e]), 1, f, [Asking([]), f], Serve(1, 0));
  }

  lemma StaleReceives()
    ensures var r0, r1 := ReadOf(0, true), ReadOf(1, true);
            Becomes(Two([], [Asking([]), Sent([r0, r1]).(resp := [Answer(0), Answer(1)])]),
                    Receive(1),
                    Two([], [Asking([WriteOf(0)]), Sent([r1]).(resp := [Answer(1)])]))
  {
    var r0, r1 := ReadOf(0, true), ReadOf(1, true);
    var d := Sent([r0, r1]).(resp := [Answer(0), Answer(1)]);
    Popped(r0, r1);
    Popped(Answer(0), Answer(1));
    Popped(WriteOf(0), WriteOf(0));
    Returns(Two([], [Asking([]), d]), Asking([]), d, 0, [r1], [Answer(1)]);
  }

  /** What answers the second read while the first has come back. */
  function Answering(queue: seq<Petition>): Disk {
    Serving(queue).(log := [ReadOf(0, true), ReadOf(1, true)], sent := [ReadOf(1, true)], resp := [Answer(1)])
  }

  lemma StaleSubmits(data: Data)
    ensures var w' := ClientWrite(data, false, 0);
            var ring := [Asking([WriteOf(0)]), Answering([])];
            && Becomes(Two([], ring), Submit(0, Write, 0, data), Two([w'], ring).(submitted := [w']))
            && Becomes(Two([w'], ring).(submitted := [w']), Dispatch, WrittenTwo(data, Going(data, 0), ring))
  {
    var w' := ClientWrite(data, false, 0);
    var ring := [Asking([WriteOf(0)]), Answering([])];
    Popped(w', w');
    assert ring[1].state.Ok?;
    assert Init(2).logical[0 := data] == map[0 := data];
  }

  lemma StaleCopies(data: Data)
    ensures var w, w' := ClientWrite(data, true, 0), ClientWrite(data, false, 0);
            var mine := Asking([WriteOf(0), w]);
            && Becomes(WrittenTwo(data, Going(data, 0), [Asking([WriteOf(0)]), Answering([])]), Copy,
                       WrittenTwo(data, Going(data, 1), [Answering([]), mine]))
            && Becomes(WrittenTwo(data, Going(data, 1), [Answering([]), mine]), Copy,
                       WrittenTwo(data, Going(data, 2), [mine, Answering([w'])]))
            && Becomes(WrittenTwo(data, Going(data, 2), [mine, Answering([w'])]), EndRound,
                       WrittenTwo(data, None, [mine, Answering([w'])]))
  {
    var w, w' := ClientWrite(data, true, 0), ClientWrite(data, false, 0);
    Popped(WriteOf(0), w);
    Popped(w', w');
    Gives(WrittenTwo(data, Going(data, 0), [Asking([WriteOf(0)]), Answering([])]), w,
          Asking([WriteOf(0)]), Answering([]), Copy);
    Gives(WrittenTwo(data, Going(data, 1), [Answering([]), Asking([WriteOf(0), w])]), w',
          Answering([]), Asking([WriteOf(0), w]), Copy);
  }

  function Done(data: Data): Disk {
    Serving([ClientWrite(data, false, 0)]).(log := [ReadOf(0, true), ReadOf(1, true)])
  }

  lemma StaleReturns(data: Data)
    ensures var w, w' := ClientWrite(data, true, 0), ClientWrite(data, false, 0);
            Becomes(WrittenTwo(data, None, [Asking([WriteOf(0), w]), Answering([w'])]), Receive(1),
                    WrittenTwo(data, None, [Asking([WriteOf(0), w, WriteOf(1)]), Done(data)]))
  {
    var w, w' := ClientWrite(data, true, 0), ClientWrite(data, false, 0);
    assert [WriteOf(0), w] + [WriteOf(1)] == [WriteOf(0), w, WriteOf(1)];
    var a, b := Asking([WriteOf(0), w]), Answering([w']);
    Returns(WrittenTwo(data, None, [a, b]), a, b, 1, [], []);
  }

  function Flagged(data: Data): Disk {
    Asking([ClientWrite(data, true, 0), WriteOf(1)]).(auxFound := true, skipped := {0})
  }

  /** The client's write is on its way. */
  function Overwritten(data: Data): Disk {
    var w := ClientWrite(data, true, 0);
    Flagged(data).(queue := [WriteOf(1)], sent := [w], wire := [w], log := [w], historic := {0})
  }

  /** Sector 0 is given up: the client's write is queued behind it. */
  lemma StaleSkips(data: Data)
    ensures var w := ClientWrite(data, true, 0);
            Becomes(WrittenTwo(data, None, [Asking([WriteOf(0), w, WriteOf(1)]), Done(data)]), Send(0),
                    WrittenTwo(data, None, [Flagged(data), Done(data)]))
  {
    var w := ClientWrite(data, true, 0);
    var d := Asking([WriteOf(0), w, WriteOf(1)]);
    assert d.queue[1..] == [w, WriteOf(1)];
    assert Hits([w, WriteOf(1)][0], 0, Write);
    assert SendOne(d) == Flagged(data);
    Turned(d, Done(data), Flagged(data));
    One(WrittenTwo(data, None, [d, Done(data)]), 0, Flagged(data), [Flagged(data), Done(data)], Send(0));
  }

  /** The client's write is sent; then sector 1 is given up too, with nothing behind it. */
  lemma StaleWrites(data: Data)
    ensures var w := ClientWrite(data, true, 0);
            var d := Overwritten(data);
            && Becomes(WrittenTwo(data, None, [Flagged(data), Done(data)]), Send(0),
                       WrittenTwo(data, None, [d, Done(data)]))
            && Becomes(WrittenTwo(data, None, [d, Done(data)]), Send(0),
                       WrittenTwo(data, None, [d.(queue := [], skipped := {0, 1}), Done(data)]))
  {
    var w := ClientWrite(data, true, 0);
    var d := Overwritten(data);
    var e := d.(queue := [], skipped := {0, 1});
    Popped(w, WriteOf(1));
    Popped(w, w);
    Popped(WriteOf(1), WriteOf(1));
    assert SendOne(Flagged(data)) == d;
    assert d.skipped + {1} == {0, 1};
    assert SendOne(d) == e;
    Turned(Flagged(data), Done(data), d);
    Turned(d, Done(data), e);
    One(WrittenTwo(data, None, [Flagged(data), Done(data)]), 0, d, [d, Done(data)], Send(0));
    One(WrittenTwo(data, None, [d, Done(data)]), 0, e, [e, Done(data)], Send(0));
  }

  /** The disk gives up both its sectors, though the one client write ever submitted is to the
      first. */
  lemma StaleFlagSkips(data: Data)
    ensures var s := After(2, StaleSteps(data));
            && s.running && s.submitted == [ClientWrite(data, false, 0)]
            && |s.ring| == 2 && s.ring[0].state.Sync? && s.ring[0].skipped == {0, 1}
  {
    JoinFollows();
    AskFollows();
    ReadFollows();
    WriteFollows(data);
    SendFollows(data);
    FollowRun(JOIN_STATES, JOIN_STEPS);
    FollowRun(ASK_STATES, ASK_STEPS);
    FollowRun(ReadStates(), READ_STEPS);
    FollowRun(WriteStates(data), WriteSteps(data));
    FollowRun(SendStates(data), SEND_STEPS);
    RunConcat(Init(2), JOIN_STEPS, ASK_STEPS);
    RunConcat(Init(2), JOIN_STEPS + ASK_STEPS, READ_STEPS);
    RunConcat(Init(2), JOIN_STEPS + ASK_STEPS + READ_STEPS, WriteSteps(data));
    RunConcat(Init(2), JOIN_STEPS + ASK_STEPS + READ_STEPS + WriteSteps(data), SEND_STEPS);
  }
}
