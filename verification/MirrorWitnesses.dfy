/** Two runs in which the RAID, with disks of one sector, does not come to what it is for. */
module MirrorWitnesses {
  import opened Options
  import opened Petitions
  import opened Mirror

  /** Each state is what the step makes of the one before. */
  predicate Follow(states: seq<State>, steps: seq<Step>) {
    |states| == |steps| + 1 && forall i :: 0 <= i < |steps| ==> Becomes(states[i], steps[i], states[i + 1])
  }

  predicate Becomes(s: State, step: Step, s': State) {
    Enabled(s, step) && Apply(s, step) == s'
  }

  lemma {:induction false} FollowRun(states: seq<State>, steps: seq<Step>)
    requires Follow(states, steps)
    ensures Run(states[0], steps) == states[|steps|]
    decreases steps
  {
    if steps != [] {
      assert Becomes(states[0], steps[0], states[1]);
      forall i | 0 <= i < |steps[1..]|
        ensures Becomes(states[1..][i], steps[1..][i], states[1..][i + 1])
      {
        assert Becomes(states[i + 1], steps[i + 1], states[i + 2]);
      }
      FollowRun(states[1..], steps[1..]);
    }
  }

  // ---- petitions and disks of these runs

  function SyncRead(reply: bool): Petition {
    Petition(-1, Read, 0, [], reply, 1, true, 0, [])
  }

  const SYNC_WRITE := Petition(-1, Write, 0, [], false, 1, false, 0, [])

  function ClientWrite(data: Data, reply: bool, id: nat): Petition {
    Petition(0, Write, 0, data, reply, 0, false, id, [])
  }

  function ClientRead(reply: bool): Petition {
    Petition(0, Read, 0, [], reply, 0, false, 0, [])
  }

  /** The disk that joined first, with `n` reads done or to do. */
  function Master(queue: seq<Petition>, n: nat): Disk {
    NewDisk(0, Ok, map[]).(queue := queue, readCount := n)
  }

  /** The disk being synchronised, its one sector asked for. */
  function Target(queue: seq<Petition>): Disk {
    NewDisk(1, Sync, map[]).(queue := queue, semaf := SYNC_SLOTS - 1, issued := 1)
  }

  /** Two disks have joined. */
  function Pair(general: seq<Petition>, ring: seq<Disk>): State {
    Init(1).(general := general, ring := ring, nextDisk := 2)
  }

  const FIRST_STEPS := [Join(map[]), Join(map[]), IssueSync(1), Dispatch]

  const FIRST_STATES := [
    Init(1),
    Init(1).(ring := [Master([], 0)], nextDisk := 1),
    Pair([], [Master([], 0), NewDisk(1, Sync, map[])]),
    Pair([SyncRead(false)], [Master([], 0), Target([])]),
    Pair([], [Target([]), Master([SyncRead(true)], 1)])]

  // ---- single steps on small sequences

  lemma Turned<T>(a: T, b: T, c: T)
    ensures [a, b][1..] + [c] == [b, c]
    ensures Without([a, b], 0) + [c] == [b, c]
    ensures [a, b][0 := c] == [c, b] && [a, b][1 := c] == [a, c]
  {
  }

  lemma Popped<T>(a: T, b: T)
    ensures [a][1..] == [] && [a, b][1..] == [b] && Without([a], 0) == [] && [] + [a] == [a] && [a] + [b] == [a, b]
  {
  }

  /** The read of the synchronisation comes back and goes on as a write. */
  lemma ReadReturns(s: State, a: Disk, b: Disk)
    requires s.running && s.ring == [a, b] && a.id == 1 && b.id == 0 && b.state.Ok?
    requires b.sent == [SyncRead(true)] && b.resp == [Response(Read, 0, [], SyncRead(true))]
    ensures Becomes(s, Receive(1), s.(ring := [a.(queue := a.queue + [SYNC_WRITE]), b.(sent := [], resp := [])]))
  {
    var b' := b.(sent := [], resp := []);
    ReadSettles(b, s.total);
    Turned(a, b, b');
    assert PushSyncWrite([a, b'], SYNC_WRITE) == [a.(queue := a.queue + [SYNC_WRITE]), b'];
  }

  lemma ReadSettles(b: Disk, total: nat)
    requires b.state.Ok? && b.sent == [SyncRead(true)] && b.resp == [Response(Read, 0, [], SyncRead(true))]
    ensures Answers(b) && Matched(b) == SyncRead(true) && Settled(b, total) == b.(sent := [], resp := [])
  {
    FirstIndexIs(b.sent, (p: Petition) => Hits(p, 0, Read), 0);
    Popped(b.sent[0], b.sent[0]);
    Popped(b.resp[0], b.resp[0]);
  }

  lemma FirstSteps()
    ensures Follow(FIRST_STATES, FIRST_STEPS)
  {
    assert Becomes(FIRST_STATES[0], Join(map[]), FIRST_STATES[1]);
    assert Becomes(FIRST_STATES[1], Join(map[]), FIRST_STATES[2]);
    assert Becomes(FIRST_STATES[2], IssueSync(1), FIRST_STATES[3]);
    FirstRead();
  }

  lemma FirstRead()
    ensures Becomes(FIRST_STATES[3], Dispatch, FIRST_STATES[4])
  {
    var s := FIRST_STATES[3];
    assert s.ring[0].state.Ok? && Ahead(s.ring[0]) == [];
    Popped(s.general[0], s.general[0]);
    Popped(SyncRead(true), SyncRead(true));
    Turned(s.ring[0], s.ring[1], PushRead(s.ring[0], s.general[0]));
    assert DispatchRead(s).ring == FIRST_STATES[4].ring;
  }

  // ---- a sector given up

  /** A client writes to the sector while it is being read for the synchronisation. */
  function SkipSteps(data: Data): seq<Step> {
    [Submit(0, Write, 0, data), Dispatch, Copy, Copy, EndRound,
     Send(1), Serve(1, 0), Receive(1), Send(0), Send(0)]
  }

  /** Beside the two disks only the client write, which is dispatched. */
  function Written(data: Data, round: Option<Round>, ring: seq<Disk>): State {
    Pair([], ring).(round := round, submitted := [ClientWrite(data, false, 0)], logical := map[0 := data])
  }

  function Going(data: Data, position: nat): Option<Round> {
    Some(Round(ClientWrite(data, false, 0), position, 0, map[]))
  }

  function SkipStates(data: Data): seq<State> {
    var w := ClientWrite(data, true, 0);
    var r, w' := SyncRead(true), ClientWrite(data, false, 0);
    var master := Master([w'], 1).(log := [r]);
    var target := Target([SYNC_WRITE]).(sent := [w], wire := [w], log := [w], historic := {0});
    [Pair([], [Target([]), Master([r], 1)]),
     Pair([w'], [Target([]), Master([r], 1)]).(submitted := [w']),
     Written(data, Going(data, 0), [Target([]), Master([r], 1)]),
     Written(data, Going(data, 1), [Master([r], 1), Target([w])]),
     Written(data, Going(data, 2), [Target([w]), Master([r, w'], 1)]),
     Written(data, None, [Target([w]), Master([r, w'], 1)]),
     Written(data, None, [Target([w]), master.(sent := [r], wire := [r])]),
     Written(data, None, [Target([w]), master.(sent := [r], resp := [Response(Read, 0, [], r)])]),
     Written(data, None, [Target([w, SYNC_WRITE]), master]),
     Written(data, None, [target, master]),
     Written(data, None, [target.(queue := [], skipped := {0}), master])]
  }

  lemma SkipFollows(data: Data)
    ensures Follow(SkipStates(data), SkipSteps(data))
  {
    SkipSubmits(data);
    SkipBegins(data);
    SkipEnds(data);
    SkipCopies(data);
    SkipReads(data);
    SkipReceives(data);
    SkipSends(data);
  }

  lemma SkipSubmits(data: Data)
    ensures Becomes(SkipStates(data)[0], Submit(0, Write, 0, data), SkipStates(data)[1])
  {
    Popped(ClientWrite(data, false, 0), ClientWrite(data, false, 0));
  }

  lemma SkipBegins(data: Data)
    ensures Becomes(SkipStates(data)[1], Dispatch, SkipStates(data)[2])
  {
    var s := SkipStates(data)[1];
    Popped(s.general[0], s.general[0]);
    assert s.ring[1].state.Ok?;
    assert s.logical[0 := data] == map[0 := data];
  }

  lemma SkipEnds(data: Data)
    ensures Becomes(SkipStates(data)[4], EndRound, SkipStates(data)[5])
  {
  }

  lemma SkipCopies(data: Data)
    ensures var t := SkipStates(data); Becomes(t[2], Copy, t[3]) && Becomes(t[3], Copy, t[4])
  {
    var t := SkipStates(data);
    var w := ClientWrite(data, true, 0);
    Popped(w, w);
    Popped(SyncRead(true), ClientWrite(data, false, 0));
    Turned(t[2].ring[0], t[2].ring[1], t[3].ring[1]);
    Turned(t[3].ring[0], t[3].ring[1], t[4].ring[1]);
    assert PushWrite(t[2].ring[0], t[2].round.value.p, true) == t[3].ring[1];
    assert PushWrite(t[3].ring[0], t[3].round.value.p, false) == t[4].ring[1];
  }

  lemma SkipReads(data: Data)
    ensures var t := SkipStates(data); Becomes(t[5], Send(1), t[6]) && Becomes(t[6], Serve(1, 0), t[7])
  {
    var t := SkipStates(data);
    var r := SyncRead(true);
    Popped(r, ClientWrite(data, false, 0));
    Popped(r, r);
    Popped(Response(Read, 0, [], r), Response(Read, 0, [], r));
    assert SendOne(t[5].ring[1]) == t[6].ring[1];
    assert ServeOne(t[6].ring[1], 0) == t[7].ring[1];
  }

  lemma SkipReceives(data: Data)
    ensures Becomes(SkipStates(data)[7], Receive(1), SkipStates(data)[8])
  {
    var t := SkipStates(data);
    Popped(ClientWrite(data, true, 0), SYNC_WRITE);
    ReadReturns(t[7], t[7].ring[0], t[7].ring[1]);
  }

  lemma SkipSends(data: Data)
    ensures var t := SkipStates(data); Becomes(t[8], Send(0), t[9]) && Becomes(t[9], Send(0), t[10])
  {
    var t := SkipStates(data);
    var w := ClientWrite(data, true, 0);
    Popped(w, SYNC_WRITE);
    Popped(w, w);
    Popped(SYNC_WRITE, SYNC_WRITE);
    assert SendOne(t[8].ring[0]) == t[9].ring[0];
    assert SendOne(t[9].ring[0]) == t[10].ring[0];
  }

  /** The disk being synchronised gives up its one sector: it will not become up to date. */
  lemma SkipHappens(data: Data)
    ensures var s := After(1, FIRST_STEPS + SkipSteps(data));
            s.running && |s.ring| == 2 && s.ring[0].state.Sync? && s.ring[0].skipped == {0}
  {
    FirstSteps();
    FollowRun(FIRST_STATES, FIRST_STEPS);
    SkipFollows(data);
    FollowRun(SkipStates(data), SkipSteps(data));
    RunConcat(Init(1), FIRST_STEPS, SkipSteps(data));
  }

  // ---- two up-to-date disks that differ

  /** The second disk catches up, a third one joins, and this one dies in the round of a write. */
  function DivideSteps(data: Data): seq<Step> {
    [Send(1), Serve(1, 0), Receive(1), Send(0), Serve(0, 0), Receive(0), Join(map[]),
     Submit(0, Read, 0, []), Dispatch, Submit(0, Write, 0, data), Dispatch, Copy, Copy, Die(2), EndRound]
  }

  /** The second disk, up to date. */
  function Second(queue: seq<Petition>, n: nat): Disk {
    NewDisk(1, Ok, map[0 := []]).(
    queue := queue, issued := 1, nSync := 1, completed := {0}, log := [SYNC_WRITE], readCount := n)
  }

  function First(queue: seq<Petition>, n: nat): Disk {
    Master(queue, n).(log := [SyncRead(true)])
  }

  function Third(queue: seq<Petition>): Disk {
    NewDisk(2, Sync, map[]).(queue := queue)
  }

  /** Three disks have joined, and the read was submitted. */
  function Trio(general: seq<Petition>, ring: seq<Disk>): State {
    Pair(general, ring).(nextDisk := 3, submitted := [ClientRead(false)])
  }

  function Dividing(data: Data, round: Option<Round>, ring: seq<Disk>): State {
    Trio([], ring).(
    round := round, submitted := [ClientRead(false), ClientWrite(data, false, 1)], logical := map[0 := data])
  }

  function Passing(data: Data, position: nat, lost: nat): Option<Round> {
    Some(Round(ClientWrite(data, false, 1), position, lost, map[]))
  }

  function DivideStates(data: Data): seq<State> {
    var r := SyncRead(true);
    var w, w' := ClientWrite(data, true, 1), ClientWrite(data, false, 1);
    var target := Target([]).(sent := [SYNC_WRITE], log := [SYNC_WRITE]);
    [Pair([], [Target([]), Master([r], 1)]),
     Pair([], [Target([]), First([], 1).(sent := [r], wire := [r])]),
     Pair([], [Target([]), First([], 1).(sent := [r], resp := [Response(Read, 0, [], r)])]),
     Pair([], [Target([SYNC_WRITE]), First([], 1)]),
     Pair([], [target.(wire := [SYNC_WRITE]), First([], 1)]),
     Pair([], [target.(resp := [Response(Write, 0, [], SYNC_WRITE)], content := map[0 := []]), First([], 1)]),
     Pair([], [Second([], 0), First([], 0)]),
     Pair([], [Second([], 0), First([], 0), Third([])]).(nextDisk := 3),
     Trio([ClientRead(false)], [Second([], 0), First([], 0), Third([])]),
     Trio([], [First([], 0), Third([]), Second([ClientRead(true)], 1)]),
     Trio([w'], [First([], 0), Third([]), Second([ClientRead(true)], 1)]).(submitted := [ClientRead(false), w']),
     Dividing(data, Passing(data, 0, 0), [First([], 0), Third([]), Second([ClientRead(true)], 1)]),
     Dividing(data, Passing(data, 1, 0), [Third([]), Second([ClientRead(true)], 1), First([w], 0)]),
     Dividing(data, Passing(data, 2, 0), [Second([ClientRead(true)], 1), First([w], 0), Third([w'])]),
     Dividing(data, Passing(data, 2, 1), [Second([ClientRead(true)], 0), First([w], 0)]),
     Dividing(data, None, [Second([ClientRead(true)], 0), First([w], 0)]).(stale := {0})]
  }

  lemma Turned3<T>(a: T, b: T, c: T, d: T)
    ensures [a, b, c][1..] + [d] == [b, c, d] && Without([a, b, c], 0) + [d] == [b, c, d]
    ensures Without([a, b, c], 2) == [a, b] && [a, b] + [c] == [a, b, c]
  {
  }

  lemma Alone(p: Petition, base: Data)
    ensures Replying([p]) == if p.reply then [p] else []
    ensures Settle(base, [p], p.sector, true) == if p.kind.Write? then p.data else base
  {
    assert [p][1..] == [];
  }

  lemma DivideFollows(data: Data)
    ensures Follow(DivideStates(data), DivideSteps(data))
  {
    DivideReads(data);
    DivideReceives(data);
    DivideWrites(data);
    DividePromotes(data);
    DivideJoins(data);
    DivideSubmits(data);
    DivideDispatches();
    DivideBegins(data);
    DivideCopies(data);
    DivideDies(data);
  }

  lemma DivideReads(data: Data)
    ensures var t := DivideStates(data); Becomes(t[0], Send(1), t[1]) && Becomes(t[1], Serve(1, 0), t[2])
  {
    var t := DivideStates(data);
    var r := SyncRead(true);
    Popped(r, r);
    Popped(Response(Read, 0, [], r), Response(Read, 0, [], r));
    assert SendOne(t[0].ring[1]) == t[1].ring[1];
    assert ServeOne(t[1].ring[1], 0) == t[2].ring[1];
  }

  lemma DivideReceives(data: Data)
    ensures Becomes(DivideStates(data)[2], Receive(1), DivideStates(data)[3])
  {
    var t := DivideStates(data);
    Popped(SYNC_WRITE, SYNC_WRITE);
    ReadReturns(t[2], t[2].ring[0], t[2].ring[1]);
  }

  lemma DivideWrites(data: Data)
    ensures var t := DivideStates(data); Becomes(t[3], Send(0), t[4]) && Becomes(t[4], Serve(0, 0), t[5])
  {
    var t := DivideStates(data);
    Popped(SYNC_WRITE, SYNC_WRITE);
    Popped(Response(Write, 0, [], SYNC_WRITE), Response(Write, 0, [], SYNC_WRITE));
    assert SendOne(t[3].ring[0]) == t[4].ring[0];
    assert t[4].ring[0].content[0 := []] == map[0 := []];
    assert ServeOne(t[4].ring[0], 0) == t[5].ring[0];
  }

  lemma DividePromotes(data: Data)
    ensures Becomes(DivideStates(data)[5], Receive(0), DivideStates(data)[6])
  {
    var t := DivideStates(data);
    var d := t[5].ring[0];
    FirstIndexIs(d.sent, (p: Petition) => Hits(p, 0, Write), 0);
    assert Matched(d) == SYNC_WRITE;
    Popped(SYNC_WRITE, SYNC_WRITE);
    Popped(d.resp[0], d.resp[0]);
    assert Settled(d, 1) == t[6].ring[0];
    Turned(d, t[5].ring[1], t[6].ring[0]);
    assert ResetReads([t[6].ring[0], t[5].ring[1]]) == t[6].ring;
  }

  lemma DivideJoins(data: Data)
    ensures Becomes(DivideStates(data)[6], Join(map[]), DivideStates(data)[7])
  {
    var t := DivideStates(data);
    assert ResetReads(t[6].ring) == t[6].ring;
    Turned3(t[6].ring[0], t[6].ring[1], t[7].ring[2], t[7].ring[2]);
  }

  lemma DivideSubmits(data: Data)
    ensures var t := DivideStates(data);
            Becomes(t[7], Submit(0, Read, 0, []), t[8]) && Becomes(t[9], Submit(0, Write, 0, data), t[10])
  {
    var t := DivideStates(data);
    Popped(t[8].general[0], t[8].general[0]);
    Popped(t[10].submitted[0], t[10].submitted[1]);
    Popped(t[10].general[0], t[10].general[0]);
  }

  lemma FirstReads(s: State, p: Petition, a: Disk, b: Disk, c: Disk)
    requires s.general == [p] && s.ring == [a, b, c] && a.state.Ok?
    ensures SomeOk(s.ring) && DispatchRead(s) == s.(general := [], ring := [b, c, PushRead(a, p)])
  {
    assert s.ring[0].state.Ok?;
    Popped(p, p);
    Turned3(a, b, c, PushRead(a, p));
  }

  lemma DivideDispatches()
    ensures Becomes(Trio([ClientRead(false)], [Second([], 0), First([], 0), Third([])]), Dispatch,
                    Trio([], [First([], 0), Third([]), Second([ClientRead(true)], 1)]))
  {
    var a := Second([], 0);
    assert Ahead(a) == [];
    Popped(ClientRead(true), ClientRead(true));
    FirstReads(Trio([ClientRead(false)], [a, First([], 0), Third([])]), ClientRead(false), a, First([], 0), Third([]));
    assert PushRead(a, ClientRead(false)) == Second([ClientRead(true)], 1);
  }

  lemma DivideBegins(data: Data)
    ensures Becomes(DivideStates(data)[10], Dispatch, DivideStates(data)[11])
  {
    var t := DivideStates(data);
    Popped(t[10].general[0], t[10].general[0]);
    assert t[10].ring[0].state.Ok? && t[10].logical[0 := data] == map[0 := data];
  }

  lemma DivideCopies(data: Data)
    ensures var t := DivideStates(data); Becomes(t[11], Copy, t[12]) && Becomes(t[12], Copy, t[13])
  {
    var t := DivideStates(data);
    var p := ClientWrite(data, false, 1);
    Popped(p, p);
    Popped(ClientWrite(data, true, 1), p);
    assert PushWrite(t[11].ring[0], p, true) == t[12].ring[2];
    assert PushWrite(t[12].ring[0], p, false) == t[13].ring[2];
    Turned3(t[11].ring[0], t[11].ring[1], t[11].ring[2], t[12].ring[2]);
    Turned3(t[12].ring[0], t[12].ring[1], t[12].ring[2], t[13].ring[2]);
  }

  lemma DivideDies(data: Data)
    ensures var t := DivideStates(data); Becomes(t[13], Die(2), t[14]) && Becomes(t[14], EndRound, t[15])
  {
    var t := DivideStates(data);
    var d := t[13].ring[2];
    Turned3(t[13].ring[0], t[13].ring[1], d, d);
    assert t[14].ring[0].state.Ok?;
    assert d.sent + d.queue == [ClientWrite(data, false, 1)];
    Alone(ClientWrite(data, false, 1), []);
    assert Requeued(d) == [];
    assert ResetReads([t[13].ring[0], t[13].ring[1]]) == t[14].ring;
  }

  /** With everything dispatched, the two up-to-date disks will hold different data. */
  lemma DivideHappens(data: Data)
    requires data != []
    ensures var s := After(1, FIRST_STEPS + DivideSteps(data));
            && s.running && s.general == [] && s.orphans == [] && s.round.None?
            && |s.ring| == 2 && s.ring[0].state.Ok? && s.ring[1].state.Ok?
            && Eventual(s.ring[0], 0) != Eventual(s.ring[1], 0)
  {
    FirstSteps();
    FollowRun(FIRST_STATES, FIRST_STEPS);
    DivideFollows(data);
    FollowRun(DivideStates(data), DivideSteps(data));
    RunConcat(Init(1), FIRST_STEPS, DivideSteps(data));
    DivideDiffers(data);
  }

  lemma DivideDiffers(data: Data)
    ensures Eventual(Second([ClientRead(true)], 0), 0) == []
    ensures Eventual(First([ClientWrite(data, true, 1)], 0), 0) == data
  {
    Alone(ClientRead(true), []);
    Alone(ClientWrite(data, true, 1), []);
    assert Ahead(Second([ClientRead(true)], 0)) == [ClientRead(true)];
    assert Ahead(First([ClientWrite(data, true, 1)], 0)) == [ClientWrite(data, true, 1)];
  }
}
