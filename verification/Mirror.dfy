/** The RAID-1 process as a state and its atomic steps: a client petition arriving, the
    consumer popping a petition, giving one disk its copy of a write, ending such a round, one
    petition popped by a disk thread, one request served by a disk, one response received, a
    disk joining or dying, one petition of a dead disk put back.  Threads interleave by taking
    steps in any order; only a disk that joins waits for the round of a write to end. */
module Mirror {
  import opened Options
  import opened Petitions

  datatype DiskState = Ok | Sync

  /** A message from a disk carries type, sector and data; `origin`, the petition it answers,
      is history: the RAID never reads it. */
  datatype Response = Response(kind: Kind, sector: nat, data: Data, origin: Petition)

  /** A ring node together with its thread's variables and the disk at the other end.
      `auxFound` is `info_ppd_aux != NULL`, which survives from one petition to the next;
      `issued` is how far the synchronisation thread has come; `wire` holds the requests sent
      and not yet served, `resp` the responses not yet received.  History: `completed` and
      `skipped` (sectors synchronised and given up), `log` (all petitions ever sent) and
      `readCount` (reads dispatched here since the ring last changed). */
  datatype Disk = Disk(
    id: nat, state: DiskState,
    queue: seq<Petition>, sent: seq<Petition>, historic: set<nat>, auxFound: bool,
    nSync: nat, semaf: int, issued: nat,
    content: map<nat, Data>, wire: seq<Petition>, resp: seq<Response>,
    completed: set<nat>, skipped: set<nat>, log: seq<Petition>, readCount: nat)

  /** The response sent on to a client; the petition it answers is history. */
  datatype Reply = Reply(fd: int, kind: Kind, sector: nat, data: Data, to: Petition)

  /** The consumer giving copies of a write: `position` is PPD_pos.  History: how many disks
      died with their copy, and `logical` before the write. */
  datatype Round = Round(p: Petition, position: nat, lost: nat, before: map<nat, Data>)

  /** `total` is the number of sectors; `orphans` are the petitions of dead disks still to be
      put back.  Disk numbers stand for thread ids and are never reused.  History: `submitted`,
      the client petitions by their number; `logical`, the contents of the one disk the clients
      believe they write to; `stale`, the sectors whose last write left a disk out. */
  datatype State = State(
    total: nat, general: seq<Petition>, orphans: seq<Petition>, round: Option<Round>,
    ring: seq<Disk>, replied: seq<Reply>, running: bool, nextDisk: nat,
    submitted: seq<Petition>, logical: map<nat, Data>, stale: set<nat>)

  datatype Step =
    | Submit(fd: nat, kind: Kind, sector: nat, data: Data)
    | Dispatch
    | Copy
    | EndRound
    | Requeue(i: nat)
    | IssueSync(k: nat)
    | Send(k: nat)
    | Serve(k: nat, i: nat)
    | Receive(k: nat)
    | Join(content: map<nat, Data>)
    | Die(k: nat)

  const SYNC_SLOTS := 32

  function Lookup(content: map<nat, Data>, sector: nat): Data {
    if sector in content then content[sector] else []
  }

  predicate SomeOk(ring: seq<Disk>) {
    exists i :: 0 <= i < |ring| && ring[i].state.Ok?
  }

  /** Position of the first disk that is up to date, |ring| when there is none. */
  function FirstOk(ring: seq<Disk>): (i: nat)
    ensures i <= |ring|
    ensures i < |ring| ==> ring[i].state.Ok?
    ensures forall j :: 0 <= j < i ==> ring[j].state.Sync?
  {
    FirstIndex(ring, (d: Disk) => d.state.Ok?)
  }

  function Init(total: nat): State {
    State(total, [], [], None, [], [], true, 0, [], map[], {})
  }

  predicate Enabled(s: State, step: Step) {
    s.running &&
    match step
    case Submit(_, _, _, _) => s.ring != []
    case Dispatch => s.general != [] && s.round.None? && SomeOk(s.ring)
    case Copy => s.round.Some? && |s.ring| > s.round.value.position
    case EndRound => s.round.Some? && |s.ring| <= s.round.value.position
    case Requeue(i) => i < |s.orphans|
    case IssueSync(k) => k < |s.ring| && s.ring[k].state.Sync? && s.ring[k].semaf > 0 && s.ring[k].issued < s.total
    case Send(k) => k < |s.ring| && s.ring[k].queue != []
    case Serve(k, i) => k < |s.ring| && MayServe(s.ring[k].wire, i)
    case Receive(k) => k < |s.ring| && s.ring[k].resp != [] && Answers(s.ring[k])
    case Join(_) => s.round.None?
    case Die(k) => k < |s.ring|
  }

  /** A disk may reorder requests, but serves those of one sector in the order sent; both of
      its schedulers keep that order (Ppd.PicksWhatRaidAllows). */
  predicate MayServe(wire: seq<Petition>, i: nat) {
    i < |wire| && forall j :: 0 <= j < i ==> wire[j].sector != wire[i].sector
  }

  /** The response at the head of the channel matches something in the sent list. */
  predicate Answers(d: Disk)
    requires d.resp != []
  {
    FirstMatch(d.sent, d.resp[0].sector, d.resp[0].kind) < |d.sent|
  }

  function Apply(s: State, step: Step): State
    requires Enabled(s, step)
  {
    match step
    case Submit(fd, kind, sector, data) => SubmitStep(s, fd, kind, sector, data)
    case Dispatch => if s.general[0].kind.Read? then DispatchRead(s) else DispatchWrite(s)
    case Copy => CopyStep(s)
    case EndRound => EndStep(s)
    case Requeue(i) => RequeueStep(s, i)
    case IssueSync(k) => IssueStep(s, k)
    case Send(k) => s.(ring := s.ring[k := SendOne(s.ring[k])])
    case Serve(k, i) => s.(ring := s.ring[k := ServeOne(s.ring[k], i)])
    case Receive(k) => ReceiveStep(s, k)
    case Join(content) => JoinStep(s, content)
    case Die(k) => DieStep(s, k)
  }

  function SubmitStep(s: State, fd: nat, kind: Kind, sector: nat, data: Data): State {
    var p := Petition(fd, kind, sector, data, false, 0, false, |s.submitted|, []);
    s.(general := s.general + [p], submitted := s.submitted + [p])
  }

  // ---- the consumer loop

  /** Everything a disk still has to do, in order. */
  function Ahead(d: Disk): seq<Petition> {
    d.wire + d.queue
  }

  /** The contents of the sector once the disk has done all of it. */
  function Eventual(d: Disk, sector: nat): Data {
    Settle(Lookup(d.content, sector), Ahead(d), sector, true)
  }

  /** A read is answered; what it will return is noted. */
  function ReadFor(p: Petition, d: Disk): Petition {
    p.(reply := true, wanted := Eventual(d, p.sector))
  }

  function PushRead(d: Disk, p: Petition): Disk {
    d.(queue := d.queue + [ReadFor(p, d)], readCount := d.readCount + 1)
  }

  /** The first up-to-date disk leaves the ring, takes the read and goes to its end. */
  function DispatchRead(s: State): State
    requires s.general != [] && SomeOk(s.ring)
  {
    var i := FirstOk(s.ring);
    FirstOkExists(s.ring);
    s.(general := s.general[1..],
       ring := Without(s.ring, i) + [PushRead(s.ring[i], s.general[0])])
  }

  lemma FirstOkExists(ring: seq<Disk>)
    requires SomeOk(ring)
    ensures FirstOk(ring) < |ring|
  {
  }

  /** The consumer has popped a write and goes round the ring. */
  function DispatchWrite(s: State): State
    requires s.general != []
  {
    var p := s.general[0];
    s.(general := s.general[1..],
       round := Some(Round(p, 0, 0, s.logical)),
       logical := s.logical[p.sector := p.data])
  }

  /** The disk at the head of the ring gets its copy, the first one with REPLY, and goes to the
      end. */
  function CopyStep(s: State): State
    requires s.round.Some? && s.ring != []
  {
    var r := s.round.value;
    s.(ring := s.ring[1..] + [PushWrite(s.ring[0], r.p, r.position == 0)],
       round := Some(r.(position := r.position + 1)))
  }

  /** How many disks, at the head of the ring, are without their copy. */
  function Waiting(s: State): int {
    if s.round.None? then 0 else |s.ring| - s.round.value.position + s.round.value.lost
  }

  /** A death shortens the ring while the loop counts on, so disks may be left out. */
  function EndStep(s: State): State
    requires s.round.Some?
  {
    var sector := s.round.value.p.sector;
    s.(round := None, stale := if Waiting(s) > 0 then s.stale + {sector} else s.stale - {sector})
  }

  function PushWrites(ring: seq<Disk>, p: Petition, first: bool): (r: seq<Disk>)
    ensures |r| == |ring|
    ensures forall i :: 0 <= i < |ring| ==> r[i] == PushWrite(ring[i], p, first && i == 0)
  {
    seq(|ring|, i requires 0 <= i < |ring| => PushWrite(ring[i], p, first && i == 0))
  }

  function PushWrite(d: Disk, p: Petition, reply: bool): Disk {
    d.(queue := d.queue + [p.(reply := reply)])
  }

  // ---- synchronisation

  /** The read of the next sector to be synchronised. */
  function SyncPetition(d: Disk): Petition {
    Petition(-1, Read, d.issued, [], false, d.id, true, 0, [])
  }

  function IssueStep(s: State, k: nat): State
    requires k < |s.ring|
  {
    var d := s.ring[k];
    s.(general := s.general + [SyncPetition(d)],
       ring := s.ring[k := d.(semaf := d.semaf - 1, issued := d.issued + 1)])
  }

  // ---- a disk thread, sending

  function Transmit(d: Disk, p: Petition): Disk {
    d.(sent := d.sent + [p], wire := d.wire + [p], log := d.log + [p])
  }

  predicate Repeated(ps: seq<Petition>, sector: nat) {
    exists i :: 0 <= i < |ps| && Hits(ps[i], sector, Write)
  }

  function SendOne(d: Disk): Disk
    requires d.queue != []
  {
    var p := d.queue[0];
    var d' := d.(queue := d.queue[1..]);
    if p.kind.Write? && d.state.Sync? && p.fd == -1 then SendSyncWrite(d', p) else SendOther(d', p)
  }

  /** A write of the synchronisation is dropped when a write to its sector was sent before or
      is queued behind it.  The second test is only made, and `auxFound` only refreshed, while
      something is queued. */
  function SendSyncWrite(d: Disk, p: Petition): Disk {
    var found := if d.queue != [] then Repeated(d.queue, p.sector) else d.auxFound;
    var d' := d.(auxFound := found);
    if !found && p.sector !in d.historic then Transmit(d', p)
    else d'.(skipped := d'.skipped + {p.sector})
  }

  function SendOther(d: Disk, p: Petition): Disk {
    var d' := Transmit(d, p);
    if p.kind.Write? && d.state.Sync? && p.fd != -1 then d'.(historic := d'.historic + {p.sector}) else d'
  }

  // ---- the disk

  function ServeOne(d: Disk, i: nat): Disk
    requires i < |d.wire|
  {
    var p := d.wire[i];
    var data := if p.kind.Read? then Lookup(d.content, p.sector) else [];
    d.(wire := Without(d.wire, i),
       resp := d.resp + [Response(p.kind, p.sector, data, p)],
       content := if p.kind.Write? then d.content[p.sector := p.data] else d.content)
  }

  // ---- a disk thread, receiving

  /** The sent petition that the next response is taken to answer. */
  function Matched(d: Disk): Petition
    requires d.resp != [] && Answers(d)
  {
    d.sent[FirstMatch(d.sent, d.resp[0].sector, d.resp[0].kind)]
  }

  /** Bookkeeping of the receiving disk: a finished sync write frees a slot, and the last one
      makes the disk up to date. */
  function Settled(d: Disk, total: nat): Disk
    requires d.resp != [] && Answers(d)
  {
    var p := Matched(d);
    var d' := d.(resp := d.resp[1..],
                 sent := Without(d.sent, FirstMatch(d.sent, d.resp[0].sector, d.resp[0].kind)));
    if p.fd == -1 && d.state.Sync? then
      var d'' := d'.(nSync := d.nSync + 1, semaf := d.semaf + 1, completed := d.completed + {p.sector});
      if d''.nSync == total then d''.(historic := {}, state := Ok) else d''
    else d'
  }

  predicate Promotes(d: Disk, total: nat)
    requires d.resp != [] && Answers(d)
  {
    d.state.Sync? && Settled(d, total).state.Ok?
  }

  /** A sync read turned into the write of what was read. */
  function SyncWriteFor(p: Petition, data: Data): Petition {
    p.(kind := Write, data := data, reply := false, toSync := false)
  }

  /** The client gets the response as it came. */
  function ReplyTo(p: Petition, r: Response): Reply {
    Reply(p.fd, r.kind, r.sector, r.data, p)
  }

  function ReceiveStep(s: State, k: nat): State
    requires k < |s.ring| && s.ring[k].resp != [] && Answers(s.ring[k])
  {
    var d := s.ring[k];
    var p := Matched(d);
    var ring := s.ring[k := Settled(d, s.total)];
    var ring' := if Promotes(d, s.total) then ResetReads(ring) else ring;
    if p.toSync && !(p.fd == -1 && d.state.Sync?) then
      s.(ring := PushSyncWrite(ring', SyncWriteFor(p, d.resp[0].data)))
    else if p.reply then
      s.(ring := ring', replied := s.replied + [ReplyTo(p, d.resp[0])])
    else
      s.(ring := ring')
  }

  function ResetReads(ring: seq<Disk>): (r: seq<Disk>)
    ensures |r| == |ring|
    ensures forall i :: 0 <= i < |ring| ==> r[i] == ring[i].(readCount := 0)
  {
    seq(|ring|, i requires 0 <= i < |ring| => ring[i].(readCount := 0))
  }

  /** The sector read for the synchronisation goes to the queue of the disk it is for; when
      that disk is gone, so is its queue. */
  function PushSyncWrite(ring: seq<Disk>, p: Petition): (r: seq<Disk>)
    ensures |r| == |ring|
    ensures forall i :: 0 <= i < |ring| ==>
              r[i] == if ring[i].id == p.owner then ring[i].(queue := ring[i].queue + [p]) else ring[i]
  {
    seq(|ring|, i requires 0 <= i < |ring| =>
      if ring[i].id == p.owner then ring[i].(queue := ring[i].queue + [p]) else ring[i])
  }

  // ---- membership

  function NewDisk(id: nat, state: DiskState, content: map<nat, Data>): Disk {
    Disk(id, state, [], [], {}, false, 0, SYNC_SLOTS, 0, content, [], [], {}, {}, [], 0)
  }

  /** The first disk is the master copy; any later one starts out of date. */
  function JoinStep(s: State, content: map<nat, Data>): State {
    var first := s.ring == [];
    s.(ring := ResetReads(s.ring) + [NewDisk(s.nextDisk, if first then Ok else Sync, content)],
       nextDisk := s.nextDisk + 1,
       logical := if first then content else s.logical)
  }

  /** What a disk fault puts back at the head of the general queue, the last one first. */
  function Requeued(d: Disk): seq<Petition> {
    Replying(d.sent + d.queue)
  }

  /** Without an up-to-date disk left the process exits. */
  function DieStep(s: State, k: nat): State
    requires k < |s.ring|
  {
    var ring := Without(s.ring, k);
    if !SomeOk(ring) then s.(running := false)
    else
      s.(ring := ResetReads(ring), orphans := s.orphans + Requeued(s.ring[k]),
         round := if s.round.Some? && k >= Waiting(s)
                  then Some(s.round.value.(lost := s.round.value.lost + 1)) else s.round)
  }

  /** The threads of several dead disks put their petitions back in whatever order. */
  function RequeueStep(s: State, i: nat): State
    requires i < |s.orphans|
  {
    s.(general := [s.orphans[i]] + s.general, orphans := Without(s.orphans, i))
  }

  /** A step that is not enabled does nothing. */
  function Next(s: State, step: Step): State {
    if Enabled(s, step) then Apply(s, step) else s
  }

  function Run(s: State, steps: seq<Step>): State
    decreases steps
  {
    if steps == [] then s else Run(Next(s, steps[0]), steps[1..])
  }

  lemma {:induction false} RunConcat(s: State, a: seq<Step>, b: seq<Step>)
    ensures Run(s, a + b) == Run(Run(s, a), b)
    decreases a
  {
    if a == [] {
      assert a + b == b;
    } else {
      assert (a + b)[1..] == a[1..] + b;
      RunConcat(Next(s, a[0]), a[1..], b);
    }
  }

  lemma RunThen(s: State, steps: seq<Step>, step: Step)
    ensures Run(s, steps + [step]) == Next(Run(s, steps), step)
  {
    RunConcat(s, steps, [step]);
    assert Run(Run(s, steps), [step]) == Run(Next(Run(s, steps), step), []);
  }

  /** The state of a RAID for disks of `total` sectors after the given steps. */
  function After(total: nat, steps: seq<Step>): State {
    Run(Init(total), steps)
  }
}
