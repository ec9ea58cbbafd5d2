/** Nothing is lost or answered twice: for every key, the petitions that still count, the
    replies sent and the sectors settled add up to what was ever issued. */
module MirrorAccounts {
  import opened Options
  import opened Petitions
  import opened Mirror
  import opened MirrorShape

  function Held(d: Disk, key: Key): nat {
    Count(d.queue, key, false) + Count(d.sent, key, false)
  }

  function RingHeld(ring: seq<Disk>, key: Key): nat {
    if ring == [] then 0 else Held(ring[0], key) + RingHeld(ring[1..], key)
  }

  /** A write popped by the consumer whose first copy is still to be given. */
  function Popped(round: Option<Round>, key: Key): nat {
    One(round.Some? && round.value.position == 0 && Matches(round.value.p, key))
  }

  /** Petitions under `key` that wait to be dispatched. */
  function Undispatched(s: State, key: Key): nat {
    Count(s.general, key, true) + Count(s.orphans, key, true) + Popped(s.round, key)
  }

  /** Petitions under `key` still in the process: all those that wait, and in the hands of the
      disks those with REPLY or of a synchronisation. */
  function Owed(s: State, key: Key): nat {
    Undispatched(s, key) + RingHeld(s.ring, key)
  }

  function RepliesTo(replied: seq<Reply>, id: nat): nat {
    if replied == [] then 0 else RepliesTo(replied[..|replied| - 1], id) + One(replied[|replied| - 1].to.id == id)
  }

  function One(b: bool): nat { if b then 1 else 0 }

  /** A sector of a synchronisation is under way, done or given up, and only one of these;
      before its turn comes it is none. */
  predicate SectorLaw(s: State, d: Disk, sector: nat) {
    Owed(s, SectorKey(d.id, sector)) + One(sector in d.completed) + One(sector in d.skipped)
    == One(sector < d.issued)
  }

  /** The totals of a synchronisation: the semaphore, the sectors under way, those done and
      those given up. */
  predicate TotalLaw(s: State, d: Disk) {
    && Owed(s, OwnerKey(d.id)) + d.nSync + |d.skipped| == d.issued
    && d.nSync == |d.completed|
    && d.semaf + d.issued == SYNC_SLOTS + d.nSync
    && 0 <= d.semaf && d.issued <= s.total
    && (d.state.Ok? ==> Owed(s, OwnerKey(d.id)) == 0 && d.skipped == {})
    && (d.state.Sync? && s.total > 0 ==> d.nSync != s.total)
  }

  ghost predicate SyncLaws(s: State, d: Disk) {
    TotalLaw(s, d) && forall sector: nat :: SectorLaw(s, d, sector)
  }

  ghost predicate Laws(s: State) {
    && (forall id: nat :: Owed(s, ClientKey(id)) + RepliesTo(s.replied, id) == One(id < |s.submitted|))
    && (forall k :: 0 <= k < |s.ring| ==> SyncLaws(s, s.ring[k]))
    && (forall owner: nat :: owner >= s.nextDisk ==> Owed(s, OwnerKey(owner)) == 0)
  }

  // ---- sums over the ring

  lemma {:induction false} RingHeldConcat(a: seq<Disk>, b: seq<Disk>, key: Key)
    ensures RingHeld(a + b, key) == RingHeld(a, key) + RingHeld(b, key)
  {
    if a == [] {
      assert a + b == b;
    } else {
      assert (a + b)[1..] == a[1..] + b;
      RingHeldConcat(a[1..], b, key);
    }
  }

  lemma RingHeldWithout(ring: seq<Disk>, k: nat, key: Key)
    requires k < |ring|
    ensures RingHeld(ring, key) == Held(ring[k], key) + RingHeld(Without(ring, k), key)
  {
    assert ring == ring[..k] + ([ring[k]] + ring[k + 1..]);
    RingHeldConcat(ring[..k], [ring[k]] + ring[k + 1..], key);
    RingHeldConcat(ring[..k], ring[k + 1..], key);
  }

  lemma RingHeldUpdate(ring: seq<Disk>, k: nat, d: Disk, key: Key)
    requires k < |ring|
    ensures RingHeld(ring[k := d], key) + Held(ring[k], key) == RingHeld(ring, key) + Held(d, key)
  {
    RingHeldWithout(ring, k, key);
    RingHeldWithout(ring[k := d], k, key);
    assert Without(ring[k := d], k) == Without(ring, k);
  }

  lemma {:induction false} RingHeldSame(a: seq<Disk>, b: seq<Disk>, key: Key)
    requires |a| == |b| && forall i :: 0 <= i < |a| ==> Held(a[i], key) == Held(b[i], key)
    ensures RingHeld(a, key) == RingHeld(b, key)
  {
    if a != [] { RingHeldSame(a[1..], b[1..], key); }
  }

  lemma HeldPush(d: Disk, p: Petition, key: Key)
    ensures Held(d.(queue := d.queue + [p]), key) == Held(d, key) + One(Counts(p, key, false))
  {
    CountConcat(d.queue, [p], key, false);
  }

  lemma OwedAtLeast(s: State, k: nat, p: Petition, key: Key)
    requires k < |s.ring| && (p in s.ring[k].queue || p in s.ring[k].sent) && Counts(p, key, false)
    ensures Owed(s, key) >= 1
  {
    RingHeldWithout(s.ring, k, key);
    if p in s.ring[k].queue {
      CountMember(s.ring[k].queue, p, key, false);
    } else {
      CountMember(s.ring[k].sent, p, key, false);
    }
  }

  lemma {:induction false} CountSectorLeOwner(ps: seq<Petition>, owner: nat, sector: nat, all: bool)
    ensures Count(ps, SectorKey(owner, sector), all) <= Count(ps, OwnerKey(owner), all)
  {
    if ps != [] { CountSectorLeOwner(ps[1..], owner, sector, all); }
  }

  lemma {:induction false} RingSectorLeOwner(ring: seq<Disk>, owner: nat, sector: nat)
    ensures RingHeld(ring, SectorKey(owner, sector)) <= RingHeld(ring, OwnerKey(owner))
  {
    if ring != [] {
      CountSectorLeOwner(ring[0].queue, owner, sector, false);
      CountSectorLeOwner(ring[0].sent, owner, sector, false);
      RingSectorLeOwner(ring[1..], owner, sector);
    }
  }

  lemma OwedSectorLeOwner(s: State, owner: nat, sector: nat)
    ensures Owed(s, SectorKey(owner, sector)) <= Owed(s, OwnerKey(owner))
  {
    CountSectorLeOwner(s.general, owner, sector, true);
    CountSectorLeOwner(s.orphans, owner, sector, true);
    RingSectorLeOwner(s.ring, owner, sector);
  }

  // ---- what each step does to what is owed

  lemma OwedDispatchRead(s: State, key: Key)
    requires s.general != [] && SomeOk(s.ring)
    ensures Owed(DispatchRead(s), key) == Owed(s, key)
  {
    assert s.general == [s.general[0]] + s.general[1..];
    var i := FirstOk(s.ring);
    FirstOkExists(s.ring);
    var d := s.ring[i];
    var d' := PushRead(d, s.general[0]);
    HeldPush(d, ReadFor(s.general[0], d), key);
    RingHeldWithout(s.ring, i, key);
    RingHeldConcat(Without(s.ring, i), [d'], key);
    assert RingHeld([d'], key) == Held(d', key);
  }

  lemma OwedDispatchWrite(s: State, key: Key)
    requires s.general != [] && s.round.None?
    ensures Owed(DispatchWrite(s), key) == Owed(s, key)
  {
    assert s.general == [s.general[0]] + s.general[1..];
  }

  /** Of the copies of a write the first one is owed, and only this. */
  lemma OwedCopy(s: State, key: Key)
    requires s.round.Some? && s.ring != [] && s.round.value.p.fd >= 0
    ensures Owed(CopyStep(s), key) == Owed(s, key)
  {
    var r := s.round.value;
    var d' := PushWrite(s.ring[0], r.p, r.position == 0);
    HeldPush(s.ring[0], r.p.(reply := r.position == 0), key);
    RingHeldConcat(s.ring[1..], [d'], key);
    assert RingHeld([d'], key) == Held(d', key);
  }

  lemma OwedRequeue(s: State, i: nat, key: Key)
    requires i < |s.orphans|
    ensures Owed(RequeueStep(s, i), key) == Owed(s, key)
  {
    CountWithout(s.orphans, i, key, true);
    CountConcat([s.orphans[i]], s.general, key, true);
  }

  predicate Skips(d: Disk)
    requires d.queue != []
  {
    SendOne(d).sent == d.sent
  }

  lemma HeldSend(d: Disk, key: Key)
    requires d.queue != []
    ensures Held(d, key) == Held(SendOne(d), key) + One(Skips(d) && Counts(d.queue[0], key, false))
  {
    CountConcat(d.sent, [d.queue[0]], key, false);
    assert |d.sent + [d.queue[0]]| != |d.sent|;
  }

  lemma OwedUpdate(s: State, k: nat, d: Disk, key: Key)
    requires k < |s.ring|
    ensures Owed(s.(ring := s.ring[k := d]), key) + Held(s.ring[k], key) == Owed(s, key) + Held(d, key)
  {
    RingHeldUpdate(s.ring, k, d, key);
  }

  lemma HeldSettled(d: Disk, total: nat, key: Key)
    requires d.resp != [] && Answers(d)
    ensures Held(d, key) == Held(Settled(d, total), key) + One(Counts(Matched(d), key, false))
  {
    CountWithout(d.sent, FirstMatch(d.sent, d.resp[0].sector, d.resp[0].kind), key, false);
  }

  predicate HasDisk(ring: seq<Disk>, id: nat) {
    exists i :: 0 <= i < |ring| && ring[i].id == id
  }

  /** The sync write takes over the count of the read it comes from. */
  lemma {:induction false} RingHeldSyncWrite(ring: seq<Disk>, p: Petition, key: Key)
    requires forall i, j :: 0 <= i < j < |ring| ==> ring[i].id != ring[j].id
    ensures RingHeld(PushSyncWrite(ring, p), key) ==
            RingHeld(ring, key) + One(Counts(p, key, false) && HasDisk(ring, p.owner))
  {
    if ring != [] {
      var tail := ring[1..];
      assert PushSyncWrite(ring, p)[1..] == PushSyncWrite(tail, p);
      RingHeldSyncWrite(tail, p, key);
      HeldPush(ring[0], p, key);
      assert HasDisk(ring, p.owner) == (ring[0].id == p.owner || HasDisk(tail, p.owner)) by {
        assert ring == [ring[0]] + tail;
      }
      if ring[0].id == p.owner {
        forall i | 0 <= i < |tail|
          ensures tail[i].id != p.owner
        {
          assert tail[i] == ring[i + 1];
        }
      }
    }
  }

  lemma OwedSend(s: State, k: nat, key: Key)
    requires k < |s.ring| && s.ring[k].queue != []
    ensures Owed(s, key) == Owed(s.(ring := s.ring[k := SendOne(s.ring[k])]), key)
                            + One(Skips(s.ring[k]) && Counts(s.ring[k].queue[0], key, false))
  {
    HeldSend(s.ring[k], key);
    OwedUpdate(s, k, SendOne(s.ring[k]), key);
  }

  /** The ring once the receiving thread has done its own bookkeeping. */
  function RingSettled(s: State, k: nat): seq<Disk>
    requires k < |s.ring| && s.ring[k].resp != [] && Answers(s.ring[k])
  {
    var ring := s.ring[k := Settled(s.ring[k], s.total)];
    if Promotes(s.ring[k], s.total) then ResetReads(ring) else ring
  }

  lemma RingHeldSettled(s: State, k: nat, key: Key)
    requires k < |s.ring| && s.ring[k].resp != [] && Answers(s.ring[k])
    ensures RingHeld(s.ring, key) == RingHeld(RingSettled(s, k), key) + One(Counts(Matched(s.ring[k]), key, false))
  {
    var d' := Settled(s.ring[k], s.total);
    HeldSettled(s.ring[k], s.total, key);
    RingHeldUpdate(s.ring, k, d', key);
    RingHeldSame(s.ring[k := d'], ResetReads(s.ring[k := d']), key);
  }

  /** A sync read received is still owed, now as a sync write, while its disk lives. */
  lemma OwedReceive(s: State, k: nat, key: Key)
    requires k < |s.ring| && s.ring[k].resp != [] && Answers(s.ring[k])
    requires forall i, j :: 0 <= i < j < |s.ring| ==> s.ring[i].id != s.ring[j].id
    requires Belongs(Matched(s.ring[k]), s.ring[k])
    ensures var p := Matched(s.ring[k]);
            Owed(s, key) == Owed(ReceiveStep(s, k), key)
                            + One(Counts(p, key, false) && !(p.toSync && HasDisk(s.ring, p.owner)))
  {
    var p := Matched(s.ring[k]);
    var ring := RingSettled(s, k);
    RingHeldSettled(s, k, key);
    assert |ring| == |s.ring| && forall i :: 0 <= i < |ring| ==> ring[i].id == s.ring[i].id;
    if p.toSync {
      var q := SyncWriteFor(p, s.ring[k].resp[0].data);
      RingHeldSyncWrite(ring, q, key);
      assert HasDisk(ring, p.owner) == HasDisk(s.ring, p.owner);
    }
  }

  lemma OwedDie(s: State, k: nat, key: Key)
    requires k < |s.ring| && SomeOk(Without(s.ring, k))
    requires forall p :: p in s.ring[k].sent + s.ring[k].queue && Counts(p, key, false) ==> p.reply
    ensures Owed(DieStep(s, k), key) == Owed(s, key)
  {
    var d := s.ring[k];
    CountConcat(d.sent, d.queue, key, false);
    CountReplying(d.sent + d.queue, key);
    CountConcat(s.orphans, Requeued(d), key, true);
    RingHeldWithout(s.ring, k, key);
    RingHeldSame(Without(s.ring, k), ResetReads(Without(s.ring, k)), key);
  }

  // ---- the laws are kept

  predicate SameBooks(d: Disk, d': Disk) {
    && d.id == d'.id && d.state == d'.state && d.completed == d'.completed && d.skipped == d'.skipped
    && d.nSync == d'.nSync && d.semaf == d'.semaf && d.issued == d'.issued
  }

  lemma SyncLawsKept(s: State, d: Disk, s': State, d': Disk)
    requires SyncLaws(s, d) && SameBooks(d, d') && s.total == s'.total
    requires forall key: Key :: key.OwnerKey? || key.SectorKey? ==> key.owner == d.id ==> Owed(s', key) == Owed(s, key)
    ensures SyncLaws(s', d')
  {
    forall sector: nat
      ensures SectorLaw(s', d', sector)
    {
      assert SectorLaw(s, d, sector);
    }
  }

  lemma LawsSubmit(s: State, step: Step)
    requires Laws(s) && step.Submit? && Enabled(s, step)
    ensures Laws(Apply(s, step))
  {
    var s' := Apply(s, step);
    var p := s'.general[|s.general|];
    forall key: Key
      ensures Owed(s', key) == Owed(s, key) + One(Matches(p, key))
    {
      CountConcat(s.general, [p], key, true);
    }
    forall k | 0 <= k < |s'.ring|
      ensures SyncLaws(s', s'.ring[k])
    {
      SyncLawsKept(s, s.ring[k], s', s'.ring[k]);
    }
  }

  /** Each disk after a dispatch or a copy was somewhere in the ring before it, with the same
      books. */
  lemma DispatchSource(s: State, step: Step, k: nat) returns (j: nat)
    requires Enabled(s, step) && (step.Dispatch? || step.Copy?) && k < |s.ring|
    ensures |Apply(s, step).ring| == |s.ring|
    ensures j < |s.ring| && SameBooks(s.ring[j], Apply(s, step).ring[k])
  {
    if step.Copy? {
      j := if k < |s.ring| - 1 then k + 1 else 0;
    } else {
      FirstOkExists(s.ring);
      var i := FirstOk(s.ring);
      j := if s.general[0].kind.Write? || k < i then k else if k < |s.ring| - 1 then k + 1 else i;
    }
  }

  lemma LawsDispatch(s: State, step: Step)
    requires Laws(s) && Enabled(s, step) && (step.Dispatch? || step.Copy?)
    requires step.Copy? ==> s.round.value.p.fd >= 0
    requires s.running && s.ring != []
    ensures Laws(Apply(s, step))
  {
    var s' := Apply(s, step);
    forall key: Key
      ensures Owed(s', key) == Owed(s, key)
    {
      if step.Copy? {
        OwedCopy(s, key);
      } else if s.general[0].kind.Read? {
        OwedDispatchRead(s, key);
      } else {
        OwedDispatchWrite(s, key);
      }
    }
    forall k | 0 <= k < |s'.ring|
      ensures SyncLaws(s', s'.ring[k])
    {
      var j := DispatchSource(s, step, k);
      SyncLawsKept(s, s.ring[j], s', s'.ring[k]);
    }
  }

  /** Steps that touch no disk and lose no petition. */
  lemma LawsSameRing(s: State, s': State)
    requires Laws(s) && s'.ring == s.ring && s'.total == s.total && s'.nextDisk == s.nextDisk
    requires s'.submitted == s.submitted && s'.replied == s.replied
    requires forall key: Key :: Owed(s', key) == Owed(s, key)
    ensures Laws(s')
  {
    forall k | 0 <= k < |s'.ring|
      ensures SyncLaws(s', s'.ring[k])
    {
      SyncLawsKept(s, s.ring[k], s', s'.ring[k]);
    }
  }

  lemma LawsEndRound(s: State)
    requires Laws(s) && Enabled(s, EndRound) && s.ring != []
    ensures Laws(Apply(s, EndRound))
  {
    LawsSameRing(s, EndStep(s));
  }

  lemma LawsRequeue(s: State, i: nat)
    requires Laws(s) && Enabled(s, Requeue(i))
    ensures Laws(Apply(s, Requeue(i)))
  {
    forall key: Key
      ensures Owed(RequeueStep(s, i), key) == Owed(s, key)
    {
      OwedRequeue(s, i, key);
    }
    LawsSameRing(s, RequeueStep(s, i));
  }

  lemma LawsIssue(s: State, k: nat)
    requires Laws(s) && Enabled(s, IssueSync(k))
    requires forall i, j :: 0 <= i < j < |s.ring| ==> s.ring[i].id != s.ring[j].id
    requires s.ring[k].id < s.nextDisk
    ensures Laws(Apply(s, IssueSync(k)))
  {
    var s' := Apply(s, IssueSync(k));
    var p := s'.general[|s.general|];
    forall key: Key
      ensures Owed(s', key) == Owed(s, key) + One(Matches(p, key))
    {
      CountConcat(s.general, [p], key, true);
      RingHeldUpdate(s.ring, k, s'.ring[k], key);
    }
    forall i | 0 <= i < |s'.ring|
      ensures SyncLaws(s', s'.ring[i])
    {
      if i == k {
        forall sector: nat
          ensures SectorLaw(s', s'.ring[i], sector)
        {
          assert SectorLaw(s, s.ring[i], sector);
        }
      } else {
        SyncLawsKept(s, s.ring[i], s', s'.ring[i]);
      }
    }
  }

  lemma LawsSend(s: State, k: nat)
    requires Laws(s) && Enabled(s, Send(k))
    requires forall i, j :: 0 <= i < j < |s.ring| ==> s.ring[i].id != s.ring[j].id
    requires Belongs(s.ring[k].queue[0], s.ring[k])
    ensures Laws(Apply(s, Send(k)))
  {
    var s' := Apply(s, Send(k));
    var d := s.ring[k];
    var p := d.queue[0];
    forall key: Key
      ensures Owed(s, key) == Owed(s', key) + One(Skips(d) && Counts(p, key, false))
    {
      OwedSend(s, k, key);
    }
    SkipIsSync(d);
    forall i | 0 <= i < |s'.ring|
      ensures SyncLaws(s', s'.ring[i])
    {
      if i == k && Skips(d) {
        SkipLaws(s, k);
      } else {
        SyncLawsKept(s, s.ring[i], s', s'.ring[i]);
      }
    }
  }

  lemma SkipIsSync(d: Disk)
    requires d.queue != []
    ensures Skips(d) ==> d.queue[0].fd == -1 && d.queue[0].kind.Write? && d.state.Sync?
    ensures SameBooks(d, SendOne(d).(skipped := d.skipped))
    ensures SendOne(d).skipped == if Skips(d) then d.skipped + {d.queue[0].sector} else d.skipped
  {
    assert |d.sent + [d.queue[0]]| != |d.sent|;
  }

  lemma SkipLaws(s: State, k: nat)
    requires k < |s.ring| && s.ring[k].queue != [] && Skips(s.ring[k])
    requires SyncLaws(s, s.ring[k]) && Belongs(s.ring[k].queue[0], s.ring[k])
    ensures var s' := s.(ring := s.ring[k := SendOne(s.ring[k])]); SyncLaws(s', s'.ring[k])
  {
    var d := s.ring[k];
    var p := d.queue[0];
    var s' := s.(ring := s.ring[k := SendOne(d)]);
    SkipIsSync(d);
    OwedAtLeast(s, k, p, SectorKey(d.id, p.sector));
    assert SectorLaw(s, d, p.sector);
    OwedSend(s, k, OwnerKey(d.id));
    forall sector: nat
      ensures SectorLaw(s', s'.ring[k], sector)
    {
      OwedSend(s, k, SectorKey(d.id, sector));
      assert SectorLaw(s, d, sector);
    }
  }

  lemma LawsServe(s: State, k: nat, i: nat)
    requires Laws(s) && Enabled(s, Serve(k, i))
    ensures Laws(Apply(s, Serve(k, i)))
  {
    var s' := Apply(s, Serve(k, i));
    forall key: Key
      ensures Owed(s', key) == Owed(s, key)
    {
      OwedUpdate(s, k, ServeOne(s.ring[k], i), key);
    }
    forall j | 0 <= j < |s'.ring|
      ensures SyncLaws(s', s'.ring[j])
    {
      SyncLawsKept(s, s.ring[j], s', s'.ring[j]);
    }
  }

  // ---- receiving

  predicate Finishes(d: Disk)
    requires d.resp != [] && Answers(d)
  {
    Matched(d).fd == -1 && d.state.Sync?
  }

  lemma LawsReceive(s: State, k: nat)
    requires Laws(s) && Enabled(s, Receive(k))
    requires forall i, j :: 0 <= i < j < |s.ring| ==> s.ring[i].id != s.ring[j].id
    requires Belongs(Matched(s.ring[k]), s.ring[k])
    requires forall i :: 0 <= i < |s.ring| ==> s.ring[i].id < s.nextDisk
    ensures Laws(Apply(s, Receive(k)))
  {
    var s' := Apply(s, Receive(k));
    var d := s.ring[k];
    var p := Matched(d);
    forall key: Key
      ensures Owed(s, key) == Owed(s', key) + One(Counts(p, key, false) && !(p.toSync && HasDisk(s.ring, p.owner)))
    {
      OwedReceive(s, k, key);
    }
    RepliesReceive(s, k);
    forall i | 0 <= i < |s'.ring|
      ensures SyncLaws(s', s'.ring[i])
    {
      ReceiveBooks(s, k, i);
      if i == k && Finishes(d) {
        FinishLaws(s, k);
      } else {
        assert p.fd == -1 && p.owner == s.ring[i].id ==> HasDisk(s.ring, p.owner);
        SyncLawsKept(s, s.ring[i], s', s'.ring[i]);
      }
    }
  }

  lemma RepliesReceive(s: State, k: nat)
    requires Enabled(s, Receive(k)) && Belongs(Matched(s.ring[k]), s.ring[k])
    ensures forall id: nat :: RepliesTo(Apply(s, Receive(k)).replied, id) ==
              RepliesTo(s.replied, id) + One(Counts(Matched(s.ring[k]), ClientKey(id), false))
  {
    var p := Matched(s.ring[k]);
    var s' := Apply(s, Receive(k));
    if !p.toSync && p.reply {
      var r := ReplyTo(p, s.ring[k].resp[0]);
      assert s'.replied == s.replied + [r];
      assert s'.replied[..|s'.replied| - 1] == s.replied;
    }
  }

  /** Only a sync write received by the disk being synchronised changes any books. */
  lemma ReceiveBooks(s: State, k: nat, i: nat)
    requires Enabled(s, Receive(k)) && i < |s.ring|
    ensures |Apply(s, Receive(k)).ring| == |s.ring|
    ensures SameBooks(if i == k then Settled(s.ring[k], s.total) else s.ring[i], Apply(s, Receive(k)).ring[i])
    ensures !Finishes(s.ring[k]) ==> SameBooks(s.ring[k], Settled(s.ring[k], s.total))
  {
    SettledBooks(s.ring[k], s.total);
  }

  lemma SettledBooks(d: Disk, total: nat)
    requires d.resp != [] && Answers(d)
    ensures !Finishes(d) ==> SameBooks(d, Settled(d, total))
  {
  }

  lemma FinishLaws(s: State, k: nat)
    requires Enabled(s, Receive(k)) && Finishes(s.ring[k])
    requires forall i, j :: 0 <= i < j < |s.ring| ==> s.ring[i].id != s.ring[j].id
    requires SyncLaws(s, s.ring[k]) && Belongs(Matched(s.ring[k]), s.ring[k])
    ensures var s' := Apply(s, Receive(k)); |s'.ring| == |s.ring| && SyncLaws(s', s'.ring[k])
  {
    var d := s.ring[k];
    var p := Matched(d);
    var s' := Apply(s, Receive(k));
    ReceiveBooks(s, k, k);
    OwedAtLeast(s, k, p, SectorKey(d.id, p.sector));
    assert SectorLaw(s, d, p.sector);
    OwedReceive(s, k, OwnerKey(d.id));
    forall sector: nat
      ensures SectorLaw(s', s'.ring[k], sector)
    {
      OwedReceive(s, k, SectorKey(d.id, sector));
      assert SectorLaw(s, d, sector);
    }
  }

  // ---- membership

  lemma LawsJoin(s: State, content: map<nat, Data>)
    requires Laws(s) && Enabled(s, Join(content))
    ensures Laws(Apply(s, Join(content)))
  {
    var s' := Apply(s, Join(content));
    var d := s'.ring[|s.ring|];
    forall key: Key
      ensures Owed(s', key) == Owed(s, key)
    {
      RingHeldSame(s.ring, ResetReads(s.ring), key);
      RingHeldConcat(ResetReads(s.ring), [d], key);
      assert RingHeld([d], key) == Held(d, key);
    }
    forall k | 0 <= k < |s'.ring|
      ensures SyncLaws(s', s'.ring[k])
    {
      if k == |s.ring| {
        forall sector: nat
          ensures SectorLaw(s', d, sector)
        {
          OwedSectorLeOwner(s, d.id, sector);
        }
      } else {
        SyncLawsKept(s, s.ring[k], s', s'.ring[k]);
      }
    }
  }

  lemma LawsDie(s: State, k: nat)
    requires Laws(s) && Enabled(s, Die(k))
    requires forall i, j :: 0 <= i < j < |s.ring| ==> s.ring[i].id != s.ring[j].id
    requires forall p :: p in s.ring[k].sent + s.ring[k].queue ==> Belongs(p, s.ring[k])
    requires s.ring[k].id < s.nextDisk
    ensures Laws(Apply(s, Die(k)))
  {
    var s' := Apply(s, Die(k));
    if s'.running {
      forall key: Key | key.ClientKey? || key.owner != s.ring[k].id
        ensures Owed(s', key) == Owed(s, key)
      {
        OwedDie(s, k, key);
      }
      forall i | 0 <= i < |s'.ring|
        ensures SyncLaws(s', s'.ring[i])
      {
        var j := SurvivorBooks(s, k, i);
        SyncLawsKept(s, s.ring[j], s', s'.ring[i]);
      }
    } else {
      StoppedLaws(s, k);
    }
  }

  /** A disk that is left was in the ring before, as it is. */
  lemma SurvivorBooks(s: State, k: nat, i: nat) returns (j: nat)
    requires Enabled(s, Die(k)) && Apply(s, Die(k)).running && i < |Apply(s, Die(k)).ring|
    ensures j < |s.ring| && j != k && SameBooks(s.ring[j], Apply(s, Die(k)).ring[i])
  {
    j := if i < k then i else i + 1;
  }

  lemma StoppedLaws(s: State, k: nat)
    requires Laws(s) && Enabled(s, Die(k)) && !Apply(s, Die(k)).running
    ensures Laws(Apply(s, Die(k)))
  {
    var s' := Apply(s, Die(k));
    forall i | 0 <= i < |s'.ring|
      ensures SyncLaws(s', s'.ring[i])
    {
      SyncLawsKept(s, s.ring[i], s', s'.ring[i]);
    }
  }
}
