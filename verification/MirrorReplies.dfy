/** Whom the replies go to, and when what they answer was dispatched. */
module MirrorReplies {
  import opened Petitions
  import opened Mirror
  import opened MirrorAccounts
  import opened MirrorInvariant
  import opened MirrorMarks
  import opened MirrorRequests
  import opened MirrorShape
  import opened MirrorTheorems

  // ---- where the petitions in the hands of the disks come from

  predicate Held(s: State, p: Petition) {
    exists k :: 0 <= k < |s.ring| && InHands(s.ring[k], p)
  }

  lemma HeldAt(s: State, k: nat, p: Petition)
    requires k < |s.ring| && InHands(s.ring[k], p)
    ensures Held(s, p)
  {
  }

  /** The petition that the step puts into a queue. */
  predicate Pushed(s: State, step: Step, p: Petition)
    requires Enabled(s, step)
  {
    || (step.Dispatch? && s.general[0].kind.Read? && FirstOk(s.ring) < |s.ring|
        && p == ReadFor(s.general[0], s.ring[FirstOk(s.ring)]))
    || (step.Copy? && p == s.round.value.p.(reply := s.round.value.position == 0))
  }

  /** Steps that leave every disk in its place and push nothing. */
  lemma HeldStill(s: State, step: Step, i: nat, p: Petition)
    requires Enabled(s, step) && i < |s.ring| == |Apply(s, step).ring| && InHands(Apply(s, step).ring[i], p)
    requires step.Submit? || step.EndRound? || step.Requeue? || step.IssueSync? || step.Send? || step.Serve?
    ensures Held(s, p)
  {
    HeldAt(s, i, p);
  }

  lemma HeldDispatch(s: State, i: nat, p: Petition)
    requires Enabled(s, Dispatch) && i < |s.ring| == |Apply(s, Dispatch).ring| && InHands(Apply(s, Dispatch).ring[i], p)
    ensures Held(s, p) || Pushed(s, Dispatch, p)
  {
    FirstOkExists(s.ring);
    var j := Before(s, Dispatch, i);
    if InHands(s.ring[j], p) { HeldAt(s, j, p); }
  }

  lemma HeldCopy(s: State, i: nat, p: Petition)
    requires Enabled(s, Copy) && i < |s.ring| && InHands(CopyStep(s).ring[i], p)
    ensures Held(s, p) || Pushed(s, Copy, p)
  {
    var j := Before(s, Copy, i);
    if InHands(s.ring[j], p) { HeldAt(s, j, p); }
  }

  lemma HeldReceive(s: State, k: nat, i: nat, p: Petition)
    requires Enabled(s, Receive(k)) && Belongs(Matched(s.ring[k]), s.ring[k])
    requires i < |Apply(s, Receive(k)).ring| && InHands(Apply(s, Receive(k)).ring[i], p) && p.fd >= 0
    ensures Held(s, p)
  {
    var q := Matched(s.ring[k]);
    var e := RingSettled(s, k)[i];
    assert p in Apply(s, Receive(k)).ring[i].queue ==> p in e.queue || p.fd == q.fd == -1;
    assert InHands(e, p);
    HeldAt(s, i, p);
  }

  lemma HeldDie(s: State, k: nat, i: nat, p: Petition)
    requires Enabled(s, Die(k)) && i < |Apply(s, Die(k)).ring| && InHands(Apply(s, Die(k)).ring[i], p)
    ensures Held(s, p)
  {
    HeldAt(s, Before(s, Die(k), i), p);
  }

  lemma HeldJoin(s: State, content: map<nat, Data>, i: nat, p: Petition)
    requires i < |JoinStep(s, content).ring| && InHands(JoinStep(s, content).ring[i], p)
    ensures Held(s, p)
  {
    HeldAt(s, i, p);
  }

  lemma StillRing(s: State, step: Step)
    requires Enabled(s, step)
    requires step.Submit? || step.EndRound? || step.Requeue? || step.IssueSync? || step.Send? || step.Serve?
    ensures |Apply(s, step).ring| == |s.ring|
  {
  }

  lemma HeldBeforeAt(s: State, step: Step, i: nat, p: Petition)
    requires Inv(s) && Enabled(s, step) && p.fd >= 0
    requires i < |Apply(s, step).ring| && InHands(Apply(s, step).ring[i], p)
    ensures Held(s, p) || Pushed(s, step, p)
  {
    match step
    case Dispatch => if s.general[0].kind.Read? { HeldDispatch(s, i, p); } else { HeldAt(s, i, p); }
    case Copy => HeldCopy(s, i, p);
    case Receive(k) =>
      assert DiskShape(s.ring[k], s.total) && Belongs(Matched(s.ring[k]), s.ring[k]);
      HeldReceive(s, k, i, p);
    case Join(content) => HeldJoin(s, content, i, p);
    case Die(k) => HeldDie(s, k, i, p);
    case _ =>
      StillRing(s, step);
      HeldStill(s, step, i, p);
  }

  /** A client petition in the hands of a disk was there before, or was just pushed. */
  lemma HeldBefore(s: State, step: Step, p: Petition)
    requires Inv(s) && Enabled(s, step) && Held(Apply(s, step), p) && p.fd >= 0
    ensures Held(s, p) || Pushed(s, step, p)
  {
    var i :| 0 <= i < |Apply(s, step).ring| && InHands(Apply(s, step).ring[i], p);
    HeldBeforeAt(s, step, i, p);
  }

  // ---- where those that wait come from, and the replies

  predicate Waits(s: State, p: Petition) {
    p in s.general || p in s.orphans || (s.round.Some? && p == s.round.value.p)
  }

  lemma WaitsDie(s: State, k: nat, p: Petition)
    requires Enabled(s, Die(k)) && Waits(Apply(s, Die(k)), p)
    ensures Waits(s, p) || Held(s, p)
  {
    ReplyingMembers(s.ring[k].sent + s.ring[k].queue, p);
    if InHands(s.ring[k], p) { HeldAt(s, k, p); }
  }

  /** A client petition that waits did so before, was with a disk that died, or was just
      submitted. */
  lemma WaitsBefore(s: State, step: Step, p: Petition)
    requires Enabled(s, step) && Waits(Apply(s, step), p) && p.fd >= 0
    ensures Waits(s, p) || Held(s, p) || (step.Submit? && p == Apply(s, step).submitted[|s.submitted|])
  {
    match step
    case Die(k) => WaitsDie(s, k, p);
    case _ =>
  }

  lemma RepliedBefore(s: State, step: Step, r: Reply)
    requires Inv(s) && Enabled(s, step) && r in Apply(s, step).replied
    ensures r in s.replied || (step.Receive? && Given(s, step.k, r))
  {
    if step.Receive? { ReplyGiven(s, step.k, r); }
  }

  /** It goes where the petition came from, says what it was about, and carries what a read was to
      return; to a write it carries nothing. */
  predicate Right(r: Reply, total: nat) {
    && r.fd == r.to.fd >= 0 && r.kind == r.to.kind && r.sector == r.to.sector
    && (if r.kind.Write? then r.data == [] else r.sector < total ==> r.data == r.to.wanted)
  }

  /** The reply made of the response at the head of the channel. */
  predicate Given(s: State, k: nat, r: Reply)
    requires Enabled(s, Receive(k))
  {
    Right(r, s.total) && Held(s, r.to) && Apply(s, Receive(k)).replied == s.replied + [r]
  }

  lemma ReplyGiven(s: State, k: nat, r: Reply)
    requires Inv(s) && Enabled(s, Receive(k)) && r in Apply(s, Receive(k)).replied
    ensures r in s.replied || Given(s, k, r)
  {
    var d := s.ring[k];
    ReplyMade(s, k);
    if r !in s.replied { assert r == ReplyTo(Matched(d), d.resp[0]); }
  }

  lemma ReplyMade(s: State, k: nat)
    requires Inv(s) && Enabled(s, Receive(k))
    ensures var d := s.ring[k];
            var r := ReplyTo(Matched(d), d.resp[0]);
            Apply(s, Receive(k)).replied == s.replied || Given(s, k, r)
  {
    var d := s.ring[k];
    assert DiskShape(d, s.total);
    MatchIsExact(d, s.total);
    assert Truthful(d.resp[0], s.total) && Belongs(Matched(d), d) && InHands(d, Matched(d));
    HeldAt(s, k, Matched(d));
  }

  lemma OnlyReceiveReplies(s: State, step: Step)
    requires Enabled(s, step) && !step.Receive?
    ensures Apply(s, step).replied == s.replied
  {
  }

  // ---- every petition is what was submitted

  /** A client petition is still what was submitted under its number. */
  predicate Genuine(p: Petition, submitted: seq<Petition>) {
    p.fd >= 0 ==>
      && p.id < |submitted|
      && submitted[p.id].fd == p.fd && submitted[p.id].kind == p.kind
      && submitted[p.id].sector == p.sector && submitted[p.id].data == p.data
  }

  /** And a reply goes to the client that asked. */
  ghost predicate Honest(s: State) {
    && (forall p :: Waits(s, p) || Held(s, p) ==> Genuine(p, s.submitted))
    && (forall r :: r in s.replied ==> Right(r, s.total) && Genuine(r.to, s.submitted))
  }

  lemma SubmittedGrows(s: State, step: Step)
    requires Enabled(s, step)
    ensures s.submitted <= Apply(s, step).submitted && |s.replied| <= |Apply(s, step).replied|
    ensures step.Submit? ==> |Apply(s, step).submitted| == |s.submitted| + 1
    ensures Apply(s, step).total == s.total
  {
  }

  lemma HonestStep(s: State, step: Step)
    requires Inv(s) && Honest(s) && Enabled(s, step)
    ensures Honest(Apply(s, step))
  {
    var s' := Apply(s, step);
    SubmittedGrows(s, step);
    assert forall p: Petition :: Genuine(p, s.submitted) ==> Genuine(p, s'.submitted);
    forall p | Waits(s', p) || Held(s', p)
      ensures Genuine(p, s'.submitted)
    {
      if p.fd >= 0 {
        if Waits(s', p) { WaitsBefore(s, step, p); } else { HeldBefore(s, step, p); }
        if Pushed(s, step, p) { PushedWaits(s, step, p); }
      }
    }
    forall r | r in s'.replied
      ensures Right(r, s'.total) && Genuine(r.to, s'.submitted)
    {
      RepliedBefore(s, step, r);
    }
  }

  /** What is pushed is what waited. */
  lemma PushedWaits(s: State, step: Step, p: Petition)
    requires Enabled(s, step) && Pushed(s, step, p)
    ensures exists q :: Waits(s, q) && p == q.(reply := p.reply, wanted := p.wanted)
  {
    var q := if step.Dispatch? then s.general[0] else s.round.value.p;
    assert Waits(s, q);
  }

  lemma {:induction false} HonestRun(s: State, steps: seq<Step>)
    requires Inv(s) && Honest(s)
    ensures Honest(Run(s, steps))
    decreases steps
  {
    if steps != [] {
      InvNext(s, steps[0]);
      if Enabled(s, steps[0]) { HonestStep(s, steps[0]); }
      HonestRun(Next(s, steps[0]), steps[1..]);
    }
  }

  lemma HonestAlways(total: nat, steps: seq<Step>)
    ensures Honest(After(total, steps))
  {
    InvAlways(total, []);
    HonestRun(Init(total), steps);
  }

  /** Every reply goes to the client that asked for what it answers, and names its sector and type;
      the disks were given the data that the client gave. */
  lemma RepliesAreRight(total: nat, steps: seq<Step>, i: nat)
    requires i < |After(total, steps).replied|
    ensures var r := After(total, steps).replied[i];
            var asked := Asked(Init(total), steps);
            && r.to.id < |asked|
            && (r.fd, r.kind, r.sector) == (asked[r.to.id].fd, asked[r.to.id].kind, asked[r.to.id].sector)
            && r.to.data == asked[r.to.id].data && (r.kind.Write? ==> r.data == [])
  {
    HonestAlways(total, steps);
    SubmittedAsAsked(total, steps);
    assert After(total, steps).replied[i] in After(total, steps).replied;
  }

  // ---- when they were dispatched

  /** Step `t` dispatched the petition, when fewer than `i + 1` replies had been sent.  What a read
      is to return is what the clients had last written to its sector, unless the round that wrote
      it left a disk out. */
  predicate PoppedAt(total: nat, steps: seq<Step>, t: nat, p: Petition, i: nat) {
    t < |steps| &&
    var s := After(total, steps[..t]);
    && PoppedBy(s, steps[t]) == [p.id] && |s.replied| <= i
    && (p.kind.Read? && p.sector < total && p.sector !in s.stale ==> p.wanted == Lookup(s.logical, p.sector))
  }

  ghost predicate WasPopped(total: nat, steps: seq<Step>, p: Petition, i: nat) {
    exists t: nat :: PoppedAt(total, steps, t, p, i)
  }

  /** With the consumer, or with a disk. */
  predicate Dispatched(s: State, p: Petition) {
    Held(s, p) || (s.round.Some? && p == s.round.value.p)
  }

  /** Every client petition there was dispatched before, and so was every one answered. */
  ghost predicate Timely(total: nat, steps: seq<Step>) {
    var s := After(total, steps);
    && (forall p :: Dispatched(s, p) && p.fd >= 0 ==> WasPopped(total, steps, p, |s.replied|))
    && (forall i :: 0 <= i < |s.replied| ==> WasPopped(total, steps, s.replied[i].to, i))
  }

  lemma PoppedBefore(total: nat, steps: seq<Step>, step: Step, p: Petition, i: nat, i': nat)
    requires WasPopped(total, steps, p, i) && i <= i'
    ensures WasPopped(total, steps + [step], p, i')
  {
    var t: nat :| PoppedAt(total, steps, t, p, i);
    assert (steps + [step])[..t] == steps[..t];
    assert PoppedAt(total, steps + [step], t, p, i');
  }

  /** The petition that the consumer takes up at this step. */
  predicate TakenUp(s: State, step: Step, p: Petition)
    requires Enabled(s, step)
  {
    && step.Dispatch?
    && (if s.general[0].kind.Write? then p == s.general[0]
        else FirstOk(s.ring) < |s.ring| && p == ReadFor(s.general[0], s.ring[FirstOk(s.ring)]))
  }

  /** A read that is dispatched sees the contents at this moment. */
  lemma PoppedNow(total: nat, steps: seq<Step>, step: Step, p: Petition)
    requires var s := After(total, steps); Enabled(s, step) && TakenUp(s, step, p) && p.fd >= 0
    ensures WasPopped(total, steps + [step], p, |After(total, steps).replied|)
  {
    var s := After(total, steps);
    if p.kind.Read? && p.sector < total && p.sector !in s.stale { ReadsWantLogical(total, steps); }
    assert (steps + [step])[..|steps|] == steps;
    assert PoppedAt(total, steps + [step], |steps|, p, |s.replied|);
  }

  /** What is dispatched was so before, but for the copy made of it, or is just taken up. */
  lemma DispatchedBefore(s: State, step: Step, p: Petition)
    requires Inv(s) && Enabled(s, step) && Dispatched(Apply(s, step), p) && p.fd >= 0
    ensures TakenUp(s, step, p) || Dispatched(s, p) || (s.round.Some? && p == s.round.value.p.(reply := p.reply))
  {
    if Held(Apply(s, step), p) {
      HeldBefore(s, step, p);
    } else {
      RoundBefore(s, step);
    }
  }

  lemma RoundBefore(s: State, step: Step)
    requires Enabled(s, step) && Apply(s, step).round.Some?
    ensures var p := Apply(s, step).round.value.p; TakenUp(s, step, p) || (s.round.Some? && p == s.round.value.p)
  {
  }

  /** Whether a petition was dispatched does not depend on REPLY. */
  lemma PoppedCopy(total: nat, steps: seq<Step>, p: Petition, q: Petition, i: nat)
    requires WasPopped(total, steps, q, i) && p == q.(reply := p.reply)
    ensures WasPopped(total, steps, p, i)
  {
    var t: nat :| PoppedAt(total, steps, t, q, i);
    assert PoppedAt(total, steps, t, p, i);
  }

  lemma TimelyOne(total: nat, steps: seq<Step>, step: Step, p: Petition)
    requires Timely(total, steps) && Enabled(After(total, steps), step)
    requires Dispatched(Apply(After(total, steps), step), p) && p.fd >= 0
    ensures WasPopped(total, steps + [step], p, |Apply(After(total, steps), step).replied|)
  {
    var s := After(total, steps);
    InvAlways(total, steps);
    SubmittedGrows(s, step);
    DispatchedBefore(s, step, p);
    if TakenUp(s, step, p) {
      PoppedNow(total, steps, step, p);
      PoppedLater(total, steps + [step], p, |s.replied|, |Apply(s, step).replied|);
    } else {
      if !Dispatched(s, p) { PoppedCopy(total, steps, p, s.round.value.p, |s.replied|); }
      PoppedBefore(total, steps, step, p, |s.replied|, |Apply(s, step).replied|);
    }
  }

  lemma PoppedLater(total: nat, steps: seq<Step>, p: Petition, i: nat, i': nat)
    requires WasPopped(total, steps, p, i) && i <= i'
    ensures WasPopped(total, steps, p, i')
  {
    var t: nat :| PoppedAt(total, steps, t, p, i);
    assert PoppedAt(total, steps, t, p, i');
  }

  /** A reply was sent before, or answers a petition that a disk held. */
  predicate Known(s: State, r: Reply, i: nat) {
    if i < |s.replied| then r == s.replied[i] else i == |s.replied| && r.to.fd >= 0 && Held(s, r.to)
  }

  lemma AllKnown(s: State, step: Step, i: nat)
    requires Inv(s) && Enabled(s, step) && i < |Apply(s, step).replied|
    ensures Known(s, Apply(s, step).replied[i], i)
  {
    if step.Receive? { ReplyMade(s, step.k); } else { OnlyReceiveReplies(s, step); }
  }

  lemma TimelyStep(total: nat, steps: seq<Step>, step: Step)
    requires Timely(total, steps) && Enabled(After(total, steps), step)
    ensures Timely(total, steps + [step])
  {
    var s := After(total, steps);
    var s' := Apply(s, step);
    InvAlways(total, steps);
    RunThen(Init(total), steps, step);
    forall p | Dispatched(s', p) && p.fd >= 0
      ensures WasPopped(total, steps + [step], p, |s'.replied|)
    {
      TimelyOne(total, steps, step, p);
    }
    forall i | 0 <= i < |s'.replied|
      ensures WasPopped(total, steps + [step], s'.replied[i].to, i)
    {
      AllKnown(s, step, i);
      PoppedBefore(total, steps, step, s'.replied[i].to, i, i);
    }
  }

  lemma TimelyStutter(total: nat, steps: seq<Step>, step: Step)
    requires Timely(total, steps) && After(total, steps + [step]) == After(total, steps)
    ensures Timely(total, steps + [step])
  {
    var s := After(total, steps);
    forall p | Dispatched(s, p) && p.fd >= 0
      ensures WasPopped(total, steps + [step], p, |s.replied|)
    {
      PoppedBefore(total, steps, step, p, |s.replied|, |s.replied|);
    }
    forall i | 0 <= i < |s.replied|
      ensures WasPopped(total, steps + [step], s.replied[i].to, i)
    {
      PoppedBefore(total, steps, step, s.replied[i].to, i, i);
    }
  }

  lemma {:induction false} TimelyAlways(total: nat, steps: seq<Step>)
    ensures Timely(total, steps)
    decreases |steps|
  {
    if steps != [] {
      var n := |steps| - 1;
      var before, step := steps[..n], steps[n];
      assert steps == before + [step];
      TimelyAlways(total, before);
      RunThen(Init(total), before, step);
      if Enabled(After(total, before), step) {
        TimelyStep(total, before, step);
      } else {
        TimelyStutter(total, before, step);
      }
    }
  }

  /** Every petition answered was dispatched before its reply was sent. */
  lemma AnsweredPopped(total: nat, steps: seq<Step>, i: nat) returns (t: nat)
    requires i < |After(total, steps).replied|
    ensures PoppedAt(total, steps, t, After(total, steps).replied[i].to, i)
  {
    TimelyAlways(total, steps);
    assert WasPopped(total, steps, After(total, steps).replied[i].to, i);
    t :| PoppedAt(total, steps, t, After(total, steps).replied[i].to, i);
  }
}
