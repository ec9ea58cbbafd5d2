/** The RAID as its clients see it: what they asked for, in the order in which it was dispatched,
    says what every sector holds and what every reply carries. */
module MirrorClients {
  import opened Petitions
  import opened Mirror
  import opened MirrorAccounts
  import opened MirrorContents
  import opened MirrorInvariant
  import opened MirrorReplies
  import opened MirrorRequests
  import opened MirrorRounds
  import opened MirrorShape
  import opened MirrorTheorems

  // ---- before the first disk

  lemma RingStays(s: State, step: Step)
    requires Enabled(s, step) && s.ring != []
    ensures Apply(s, step).ring != []
  {
  }

  lemma {:induction false} RingStaysRun(s: State, steps: seq<Step>)
    requires s.ring != []
    ensures Run(s, steps).ring != []
    decreases steps
  {
    if steps != [] {
      if Enabled(s, steps[0]) { RingStays(s, steps[0]); }
      RingStaysRun(Next(s, steps[0]), steps[1..]);
    }
  }

  predicate NoneJoins(steps: seq<Step>) {
    forall i :: 0 <= i < |steps| ==> !steps[i].Join?
  }

  /** Until a disk joins nothing can happen. */
  lemma {:induction false} EmptyUntilJoin(total: nat, steps: seq<Step>)
    ensures After(total, steps).ring == [] <==> NoneJoins(steps)
    ensures NoneJoins(steps) ==> After(total, steps) == Init(total) && Order(Init(total), steps) == []
    decreases steps
  {
    if steps != [] {
      if steps[0].Join? {
        RingStaysRun(Next(Init(total), steps[0]), steps[1..]);
      } else {
        assert !Enabled(Init(total), steps[0]);
        EmptyUntilJoin(total, steps[1..]);
        assert forall i :: 0 <= i < |steps[1..]| ==> steps[1..][i] == steps[i + 1];
        assert NoneJoins(steps[1..]) <==> NoneJoins(steps);
      }
    }
  }

  /** Once there is a disk, the master copy is settled. */
  lemma MasterSettled(total: nat, steps: seq<Step>, more: seq<Step>)
    requires After(total, steps).ring != []
    ensures Master(steps + more) == Master(steps)
  {
    EmptyUntilJoin(total, steps);
    MasterFound(steps, more);
  }

  // ---- what the sectors hold

  /** Everything dispatched was asked for. */
  predicate AllAsked(order: seq<nat>, asked: seq<Request>) {
    forall i :: 0 <= i < |order| ==> order[i] < |asked|
  }

  /** What the consumer pops is what the client of that number asked for. */
  lemma PoppedAsAsked(total: nat, steps: seq<Step>)
    requires var s := After(total, steps); Enabled(s, Dispatch) && s.general[0].fd >= 0
    ensures var p := After(total, steps).general[0];
            var asked := Asked(Init(total), steps);
            && p.id < |asked|
            && (p.fd, p.kind, p.sector, p.data) ==
               (asked[p.id].fd, asked[p.id].kind, asked[p.id].sector, asked[p.id].data)
  {
    HonestAlways(total, steps);
    SubmittedAsAsked(total, steps);
    assert Waits(After(total, steps), After(total, steps).general[0]);
  }

  ghost predicate HoldsWritten(s: State, asked: seq<Request>, order: seq<nat>, master: map<nat, Data>) {
    && AllAsked(order, asked)
    && forall sector: nat :: Lookup(s.logical, sector) == LastWritten(asked, order, sector, Lookup(master, sector))
  }

  lemma HoldsMore(s: State, s': State, asked: seq<Request>, more: seq<Request>, order: seq<nat>, master: map<nat, Data>)
    requires HoldsWritten(s, asked, order, master) && s'.logical == s.logical
    ensures HoldsWritten(s', asked + more, order, master)
  {
    forall sector: nat
      ensures Lookup(s.logical, sector) == LastWritten(asked + more, order, sector, Lookup(master, sector))
    {
      LastWrittenMore(asked, more, order, sector, Lookup(master, sector));
    }
  }

  /** A dispatched petition becomes the last one. */
  lemma HoldsPopped(s: State, asked: seq<Request>, order: seq<nat>, master: map<nat, Data>)
    requires HoldsWritten(s, asked, order, master) && Enabled(s, Dispatch) && s.general[0].fd >= 0
    requires var p := s.general[0];
             p.id < |asked| && (p.kind, p.sector, p.data) == (asked[p.id].kind, asked[p.id].sector, asked[p.id].data)
    ensures HoldsWritten(Apply(s, Dispatch), asked, order + [s.general[0].id], master)
  {
    var p := s.general[0];
    var order' := order + [p.id];
    assert order'[..|order|] == order;
    forall sector: nat
      ensures Lookup(Apply(s, Dispatch).logical, sector) == LastWritten(asked, order', sector, Lookup(master, sector))
    {
      assert Lookup(s.logical, sector) == LastWritten(asked, order, sector, Lookup(master, sector));
    }
  }

  lemma DispatchLogical(s: State)
    requires Skeleton(s) && Enabled(s, Dispatch) && s.general[0].fd < 0
    ensures Apply(s, Dispatch).logical == s.logical
  {
    assert MayWait(s.general[0]);
  }

  lemma ReceiveLogical(s: State, k: nat)
    requires Enabled(s, Receive(k))
    ensures Apply(s, Receive(k)).logical == s.logical
  {
  }

  /** Nothing but a client write and the first disk changes them. */
  lemma LogicalKept(s: State, step: Step)
    requires Skeleton(s) && Enabled(s, step) && PoppedBy(s, step) == [] && !(step.Join? && s.ring == [])
    ensures Apply(s, step).logical == s.logical
  {
    match step
    case Dispatch => DispatchLogical(s);
    case Receive(k) => ReceiveLogical(s, k);
    case _ =>
  }

  lemma HoldsStep(total: nat, steps: seq<Step>, step: Step)
    requires var s := After(total, steps);
             && Enabled(s, step) && s.ring != []
             && HoldsWritten(s, Asked(Init(total), steps), Order(Init(total), steps), Master(steps))
    ensures HoldsWritten(Apply(After(total, steps), step), Asked(Init(total), steps + [step]),
                         Order(Init(total), steps + [step]), Master(steps + [step]))
  {
    var s := After(total, steps);
    if PoppedBy(s, step) != [] {
      var asked := Asked(Init(total), steps);
      AskedThen(Init(total), steps, step);
      OrderThen(Init(total), steps, step);
      MasterSettled(total, steps, [step]);
      PoppedAsAsked(total, steps);
      assert asked + [] == asked;
      HoldsPopped(s, asked, Order(Init(total), steps), Master(steps));
    } else {
      InvAlways(total, steps);
      LogicalKept(s, step);
      HoldsStill(total, steps, step, Apply(s, step));
    }
  }

  /** The first disk brings the contents. */
  lemma HoldsFirst(total: nat, steps: seq<Step>, step: Step)
    requires NoneJoins(steps)
    ensures HoldsWritten(After(total, steps + [step]), Asked(Init(total), steps + [step]),
                         Order(Init(total), steps + [step]), Master(steps + [step]))
  {
    var s := Init(total);
    EmptyUntilJoin(total, steps);
    RunThen(s, steps, step);
    OrderThen(s, steps, step);
    MasterFound(steps, [step]);
    FirstMaster(total, step);
    assert PoppedBy(s, step) == [] && Order(s, steps + [step]) == [];
  }

  lemma FirstMaster(total: nat, step: Step)
    ensures Next(Init(total), step).logical == Master([step])
  {
    assert [step][1..] == [];
  }

  /** A step that changes neither contents nor order. */
  lemma HoldsStill(total: nat, steps: seq<Step>, step: Step, s': State)
    requires var s := After(total, steps); s.ring != [] && PoppedBy(s, step) == [] && s'.logical == s.logical
    requires HoldsWritten(After(total, steps), Asked(Init(total), steps), Order(Init(total), steps), Master(steps))
    ensures HoldsWritten(s', Asked(Init(total), steps + [step]), Order(Init(total), steps + [step]),
                         Master(steps + [step]))
  {
    var s := After(total, steps);
    var order := Order(Init(total), steps);
    AskedThen(Init(total), steps, step);
    OrderThen(Init(total), steps, step);
    MasterSettled(total, steps, [step]);
    assert order + [] == order;
    HoldsMore(s, s', Asked(Init(total), steps), AskedBy(s, step), order, Master(steps));
  }

  lemma {:induction false} HoldsAlways(total: nat, steps: seq<Step>)
    ensures HoldsWritten(After(total, steps), Asked(Init(total), steps), Order(Init(total), steps), Master(steps))
    decreases |steps|
  {
    if steps != [] {
      var n := |steps| - 1;
      var before, step := steps[..n], steps[n];
      assert steps == before + [step];
      EmptyUntilJoin(total, before);
      if NoneJoins(before) {
        HoldsFirst(total, before, step);
      } else {
        HoldsAlways(total, before);
        RunThen(Init(total), before, step);
        if Enabled(After(total, before), step) {
          HoldsStep(total, before, step);
        } else {
          HoldsStill(total, before, step, After(total, before));
        }
      }
    }
  }

  /** A sector holds, for the clients, what the last of the writes dispatched to it brought, or what
      the first disk had there. */
  lemma SectorsHoldLastWritten(total: nat, steps: seq<Step>, sector: nat)
    ensures Lookup(After(total, steps).logical, sector) ==
            LastWritten(Asked(Init(total), steps), Order(Init(total), steps), sector, Lookup(Master(steps), sector))
  {
    HoldsAlways(total, steps);
  }

  /** And so does every disk that is up to date, between two rounds and once it has done what was sent
      or queued to it, unless the last round to write the sector left a disk out. */
  lemma DisksHoldLastWritten(total: nat, steps: seq<Step>, i: nat, sector: nat)
    requires var s := After(total, steps);
             && s.round.None? && i < |s.ring| && s.ring[i].state.Ok? && sector < total && sector !in s.stale
    ensures var d := After(total, steps).ring[i];
            var data := LastWritten(Asked(Init(total), steps), Order(Init(total), steps), sector,
                                    Lookup(Master(steps), sector));
            Eventual(d, sector) == data && (Idle(d) ==> Lookup(d.content, sector) == data)
  {
    var s := After(total, steps);
    InvAlways(total, steps);
    SectorsHoldLastWritten(total, steps, sector);
    assert Mirrored(s.ring[i], sector, Lookup(Told(s, i), sector));
  }

  // ---- what is answered

  lemma AskedPrefix(total: nat, steps: seq<Step>, t: nat)
    requires t <= |steps|
    ensures Asked(Init(total), steps[..t]) <= Asked(Init(total), steps)
    ensures Order(Init(total), steps[..t]) <= Order(Init(total), steps)
  {
    assert steps == steps[..t] + steps[t..];
    AskedConcat(Init(total), steps[..t], steps[t..]);
    OrderConcat(Init(total), steps[..t], steps[t..]);
  }

  /** What a sector held when step `t` was taken, from all that was ever asked for. */
  lemma HeldAtStep(total: nat, steps: seq<Step>, t: nat, sector: nat)
    requires t <= |steps| && After(total, steps[..t]).ring != []
    ensures Lookup(After(total, steps[..t]).logical, sector) ==
            LastWritten(Asked(Init(total), steps), Order(Init(total), steps[..t]), sector,
                        Lookup(Master(steps), sector))
  {
    var asked := Asked(Init(total), steps[..t]);
    HoldsAlways(total, steps[..t]);
    AskedPrefix(total, steps, t);
    assert steps == steps[..t] + steps[t..];
    MasterSettled(total, steps[..t], steps[t..]);
    LastWrittenMore(asked, Asked(Init(total), steps)[|asked|..], Order(Init(total), steps[..t]), sector,
                    Lookup(Master(steps), sector));
    assert Asked(Init(total), steps) == asked + Asked(Init(total), steps)[|asked|..];
  }

  /** Every petition answered was dispatched at a step between its submission and its reply.  A read
      is answered with what the last write dispatched before it to its sector brought, unless the
      round of that write left a disk out. */
  lemma RepliesLinearize(total: nat, steps: seq<Step>, i: nat) returns (t: nat)
    requires i < |After(total, steps).replied|
    ensures t < |steps|
    ensures var r := After(total, steps).replied[i];
            var asked := Asked(Init(total), steps);
            var s := After(total, steps[..t]);
            && r.to.id < |Asked(Init(total), steps[..t])| && PoppedBy(s, steps[t]) == [r.to.id] && |s.replied| <= i
            && (r.kind.Read? && r.sector < total && r.sector !in s.stale ==>
                r.data == LastWritten(asked, Order(Init(total), steps[..t]), r.sector, Lookup(Master(steps), r.sector)))
  {
    t := AnsweredPopped(total, steps, i);
    HonestAlways(total, steps);
    InvAlways(total, steps);
    var r := After(total, steps).replied[i];
    assert r in After(total, steps).replied;
    PoppedAsAsked(total, steps[..t]);
    HeldAtStep(total, steps, t, r.sector);
  }

  /** In a run where no disk dies with its copy of a write while another one waits for its own, that
      is every read of a sector of the disks. */
  lemma ReadsLinearize(total: nat, steps: seq<Step>, i: nat) returns (t: nat)
    requires Clean(Init(total), steps)
    requires var replied := After(total, steps).replied;
             i < |replied| && replied[i].kind.Read? && replied[i].sector < total
    ensures t < |steps|
    ensures var r := After(total, steps).replied[i];
            var s := After(total, steps[..t]);
            && r.to.id < |Asked(Init(total), steps[..t])| && PoppedBy(s, steps[t]) == [r.to.id] && |s.replied| <= i
            && r.data == LastWritten(Asked(Init(total), steps), Order(Init(total), steps[..t]), r.sector,
                                     Lookup(Master(steps), r.sector))
  {
    t := RepliesLinearize(total, steps, i);
    CleanUpTo(total, steps, t);
  }

  lemma CleanUpTo(total: nat, steps: seq<Step>, t: nat)
    requires Clean(Init(total), steps) && t <= |steps|
    ensures After(total, steps[..t]).stale == {}
  {
    assert steps == steps[..t] + steps[t..];
    CleanPrefix(Init(total), steps[..t], steps[t..]);
    InvAlways(total, []);
    CleanRun(Init(total), steps[..t]);
  }

  lemma {:induction false} CleanPrefix(s: State, a: seq<Step>, b: seq<Step>)
    requires Clean(s, a + b)
    ensures Clean(s, a)
    decreases a
  {
    if a != [] {
      assert (a + b)[0] == a[0] && (a + b)[1..] == a[1..] + b;
      CleanPrefix(Next(s, a[0]), a[1..], b);
    }
  }

  /** What is dispatched, even again after a disk died with it, was asked for and has had no reply:
      no write takes effect but while its client waits. */
  lemma DispatchedWhileWaitedFor(total: nat, steps: seq<Step>)
    requires var s := After(total, steps); Enabled(s, Dispatch) && s.general[0].fd >= 0
    ensures var s := After(total, steps);
            s.general[0].id < |Asked(Init(total), steps)| && RepliesTo(s.replied, s.general[0].id) == 0
  {
    var s := After(total, steps);
    PoppedAsAsked(total, steps);
    ExactlyOneReply(total, steps, s.general[0].id);
  }

  // ---- first come, first served

  function First(n: nat): (r: seq<nat>)
    ensures |r| == n && forall i :: 0 <= i < n ==> r[i] == i
  {
    seq(n, i => i)
  }

  /** The numbers of the client petitions, in order. */
  function Numbers(ps: seq<Petition>): seq<nat> {
    if ps == [] then [] else (if ps[0].fd >= 0 then [ps[0].id] else []) + Numbers(ps[1..])
  }

  lemma {:induction false} NumbersConcat(a: seq<Petition>, b: seq<Petition>)
    ensures Numbers(a + b) == Numbers(a) + Numbers(b)
  {
    if a == [] {
      assert a + b == b;
    } else {
      assert (a + b)[0] == a[0] && (a + b)[1..] == a[1..] + b;
      NumbersConcat(a[1..], b);
    }
  }

  lemma NumbersStep(s: State, step: Step)
    requires Enabled(s, step) && !step.Requeue?
    ensures PoppedBy(s, step) + Numbers(Apply(s, step).general) ==
            Numbers(s.general) + (if step.Submit? then [|s.submitted|] else [])
  {
    match step
    case Submit(fd, kind, sector, data) =>
      NumbersConcat(s.general, [Apply(s, step).general[|s.general|]]);
    case IssueSync(k) => NumbersConcat(s.general, [SyncPetition(s.ring[k])]);
    case Receive(k) => assert Apply(s, step).general == s.general;
    case _ =>
  }

  /** As long as no dead disk's petitions are put back, clients are served in the order in which they
      came: what was dispatched and what waits are all the petitions there are, in order. */
  lemma {:induction false} FirstComeFirstServed(total: nat, steps: seq<Step>)
    requires NonePutBack(steps)
    ensures var s := After(total, steps);
            Order(Init(total), steps) + Numbers(s.general) == First(|Asked(Init(total), steps)|)
    decreases |steps|
  {
    if steps != [] {
      var n := |steps| - 1;
      var before, step := steps[..n], steps[n];
      assert steps == before + [step];
      FirstComeFirstServed(total, before);
      RunThen(Init(total), before, step);
      AskedThen(Init(total), before, step);
      OrderThen(Init(total), before, step);
      SubmittedAsAsked(total, before);
      var s := After(total, before);
      if Enabled(s, step) {
        NumbersStep(s, step);
        OneMore(Order(Init(total), before), PoppedBy(s, step), Numbers(s.general), Numbers(Apply(s, step).general),
                |s.submitted|, step.Submit?);
      } else {
        assert Order(Init(total), before) + [] == Order(Init(total), before);
      }
    }
  }

  lemma OneMore(order: seq<nat>, popped: seq<nat>, waiting: seq<nat>, left: seq<nat>, n: nat, more: bool)
    requires order + waiting == First(n) && popped + left == waiting + (if more then [n] else [])
    ensures order + popped + left == First(if more then n + 1 else n)
  {
    assert order + popped + left == order + (popped + left);
    if more {
      assert order + (waiting + [n]) == First(n) + [n] == First(n + 1);
    } else {
      assert waiting + [] == waiting;
    }
  }

  /** A read is then answered with the last write to its sector that was asked for before it. */
  lemma ReadsSeeWritesBefore(total: nat, steps: seq<Step>, i: nat)
    requires Clean(Init(total), steps) && NonePutBack(steps)
    requires var replied := After(total, steps).replied;
             i < |replied| && replied[i].kind.Read? && replied[i].sector < total
    ensures var r := After(total, steps).replied[i];
            r.data == LastWritten(Asked(Init(total), steps), First(r.to.id), r.sector, Lookup(Master(steps), r.sector))
  {
    var t := ReadsLinearize(total, steps, i);
    OrderUpTo(total, steps, t);
  }

  /** The petition dispatched at step `t` comes after all those before it. */
  lemma OrderUpTo(total: nat, steps: seq<Step>, t: nat)
    requires NonePutBack(steps) && t < |steps| && PoppedBy(After(total, steps[..t]), steps[t]) != []
    ensures Order(Init(total), steps[..t]) == First(PoppedBy(After(total, steps[..t]), steps[t])[0])
  {
    FirstComeFirstServed(total, steps[..t + 1]);
    assert steps[..t + 1] == steps[..t] + [steps[t]];
    OrderThen(Init(total), steps[..t], steps[t]);
    var order := Order(Init(total), steps[..t]);
    var all := Order(Init(total), steps[..t + 1]) + Numbers(After(total, steps[..t + 1]).general);
    assert all[..|order|] == order && all[|order|] == PoppedBy(After(total, steps[..t]), steps[t])[0];
    assert First(|all|)[..|order|] == First(|order|);
  }
}
