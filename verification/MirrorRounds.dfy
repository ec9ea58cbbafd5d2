/** The round of a write: what it comes to when nothing interrupts it, and what a death within it
    does to the disks that were to agree. */
module MirrorRounds {
  import opened Options
  import opened Mirror
  import opened MirrorContents
  import opened MirrorInvariant
  import opened MirrorTheorems

  function Copies(n: nat): (r: seq<Step>)
    ensures |r| == n && forall i :: 0 <= i < n ==> r[i] == Copy
  {
    seq(n, _ => Copy)
  }

  /** `m` copies turn the ring by as many places. */
  lemma {:induction false} CopiesRun(s: State, m: nat)
    requires s.running && s.round.Some? && m <= |s.ring| && (m > 0 ==> m <= |s.ring| - s.round.value.position)
    ensures var r := s.round.value;
            Run(s, Copies(m)) ==
            s.(ring := s.ring[m..] + PushWrites(s.ring[..m], r.p, r.position == 0),
               round := Some(r.(position := r.position + m)))
  {
    var r := s.round.value;
    if m == 0 {
      assert s.ring[0..] + PushWrites(s.ring[..0], r.p, r.position == 0) == s.ring;
    } else {
      CopiesRun(s, m - 1);
      var t := Run(s, Copies(m - 1));
      assert Copies(m) == Copies(m - 1) + [Copy];
      RunThen(s, Copies(m - 1), Copy);
      assert t.ring[0] == s.ring[m - 1];
      assert CopyStep(t).ring == s.ring[m..] + PushWrites(s.ring[..m], r.p, r.position == 0);
    }
  }

  lemma CopiesThen(s: State, n: nat)
    ensures Run(s, Copies(n + 1)) == Next(Run(s, Copies(n)), Copy)
  {
    assert Copies(n + 1) == Copies(n) + [Copy];
    RunThen(s, Copies(n), Copy);
  }

  lemma AllCopies(s: State)
    requires s.running && s.round.Some? && s.round.value.position == 0
    ensures var r := s.round.value;
            Run(s, Copies(|s.ring|)) ==
            s.(ring := PushWrites(s.ring, r.p, true), round := Some(r.(position := |s.ring|)))
  {
    var n := |s.ring|;
    var pushed := PushWrites(s.ring, s.round.value.p, true);
    CopiesRun(s, n);
    assert s.ring[..n] == s.ring;
    assert s.ring[n..] + pushed == pushed;
  }

  /** A round that nothing interrupts gives every disk one copy, the first one with REPLY, and
      leaves the ring as it was. */
  lemma UninterruptedRound(s: State)
    requires Enabled(s, Dispatch) && s.general[0].kind.Write?
    ensures var p := s.general[0];
            Run(s, [Dispatch] + Copies(|s.ring|) + [EndRound]) ==
            s.(general := s.general[1..], ring := PushWrites(s.ring, p, true),
               logical := s.logical[p.sector := p.data], stale := s.stale - {p.sector})
  {
    AllCopies(DispatchWrite(s));
    RunThen(s, [Dispatch] + Copies(|s.ring|), EndRound);
    RunConcat(s, [Dispatch], Copies(|s.ring|));
    RunThen(s, [], Dispatch);
    assert [] + [Dispatch] == [Dispatch];
  }

  /** How many copies the loop will still give. */
  function ToGive(s: State): nat {
    if s.round.None? || |s.ring| <= s.round.value.position then 0 else |s.ring| - s.round.value.position
  }

  /** Left alone, the round ends having left a disk out exactly when a disk died with its copy
      while another one was waiting. */
  lemma LeavesOut(s: State)
    requires Inv(s) && s.running && s.round.Some?
    ensures var sector := s.round.value.p.sector;
            var s' := Run(s, Copies(ToGive(s)) + [EndRound]);
            && s'.round.None? && |s'.ring| == |s.ring|
            && (sector in s'.stale <==> s.round.value.lost > 0 && Waiting(s) > 0)
  {
    CopiesRun(s, ToGive(s));
    RunThen(s, Copies(ToGive(s)), EndRound);
  }

  /** The death of a disk that has its copy, while another one is still without. */
  predicate LosesCopy(s: State, step: Step) {
    step.Die? && s.round.Some? && step.k >= Waiting(s) > 0
  }

  lemma LostCopyLeavesOut(s: State, k: nat)
    requires Inv(s) && Enabled(s, Die(k)) && LosesCopy(s, Die(k)) && Apply(s, Die(k)).running
    ensures var s1 := Apply(s, Die(k)); s.round.value.p.sector in Run(s1, Copies(ToGive(s1)) + [EndRound]).stale
  {
    InvStep(s, Die(k));
    LeavesOut(Apply(s, Die(k)));
  }

  /** When a round ends, two up-to-date disks will agree in its sector exactly when both have
      their copy, or neither, or the write changed nothing. */
  lemma RoundEnds(total: nat, steps: seq<Step>, i: nat, j: nat)
    requires var s := After(total, steps);
             && Enabled(s, EndRound) && i < |s.ring| && j < |s.ring| && s.ring[i].state.Ok? && s.ring[j].state.Ok?
             && s.round.value.p.sector < total && s.round.value.p.sector !in s.stale
    ensures var s := After(total, steps);
            var r := s.round.value;
            var ring := Apply(s, EndRound).ring;
            |ring| == |s.ring| &&
            (Eventual(ring[i], r.p.sector) == Eventual(ring[j], r.p.sector) <==>
             (i < Waiting(s) <==> j < Waiting(s)) || Lookup(r.before, r.p.sector) == r.p.data)
  {
    InvAlways(total, steps);
    var s := After(total, steps);
    var sector := s.round.value.p.sector;
    assert Mirrored(s.ring[i], sector, Lookup(Told(s, i), sector));
    assert Mirrored(s.ring[j], sector, Lookup(Told(s, j), sector));
  }

  /** A run in which no disk dies with its copy while another one is still without. */
  predicate Clean(s: State, steps: seq<Step>)
    decreases steps
  {
    steps == [] || (!(Enabled(s, steps[0]) && LosesCopy(s, steps[0])) && Clean(Next(s, steps[0]), steps[1..]))
  }

  /** No disk was left out, and none will be by the round going on. */
  predicate AllTold(s: State) {
    s.stale == {} && (s.round.Some? ==> s.round.value.lost == 0 || Waiting(s) == 0)
  }

  lemma CleanStep(s: State, step: Step)
    requires AllTold(s) && Enabled(s, step) && !LosesCopy(s, step) && Skeleton(s)
    ensures AllTold(Apply(s, step))
  {
    match step
    case Receive(k) => assert Apply(s, step).round == s.round && |Apply(s, step).ring| == |s.ring|;
    case _ =>
  }

  lemma {:induction false} CleanRun(s: State, steps: seq<Step>)
    requires Inv(s) && AllTold(s) && Clean(s, steps)
    ensures AllTold(Run(s, steps))
    decreases steps
  {
    if steps != [] {
      InvNext(s, steps[0]);
      if Enabled(s, steps[0]) { CleanStep(s, steps[0]); }
      CleanRun(Next(s, steps[0]), steps[1..]);
    }
  }

  /** After such a run any two up-to-date disks will agree in every sector, but for the one that
      is being copied when only one of them has its copy. */
  lemma CleanMirrorsAgree(total: nat, steps: seq<Step>, i: nat, j: nat, sector: nat)
    requires var s := After(total, steps);
             && Clean(Init(total), steps) && sector < total
             && i < |s.ring| && j < |s.ring| && s.ring[i].state.Ok? && s.ring[j].state.Ok?
             && (s.round.Some? && s.round.value.p.sector == sector ==> (i < Waiting(s) <==> j < Waiting(s)))
    ensures var ring := After(total, steps).ring; Eventual(ring[i], sector) == Eventual(ring[j], sector)
  {
    InvAlways(total, []);
    CleanRun(Init(total), steps);
    MirrorsAgree(total, steps, i, j, sector);
  }
}
