/** What the clients asked for, read off the steps of a run, and the order in which it was
    dispatched. */
module MirrorRequests {
  import opened Petitions
  import opened Mirror

  datatype Request = Request(fd: nat, kind: Kind, sector: nat, data: Data)

  function AskedBy(s: State, step: Step): seq<Request> {
    if step.Submit? && Enabled(s, step) then [Request(step.fd, step.kind, step.sector, step.data)] else []
  }

  /** In the order in which it came. */
  function Asked(s: State, steps: seq<Step>): seq<Request>
    decreases steps
  {
    if steps == [] then [] else AskedBy(s, steps[0]) + Asked(Next(s, steps[0]), steps[1..])
  }

  /** The number of the client petition that the consumer pops. */
  function PoppedBy(s: State, step: Step): seq<nat> {
    if step.Dispatch? && Enabled(s, step) && s.general[0].fd >= 0 then [s.general[0].id] else []
  }

  /** In the order in which they were dispatched. */
  function Order(s: State, steps: seq<Step>): seq<nat>
    decreases steps
  {
    if steps == [] then [] else PoppedBy(s, steps[0]) + Order(Next(s, steps[0]), steps[1..])
  }

  /** No petition that a dead disk had is put back. */
  predicate NonePutBack(steps: seq<Step>) {
    forall i :: 0 <= i < |steps| ==> !steps[i].Requeue?
  }

  lemma {:induction false} AskedConcat(s: State, a: seq<Step>, b: seq<Step>)
    ensures Asked(s, a + b) == Asked(s, a) + Asked(Run(s, a), b)
    decreases a
  {
    if a == [] {
      assert a + b == b;
    } else {
      assert (a + b)[0] == a[0] && (a + b)[1..] == a[1..] + b;
      AskedConcat(Next(s, a[0]), a[1..], b);
    }
  }

  lemma AskedThen(s: State, steps: seq<Step>, step: Step)
    ensures Asked(s, steps + [step]) == Asked(s, steps) + AskedBy(Run(s, steps), step)
  {
    AskedConcat(s, steps, [step]);
    assert [step][1..] == [];
  }

  lemma {:induction false} OrderConcat(s: State, a: seq<Step>, b: seq<Step>)
    ensures Order(s, a + b) == Order(s, a) + Order(Run(s, a), b)
    decreases a
  {
    if a == [] {
      assert a + b == b;
    } else {
      assert (a + b)[0] == a[0] && (a + b)[1..] == a[1..] + b;
      OrderConcat(Next(s, a[0]), a[1..], b);
    }
  }

  lemma OrderThen(s: State, steps: seq<Step>, step: Step)
    ensures Order(s, steps + [step]) == Order(s, steps) + PoppedBy(Run(s, steps), step)
  {
    OrderConcat(s, steps, [step]);
    assert [step][1..] == [];
  }

  // ---- what is submitted is what was asked

  /** Petition number `id` is what the client asked for, and belongs to no synchronisation. */
  predicate Carries(p: Petition, r: Request, id: nat) {
    && p.fd == r.fd && p.kind == r.kind && p.sector == r.sector && p.data == r.data
    && p.id == id && !p.toSync && !p.reply
  }

  predicate Records(submitted: seq<Petition>, asked: seq<Request>) {
    |submitted| == |asked| && forall id :: 0 <= id < |asked| ==> Carries(submitted[id], asked[id], id)
  }

  lemma RecordsStep(s: State, step: Step, asked: seq<Request>)
    requires Records(s.submitted, asked) && Enabled(s, step)
    ensures Records(Apply(s, step).submitted, asked + AskedBy(s, step))
  {
  }

  lemma {:induction false} RecordsRun(s: State, steps: seq<Step>, asked: seq<Request>)
    requires Records(s.submitted, asked)
    ensures Records(Run(s, steps).submitted, asked + Asked(s, steps))
    decreases steps
  {
    if steps == [] {
      assert asked + [] == asked;
    } else {
      if Enabled(s, steps[0]) { RecordsStep(s, steps[0], asked); }
      assert asked + [] == asked;
      RecordsRun(Next(s, steps[0]), steps[1..], asked + AskedBy(s, steps[0]));
      assert asked + AskedBy(s, steps[0]) + Asked(Next(s, steps[0]), steps[1..]) ==
             asked + Asked(s, steps);
    }
  }

  /** The client petitions of a run are what its steps ask for, numbered as they come. */
  lemma SubmittedAsAsked(total: nat, steps: seq<Step>)
    ensures Records(After(total, steps).submitted, Asked(Init(total), steps))
  {
    RecordsRun(Init(total), steps, []);
    assert [] + Asked(Init(total), steps) == Asked(Init(total), steps);
  }

  // ---- what a sector holds

  predicate Writes(asked: seq<Request>, id: nat, sector: nat) {
    id < |asked| && asked[id].kind.Write? && asked[id].sector == sector
  }

  /** The data of the last of the requests `order` that writes the sector, `base` if none does. */
  function LastWritten(asked: seq<Request>, order: seq<nat>, sector: nat, base: Data): Data {
    if order == [] then base
    else
      var n := |order| - 1;
      if Writes(asked, order[n], sector) then asked[order[n]].data
      else LastWritten(asked, order[..n], sector, base)
  }

  /** The contents of the first disk to join. */
  function Master(steps: seq<Step>): map<nat, Data>
    decreases steps
  {
    if steps == [] then map[] else if steps[0].Join? then steps[0].content else Master(steps[1..])
  }

  /** More requests change nothing of what those in `order` wrote. */
  lemma {:induction false} LastWrittenMore(asked: seq<Request>, more: seq<Request>, order: seq<nat>, sector: nat,
                                           base: Data)
    requires forall i :: 0 <= i < |order| ==> order[i] < |asked|
    ensures LastWritten(asked + more, order, sector, base) == LastWritten(asked, order, sector, base)
    decreases |order|
  {
    if order != [] { LastWrittenMore(asked, more, order[..|order| - 1], sector, base); }
  }

  lemma {:induction false} MasterFound(a: seq<Step>, b: seq<Step>)
    ensures (exists i :: 0 <= i < |a| && a[i].Join?) ==> Master(a + b) == Master(a)
    ensures (forall i :: 0 <= i < |a| ==> !a[i].Join?) ==> Master(a) == map[] && Master(a + b) == Master(b)
    decreases a
  {
    if a == [] {
      assert a + b == b;
    } else {
      assert (a + b)[0] == a[0] && (a + b)[1..] == a[1..] + b;
      MasterFound(a[1..], b);
      if i :| 0 <= i < |a| && a[i].Join? {
        if i > 0 { assert a[1..][i - 1].Join?; }
      }
      assert forall i :: 0 <= i < |a[1..]| ==> a[1..][i] == a[i + 1];
    }
  }
}
