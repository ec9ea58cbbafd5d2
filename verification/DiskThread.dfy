/** PRAID1/HILO_PPD.c: the thread that serves one disk, on its linked queue and lists. */
module DiskThread {
  import opened Options
  import opened Petitions
  import opened Mirror
  import opened LinkedQueue
  import opened LinkedList

  /** What becomes of a petition whose response was received. */
  datatype Outcome = Forward(p: Petition) | Answer(reply: Reply) | Drop

  /** What the next response leads to, beyond the bookkeeping in `Settled`. */
  function OutcomeOf(d: Disk): Outcome
    requires d.resp != [] && Answers(d)
  {
    var p := Matched(d);
    if p.toSync && !(p.fd == -1 && d.state.Sync?) then Forward(SyncWriteFor(p, d.resp[0].data))
    else if p.reply then Answer(ReplyTo(p, d.resp[0]))
    else Drop
  }

  /** A drain of the whole queue, as the thread does on one signal. */
  function SendAll(d: Disk): Disk
    decreases |d.queue|
  {
    if d.queue == [] then d else SendAll(SendOne(d))
  }

  /** It is a run of the step system in which nothing else happens. */
  lemma {:induction false} DrainIsRun(s: State, k: nat)
    requires s.running && k < |s.ring|
    ensures Run(s, seq(|s.ring[k].queue|, _ => Send(k))) == s.(ring := s.ring[k := SendAll(s.ring[k])])
    decreases |s.ring[k].queue|
  {
    var n := |s.ring[k].queue|;
    if n == 0 {
      assert s.ring[k := s.ring[k]] == s.ring;
    } else {
      var s' := Apply(s, Send(k));
      DrainIsRun(s', k);
      assert seq(n, _ => Send(k))[1..] == seq(n - 1, _ => Send(k));
      assert s'.ring[k := SendAll(s'.ring[k])] == s.ring[k := SendAll(s.ring[k])];
    }
  }

  /** The last petition first. */
  function PutBack(from: nat, n: nat): (r: seq<Step>)
    ensures |r| == n
  {
    seq(n, i requires 0 <= i < n => Requeue(from + n - 1 - i))
  }

  /** When no other thread comes between, what a disk fault puts back keeps its order, ahead of
      all that waited. */
  lemma {:induction false} FaultIsRun(s: State, others: seq<Petition>, back: seq<Petition>)
    requires s.running && s.orphans == others + back
    ensures Run(s, PutBack(|others|, |back|)) == s.(general := back + s.general, orphans := others)
    decreases |back|
  {
    var n := |back|;
    if n == 0 {
      assert others + back == others && back + s.general == s.general;
    } else {
      var step := Requeue(|others| + n - 1);
      var s' := Apply(s, step);
      assert s'.orphans == others + back[..n - 1];
      FaultIsRun(s', others, back[..n - 1]);
      assert PutBack(|others|, n)[0] == step && PutBack(|others|, n)[1..] == PutBack(|others|, n - 1);
      assert back[..n - 1] + ([back[n - 1]] + s.general) == back + s.general;
    }
  }

  /** So the death of a disk, when nothing comes between, leaves what it owed at the head of the
      general queue: the petitions with REPLY that were sent, then those that were queued. */
  lemma DeathIsRun(s: State, k: nat)
    requires Enabled(s, Die(k)) && Apply(s, Die(k)).running
    ensures var back := Replying(s.ring[k].sent + s.ring[k].queue);
            var s' := Run(s, [Die(k)] + PutBack(|s.orphans|, |back|));
            && s'.general == back + s.general && s'.orphans == s.orphans
            && s'.ring == ResetReads(Without(s.ring, k))
  {
    var back := Requeued(s.ring[k]);
    var s1 := Apply(s, Die(k));
    FaultIsRun(s1, s.orphans, back);
    assert ([Die(k)] + PutBack(|s.orphans|, |back|))[1..] == PutBack(|s.orphans|, |back|);
  }

  function Present<T>(current: Option<T>): seq<T> {
    if current.Some? then [current.value] else []
  }

  /** Before the thread of a lost disk ends: everything that must be answered goes back to the
      head of the general queue, in the order it had. */
  method DiskFault(sent: List<Petition>, current: Option<Petition>, mine: Queue<Petition>, general: Queue<Petition>)
    requires sent.Valid() && mine.Valid() && general.Valid()
    requires sent.Repr !! mine.Repr !! general.Repr
    modifies mine.Repr, sent.Repr, general.Repr
    ensures general.Valid() && mine.contents == [] && sent.contents == []
    ensures general.contents ==
             Replying(old(sent.contents) + Present(current) + old(mine.contents)) + old(general.contents)
  {
    FaultOrder(sent.contents, Present(current), mine.contents, general.contents);
    RequeueQueue(mine, general);
    RequeueCurrent(current, general);
    RequeueList(sent, general);
  }

  method RequeueCurrent(current: Option<Petition>, general: Queue<Petition>)
    requires general.Valid()
    modifies general
    ensures general.Valid() && fresh(general.Repr - old(general.Repr))
    ensures general.contents == Replying(Present(current)) + old(general.contents)
  {
    if current.Some? && current.value.reply {
      general.PushHead(current.value);
    }
  }

  lemma FaultOrder(sent: seq<Petition>, current: seq<Petition>, mine: seq<Petition>, general: seq<Petition>)
    ensures Replying(sent + current + mine) + general ==
             Replying(sent) + (Replying(current) + (Replying(mine) + general))
  {
    ReplyingConcat(sent + current, mine);
    ReplyingConcat(sent, current);
    Regroup(Replying(sent), Replying(current), Replying(mine), general);
  }

  lemma Regroup<T>(a: seq<T>, b: seq<T>, c: seq<T>, d: seq<T>)
    ensures a + b + c + d == a + (b + (c + d))
  {
  }

  method RequeueQueue(mine: Queue<Petition>, general: Queue<Petition>)
    requires mine.Valid() && general.Valid() && general.Repr !! mine.Repr
    modifies mine.Repr, general.Repr
    ensures mine.Valid() && general.Valid()
    ensures fresh(general.Repr - old(general.Repr)) && fresh(mine.Repr - old(mine.Repr))
    ensures general.contents == Replying(old(mine.contents)) + old(general.contents) && mine.contents == []
  {
    ReversedTwice(mine.contents);
    mine.Invert();
    RequeueInverted(mine, general);
  }

  /** Moving a petition that wants a reply from the front of a reversed queue to the head of
      another leaves the two, read one after the other, as they were. */
  lemma FromReversed(mine: seq<Petition>, general: seq<Petition>)
    requires mine != []
    ensures Replying(Reversed(mine)) + general ==
            Replying(Reversed(mine[1..])) + if mine[0].reply then [mine[0]] + general else general
  {
    var most := Reversed(mine[1..]);
    assert Reversed(mine) == most + [mine[0]];
    ReplyingConcat(most, [mine[0]]);
    Regroup(Replying(most), Replying([mine[0]]), general, []);
  }

  lemma FromLast(sent: seq<Petition>, general: seq<Petition>)
    requires sent != []
    ensures var n := |sent| - 1;
            Replying(sent) + general ==
            Replying(Without(sent, n)) + if sent[n].reply then [sent[n]] + general else general
  {
    ReplyingLast(sent);
    var n := |sent| - 1;
    Regroup(Replying(Without(sent, n)), if sent[n].reply then [sent[n]] else [], general, []);
  }

  /** From the last petition to the first, each to the head. */
  method RequeueInverted(mine: Queue<Petition>, general: Queue<Petition>)
    requires mine.Valid() && general.Valid() && general.Repr !! mine.Repr
    modifies mine, general
    ensures mine.Valid() && general.Valid() && mine.Repr == old(mine.Repr) && fresh(general.Repr - old(general.Repr))
    ensures general.contents == Replying(Reversed(old(mine.contents))) + old(general.contents) && mine.contents == []
  {
    while mine.elementsCount > 0
      invariant mine.Valid() && general.Valid() && mine.Repr == old(mine.Repr)
      invariant fresh(general.Repr - old(general.Repr))
      invariant Replying(Reversed(mine.contents)) + general.contents
                == Replying(Reversed(old(mine.contents))) + old(general.contents)
      decreases |mine.contents|
    {
      FromReversed(mine.contents, general.contents);
      var p := mine.Pop();
      if p.value.reply {
        general.PushHead(p.value);
      }
    }
  }

  method RequeueList(sent: List<Petition>, general: Queue<Petition>)
    requires sent.Valid() && general.Valid() && general.Repr !! sent.Repr
    modifies sent.Repr, general
    ensures sent.Valid() && general.Valid()
    ensures general.contents == Replying(old(sent.contents)) + old(general.contents) && sent.contents == []
  {
    while sent.elementsCount > 0
      invariant sent.Valid() && general.Valid() && sent.Repr == old(sent.Repr)
      invariant fresh(general.Repr - old(general.Repr))
      invariant Replying(sent.contents) + general.contents == Replying(old(sent.contents)) + old(general.contents)
      decreases |sent.contents|
    {
      FromLast(sent.contents, general.contents);
      var p := sent.Remove(sent.elementsCount - 1);
      if p.value.reply {
        general.PushHead(p.value);
      }
    }
  }

  lemma ReplyingLast(ps: seq<Petition>)
    requires ps != []
    ensures var n := |ps| - 1;
            Replying(ps) == Replying(Without(ps, n)) + if ps[n].reply then [ps[n]] else []
  {
    var n := |ps| - 1;
    assert ps == ps[..n] + [ps[n]] && Without(ps, n) == ps[..n];
    ReplyingConcat(ps[..n], [ps[n]]);
  }

  method Clear<T>(list: List<T>)
    requires list.Valid()
    modifies list.Repr
    ensures list.Valid() && list.Repr == old(list.Repr) && list.contents == []
  {
    var count := list.elementsCount;
    for n := 0 to count
      invariant list.Valid() && list.Repr == old(list.Repr)
      invariant |list.contents| == count - n
    {
      var _ := list.Remove(0);
    }
  }

  /** The elements of a list without regard to order. */
  ghost function Members(s: seq<nat>): (r: set<nat>)
  {
    set x | x in s
  }

  class Thread {
    const id: nat
    const total: nat
    var state: DiskState
    const mine: Queue<Petition>
    const sent: List<Petition>
    const historic: List<nat>
    var auxFound: bool
    var nSync: nat
    var semaf: int
    /** How far the synchronisation thread has come. */
    var issued: nat
    /** The disk at the other end, and the history of this one. */
    ghost var far: Disk

    ghost predicate Valid()
      reads this, mine, mine.Repr, sent, sent.Repr, historic, historic.Repr
    {
      && mine.Valid() && sent.Valid() && historic.Valid()
      && this !in mine.Repr + sent.Repr + historic.Repr
      && mine.Repr !! sent.Repr !! historic.Repr
    }

    ghost function Repr(): set<object>
      reads this, mine, sent, historic
    {
      {this} + mine.Repr + sent.Repr + historic.Repr
    }

    /** The disk as the step system sees it. */
    ghost function Abs(): Disk
      reads this, mine, sent, historic
    {
      far.(id := id, state := state, queue := mine.contents, sent := sent.contents,
           historic := Members(historic.contents), auxFound := auxFound, nSync := nSync, semaf := semaf,
           issued := issued)
    }

    constructor (id: nat, total: nat, state: DiskState, content: map<nat, Data>)
      ensures this.total == total && Valid() && fresh(Repr()) && Abs() == NewDisk(id, state, content)
    {
      this.id, this.total, this.state := id, total, state;
      mine := new Queue<Petition>();
      sent := new List<Petition>();
      historic := new List<nat>();
      auxFound, nSync, semaf, issued := false, 0, SYNC_SLOTS, 0;
      far := NewDisk(id, state, content);
    }

    /** The synchronisation thread asks for its next sector once a slot is free. */
    method AddSyncPetition(general: Queue<Petition>)
      requires Valid() && general.Valid() && general.Repr !! Repr() && state.Sync? && semaf > 0 && issued < total
      modifies this`semaf, this`issued, general.Repr
      ensures Valid() && general.Valid() && fresh(general.Repr - old(general.Repr))
      ensures Abs() == old(Abs()).(semaf := old(semaf) - 1, issued := old(issued) + 1)
      ensures general.contents == old(general.contents) + [SyncPetition(old(Abs()))]
    {
      semaf := semaf - 1;
      general.Push(Petition(-1, Read, issued, [], false, id, true, 0, []));
      issued := issued + 1;
    }

    /** One round of the sending loop. */
    method SendNext()
      requires Valid() && mine.contents != []
      modifies this, mine.Repr, sent.Repr, historic.Repr
      ensures Valid()
      ensures fresh(mine.Repr - old(mine.Repr)) && fresh(sent.Repr - old(sent.Repr))
      ensures fresh(historic.Repr - old(historic.Repr))
      ensures Abs() == SendOne(old(Abs()))
    {
      var popped := mine.Pop();
      var p := popped.value;
      if p.kind.Write? && state.Sync? && p.fd == -1 {
        SendSync(p);
      } else {
        SendPlain(p);
      }
    }

    /** Any other petition is sent; the sector of a client write sent to a disk being
        synchronised is remembered. */
    method SendPlain(p: Petition)
      requires Valid()
      modifies this`far, sent.Repr, historic.Repr
      ensures Valid() && fresh(sent.Repr - old(sent.Repr)) && fresh(historic.Repr - old(historic.Repr))
      ensures Abs() == SendOther(old(Abs()), p)
    {
      Transmit(p);
      if p.kind.Write? && state.Sync? && p.fd != -1 {
        Remember(p.sector);
      }
    }

    /** A sync write: sent unless a client write to its sector made it pointless. */
    method SendSync(p: Petition)
      requires Valid() && p.kind.Write?
      modifies this`auxFound, this`far, sent.Repr
      ensures Valid() && fresh(sent.Repr - old(sent.Repr))
      ensures Abs() == SendSyncWrite(old(Abs()), p)
    {
      var overtaken := Overtaken(p.sector);
      if !overtaken {
        Transmit(p);
      } else {
        far := far.(skipped := far.skipped + {p.sector});
      }
    }

    method Overtaken(sector: nat) returns (overtaken: bool)
      requires Valid()
      modifies this`auxFound
      ensures auxFound == if mine.contents != [] then Repeated(mine.contents, sector) else old(auxFound)
      ensures overtaken == (auxFound || sector in historic.contents)
    {
      var remembered := historic.Find(n => n == sector);
      if mine.elementsCount != 0 {
        var found := mine.Find(q => Hits(q, sector, Write));
        auxFound := found.Some?;
      }
      overtaken := auxFound || remembered.Some?;
    }

    method Transmit(p: Petition)
      requires Valid()
      modifies this`far, sent.Repr
      ensures Valid() && fresh(sent.Repr - old(sent.Repr))
      ensures Abs() == Mirror.Transmit(old(Abs()), p)
    {
      var _ := sent.Add(p);
      far := far.(wire := far.wire + [p], log := far.log + [p]);
    }

    method Remember(sector: nat)
      requires Valid()
      modifies historic.Repr
      ensures Valid() && fresh(historic.Repr - old(historic.Repr))
      ensures Abs() == old(Abs()).(historic := old(Abs()).historic + {sector})
    {
      var remembered := historic.Find(n => n == sector);
      if remembered.None? {
        var _ := historic.Add(sector);
      }
    }

    method SendOnWayTo(ghost goal: Disk)
      requires Valid() && mine.contents != [] && SendAll(Abs()) == goal
      modifies this, mine.Repr, sent.Repr, historic.Repr
      ensures Valid() && |mine.contents| < |old(mine.contents)| && SendAll(Abs()) == goal
      ensures fresh(mine.Repr - old(mine.Repr)) && fresh(sent.Repr - old(sent.Repr))
      ensures fresh(historic.Repr - old(historic.Repr))
    {
      SendNext();
    }

    /** The sending loop, woken by one signal. */
    method Drain()
      requires Valid()
      modifies this, mine.Repr, sent.Repr, historic.Repr
      ensures Valid()
      ensures Abs() == SendAll(old(Abs()))
    {
      ghost var goal := SendAll(Abs());
      while mine.elementsCount > 0
        invariant Valid()
        invariant fresh(mine.Repr - old(mine.Repr)) && fresh(sent.Repr - old(sent.Repr))
        invariant fresh(historic.Repr - old(historic.Repr))
        invariant SendAll(Abs()) == goal
        decreases |mine.contents|
      {
        SendOnWayTo(goal);
      }
    }

    method TakeMatch(kind: Kind, sector: nat) returns (p: Petition)
      requires Valid() && far.resp != [] && Answers(Abs())
      requires far.resp[0].kind == kind && far.resp[0].sector == sector
      modifies this`far, sent.Repr
      ensures Valid() && Repr() == old(Repr()) && p == Matched(old(Abs()))
      ensures var d := old(Abs());
              Abs() == d.(resp := d.resp[1..], sent := Without(d.sent, FirstMatch(d.sent, sector, kind)))
    {
      ghost var i := FirstMatch(sent.contents, sector, kind);
      FirstIndexIs(sent.contents, q => Hits(q, sector, kind), i);
      var removed := sent.RemoveByClosure(q => Hits(q, sector, kind));
      assert sent.contents == Without(old(sent.contents), i) && removed.value == old(sent.contents)[i];
      p := removed.value;
      far := far.(resp := far.resp[1..]);
    }

    /** A sync write is done; with the last one the disk is up to date. */
    method Finish(sector: nat)
      requires Valid()
      modifies this, historic.Repr
      ensures Valid() && Repr() == old(Repr())
      ensures var d := old(Abs());
              var d' := d.(nSync := d.nSync + 1, semaf := d.semaf + 1, completed := d.completed + {sector});
              Abs() == if d'.nSync == total then d'.(historic := {}, state := Ok) else d'
    {
      nSync := nSync + 1;
      semaf := semaf + 1;
      far := far.(completed := far.completed + {sector});
      if nSync == total {
        Clear(historic);
        state := Ok;
      }
    }

    /** The petition answered is taken from those sent; a sync write counts as done, and goes
        nowhere. */
    method Settle(kind: Kind, sector: nat) returns (p: Petition, done: bool)
      requires Valid() && far.resp != [] && Answers(Abs())
      requires far.resp[0].kind == kind && far.resp[0].sector == sector
      modifies this, sent.Repr, historic.Repr
      ensures Valid() && Repr() == old(Repr()) && Abs() == Settled(old(Abs()), total)
      ensures p == Matched(old(Abs())) && done == (p.fd == -1 && old(state).Sync?)
    {
      p := TakeMatch(kind, sector);
      done := p.fd == -1 && state.Sync?;
      if done {
        Finish(p.sector);
      }
    }

    /** The response at the head of the channel is received and answered for. */
    method Resolve(kind: Kind, sector: nat, data: Data) returns (outcome: Outcome)
      requires Valid() && far.resp != [] && Answers(Abs())
      requires far.resp[0].kind == kind && far.resp[0].sector == sector && far.resp[0].data == data
      modifies this, sent.Repr, historic.Repr
      ensures Valid() && Repr() == old(Repr())
      ensures Abs() == Settled(old(Abs()), total) && outcome == OutcomeOf(old(Abs()))
    {
      var p, done := Settle(kind, sector);
      if p.toSync && !done {
        outcome := Forward(SyncWriteFor(p, data));
      } else if p.reply {
        outcome := Answer(Reply(p.fd, kind, sector, data, p));
      } else {
        outcome := Drop;
      }
    }
  }
}
