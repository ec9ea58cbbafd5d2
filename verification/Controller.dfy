/** PRAID1/PRAID1.c: the consumer loop and the entry points that feed it, on the general queue
    and the list of disks kept in place.  Other threads may act between two copies of a write;
    the step system says what that amounts to. */
module Controller {
  import opened DiskGeometry
  import opened LinkedList
  import opened LinkedQueue
  import opened Mirror
  import opened MirrorRequests
  import opened MirrorRounds
  import opened Options
  import opened Petitions

  class Raid {
    const general: Queue<Petition>
    /** Each node with the queue and the rest of the disk that it is for. */
    const disks: List<Disk>
    /** The identifiers and the geometry of the disks. */
    var ids: List<string>
    var chs: Chs
    /** The write being copied, and how far. */
    var round: Option<Round>
    var nextDisk: nat
    var replied: seq<Reply>
    var running: bool
    /** What the threads of dead disks have in hand. */
    ghost var orphans: seq<Petition>
    /** History. */
    var submitted: seq<Petition>
    var logical: map<nat, Data>
    ghost var stale: set<nat>

    ghost predicate Valid()
      reads this, general, general.Repr, disks, disks.Repr, ids, ids.Repr
    {
      && general.Valid() && disks.Valid() && ids.Valid()
      && this !in general.Repr + disks.Repr + ids.Repr
      && general.Repr !! disks.Repr !! ids.Repr
    }

    ghost function Repr(): set<object>
      reads this, general, disks, ids
    {
      {this} + general.Repr + disks.Repr + ids.Repr
    }

    ghost function Snapshot(): State
      reads this, general, disks
    {
      State(chs.Sectors(), general.contents, orphans, round, disks.contents, replied, running, nextDisk,
            submitted, logical, stale)
    }

    constructor ()
      ensures Valid() && fresh(Repr()) && ids.contents == []
      ensures Snapshot() == Init(0)
    {
      general := new Queue<Petition>();
      disks := new List<Disk>();
      ids := new List<string>();
      chs, round, nextDisk := Chs(0, 0, 0), None, 0;
      orphans, replied, running, submitted, logical, stale := [], [], true, [], map[], {};
    }

    /** A read or write arrives from a client. */
    method Resolve(fd: nat, kind: Kind, sector: nat, data: Data)
      requires Valid() && Enabled(Snapshot(), Submit(fd, kind, sector, data))
      modifies this`submitted, general.Repr
      ensures Valid() && fresh(Repr() - old(Repr()))
      ensures Snapshot() == Apply(old(Snapshot()), Submit(fd, kind, sector, data))
      ensures general.contents != [] &&
              var n := |general.contents| - 1;
              && general.contents[..n] == old(general.contents)
              && Carries(general.contents[n], Request(fd, kind, sector, data), |old(submitted)|)
    {
      var p := Petition(fd, kind, sector, data, false, 0, false, |submitted|, []);
      general.Push(p);
      submitted := submitted + [p];
    }

    /** The consumer pops a petition: a read goes to a disk, a write begins its round. */
    method Consume()
      requires Valid() && Enabled(Snapshot(), Dispatch)
      modifies this`round, this`logical, general, disks.Repr
      ensures Valid() && fresh(Repr() - old(Repr()))
      ensures Snapshot() == Apply(old(Snapshot()), Dispatch)
    {
      var p := general.Pop();
      if p.value.kind.Read? {
        Read(p.value);
      } else {
        BeginWrite(p.value);
      }
    }

    method BeginWrite(p: Petition)
      requires Valid()
      modifies this`round, this`logical
      ensures Valid() && round == Some(Round(p, 0, 0, old(logical))) && logical == old(logical)[p.sector := p.data]
    {
      round, logical := Some(Round(p, 0, 0, logical)), logical[p.sector := p.data];
    }

    /** The first up-to-date disk is taken out, given the read, and put back at the end. */
    method Read(p: Petition)
      requires Valid() && SomeOk(disks.contents)
      modifies disks.Repr
      ensures Valid() && fresh(disks.Repr - old(disks.Repr))
      ensures var ring := old(disks.contents);
              var i := FirstOk(ring);
              i < |ring| && disks.contents == Without(ring, i) + [PushRead(ring[i], p)]
    {
      FirstOkExists(disks.contents);
      FirstIndexIs(disks.contents, (d: Disk) => d.state.Ok?, FirstOk(disks.contents));
      var d := disks.RemoveByClosure((d: Disk) => d.state.Ok?);
      var _ := disks.Add(PushRead(d.value, p));
    }

    /** The disk at the head of the list gets its copy and is put at the end. */
    method Turn(p: Petition, reply: bool)
      requires Valid() && disks.contents != []
      modifies disks.Repr
      ensures Valid() && fresh(disks.Repr - old(disks.Repr))
      ensures disks.contents == old(disks.contents)[1..] + [PushWrite(old(disks.contents)[0], p, reply)]
    {
      var d := TakeFirst();
      var _ := disks.Add(PushWrite(d, p, reply));
    }

    method TakeFirst() returns (d: Disk)
      requires Valid() && disks.contents != []
      modifies disks.Repr
      ensures Valid() && disks.Repr == old(disks.Repr)
      ensures d == old(disks.contents)[0] && disks.contents == old(disks.contents)[1..]
    {
      var taken := disks.Remove(0);
      d := taken.value;
      assert Without(old(disks.contents), 0) == old(disks.contents)[1..];
    }

    /** One turn of the copying loop: the first copy is the one to be answered. */
    method CopyNext()
      requires Valid() && Enabled(Snapshot(), Copy)
      modifies this`round, disks.Repr
      ensures Valid() && fresh(disks.Repr - old(disks.Repr))
      ensures Snapshot() == Apply(old(Snapshot()), Copy)
    {
      var r := round.value;
      Turn(r.p, r.position == 0);
      round := Some(r.(position := r.position + 1));
    }

    /** The whole loop, when nothing comes between its turns. */
    method GoRound()
      requires Valid() && running && round.Some?
      modifies this`round, this`stale, disks.Repr
      ensures Valid() && fresh(disks.Repr - old(disks.Repr))
      ensures Snapshot() == Run(old(Snapshot()), Copies(ToGive(old(Snapshot()))) + [EndRound])
    {
      ghost var start := Snapshot();
      ghost var n := 0;
      while disks.elementsCount > round.value.position
        invariant Valid() && fresh(disks.Repr - old(disks.Repr)) && running && round.Some?
        invariant n <= ToGive(start) && Snapshot() == Run(start, Copies(n))
        invariant n + ToGive(Snapshot()) == ToGive(start)
        decreases ToGive(Snapshot())
      {
        CopyNext();
        CopiesThen(start, n);
        n := n + 1;
      }
      RunThen(start, Copies(n), EndRound);
      EndWrite();
    }

    /** The petition is freed. */
    method EndWrite()
      requires Valid() && Enabled(Snapshot(), EndRound)
      modifies this`round, this`stale
      ensures Valid() && Snapshot() == Apply(old(Snapshot()), EndRound)
    {
      var sector := round.value.p.sector;
      stale := if Waiting(Snapshot()) > 0 then stale + {sector} else stale - {sector};
      round := None;
    }

    /** A disk connects: the first is the master copy and sets the geometry; a later one has to be
        synchronised, and is refused when its identifier is known or its geometry differs.  The
        counts of reads, which begin anew, are history. */
    method Connect(id: string, geometry: Chs, content: map<nat, Data>) returns (accepted: bool)
      requires Valid() && Enabled(Snapshot(), Join(content))
      modifies this`ids, this`chs, this`nextDisk, this`logical, disks.Repr, ids.Repr
      ensures Valid() && fresh(disks.Repr - old(disks.Repr)) && fresh(ids.Repr - old(ids.Repr))
      ensures accepted == (old(disks.contents) == [] || (id !in old(ids.contents) && geometry == old(chs)))
      ensures !accepted ==> Snapshot() == old(Snapshot()) && ids.contents == old(ids.contents)
      ensures accepted ==>
                && chs == geometry && Snapshot().total == |geometry.Places()|
                && ids.contents == (if old(disks.contents) == [] then [] else old(ids.contents)) + [id]
                && Snapshot().(ring := ResetReads(disks.contents)) ==
                   Apply(old(Snapshot()).(total := geometry.Sectors()), Join(content))
    {
      SectorsAreItsPlaces(geometry);
      var first := disks.elementsCount == 0;
      accepted := true;
      if !first { accepted := Compatible(id, geometry); }
      if accepted { Accept(id, geometry, content, first); }
    }

    method Accept(id: string, geometry: Chs, content: map<nat, Data>, first: bool)
      requires Valid() && round.None? && running && first == (disks.contents == []) && (!first ==> geometry == chs)
      modifies this`ids, this`chs, this`nextDisk, this`logical, disks.Repr, ids.Repr
      ensures Valid() && fresh(disks.Repr - old(disks.Repr)) && fresh(ids.Repr - old(ids.Repr))
      ensures chs == geometry && ids.contents == (if first then [] else old(ids.contents)) + [id]
      ensures Snapshot().(ring := ResetReads(disks.contents)) ==
              JoinStep(old(Snapshot()).(total := geometry.Sectors()), content)
    {
      Register(id, geometry, first);
      Admit(content, first);
    }

    method Admit(content: map<nat, Data>, first: bool)
      requires Valid() && round.None? && running && first == (disks.contents == [])
      modifies this`nextDisk, this`logical, disks.Repr
      ensures Valid() && fresh(disks.Repr - old(disks.Repr))
      ensures Snapshot().(ring := ResetReads(disks.contents)) == JoinStep(old(Snapshot()), content)
    {
      Enlist(NewDisk(nextDisk, if first then Ok else Sync, content));
      nextDisk, logical := nextDisk + 1, if first then content else logical;
    }

    method Register(id: string, geometry: Chs, first: bool)
      requires Valid() && (!first ==> geometry == chs)
      modifies this`ids, this`chs, ids.Repr
      ensures Valid() && fresh(ids.Repr - old(ids.Repr))
      ensures chs == geometry && ids.contents == (if first then [] else old(ids.contents)) + [id]
      ensures Snapshot() == old(Snapshot()).(total := geometry.Sectors())
    {
      if first {
        ids := new List<string>();
        chs := geometry;
      }
      var _ := ids.Add(id);
    }

    method Enlist(d: Disk)
      requires Valid()
      modifies disks.Repr
      ensures Valid() && fresh(disks.Repr - old(disks.Repr)) && disks.contents == old(disks.contents) + [d]
      ensures d.readCount == 0 ==> ResetReads(disks.contents) == ResetReads(old(disks.contents)) + [d]
    {
      var _ := disks.Add(d);
    }

    method Compatible(id: string, geometry: Chs) returns (compatible: bool)
      requires Valid()
      ensures compatible == (id !in ids.contents && geometry == chs)
    {
      var known := ids.Find(other => other == id);
      compatible := known == None && geometry == chs;
    }
  }
}
