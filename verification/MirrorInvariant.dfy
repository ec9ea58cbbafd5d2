/** The invariant of the RAID and its preservation by every step. */
module MirrorInvariant {
  import opened Arithmetic
  import opened Options
  import opened Petitions
  import opened Mirror
  import opened MirrorShape
  import opened MirrorAccounts
  import opened MirrorContents

  /** The contents that the writes given to disk `k` make up: while a round goes on, those at
      the head of the ring lack its write. */
  function Told(s: State, k: nat): map<nat, Data> {
    if s.round.Some? && k < Waiting(s) then s.round.value.before else s.logical
  }

  /** The sectors for which that is not claimed: the last round to write them left a disk out.
      A disk that has its copy is right again. */
  function Unsure(s: State, k: nat): set<nat> {
    if s.round.Some? && k >= Waiting(s) then s.stale - {s.round.value.p.sector} else s.stale
  }

  ghost predicate DiskContents(d: Disk, told: map<nat, Data>, unsure: set<nat>, total: nat) {
    && (forall sector: nat :: sector < total && sector !in unsure ==> Mirrored(d, sector, Lookup(told, sector)))
    && ReadsRight(d.content, Ahead(d), total)
  }

  /** A sync read on its way carries, or will fetch, the right data for a disk that has not
      been told of a write to the sector. */
  predicate FreshFor(p: Petition, d: Disk, told: map<nat, Data>, unsure: set<nat>, total: nat) {
    p.fd == -1 && p.kind.Read? && p.owner == d.id && d.state.Sync? &&
    p.sector < total && p.sector !in unsure && !Tainted(d, p.sector)
    ==> p.wanted == Lookup(told, p.sector)
  }

  predicate InHands(d: Disk, p: Petition) {
    p in d.queue || p in d.sent
  }

  ghost predicate Fresh(s: State) {
    forall i, j, p :: 0 <= i < |s.ring| && 0 <= j < |s.ring| && InHands(s.ring[i], p) ==>
      FreshFor(p, s.ring[j], Told(s, j), Unsure(s, j), s.total)
  }

  /** The place of a disk once the round is over: those that have their copy are back before the
      others. */
  function Turn(s: State, i: nat): int {
    var position := if s.round.Some? then s.round.value.position else 0;
    if i >= |s.ring| - position then i + position - |s.ring| else i + position
  }

  predicate NoneRead(ring: seq<Disk>) {
    forall i :: 0 <= i < |ring| ==> ring[i].readCount == 0
  }

  /** Reads go round: in the order of their turns, up-to-date disks have served as many or one
      more. */
  predicate InTurn(s: State) {
    && (s.round.Some? ==> s.round.value.position <= |s.ring|)
    && forall i, j ::
         0 <= i < |s.ring| && 0 <= j < |s.ring| && Turn(s, i) < Turn(s, j) && s.ring[i].state.Ok? && s.ring[j].state.Ok?
         ==> s.ring[i].readCount <= s.ring[j].readCount <= s.ring[i].readCount + 1
  }

  predicate RoundRobin(s: State) {
    NoneRead(s.ring) || InTurn(s)
  }

  /** Of a synchronisation exactly the client writes sent are remembered, and no sync write to
      their sector follows them.  A flag left over from an earlier petition tells that a sector
      was given up; and some sector given up was written by a client. */
  ghost predicate LogOk(d: Disk) {
    && (d.auxFound ==> d.skipped != {})
    && (d.state.Ok? ==> d.historic == {})
    && (d.state.Sync? ==>
          && (forall sector: nat :: sector in d.historic <==> WrittenByClient(d.log, sector))
          && (forall i, j :: 0 <= i < j < |d.log| && IsSyncWrite(d.log[j], d.log[i].sector) ==>
                !Lands(d.log[i], d.log[i].sector, false))
          && Excused(d))
  }

  predicate Excused(d: Disk) {
    d.skipped == {} || exists sector :: sector in d.skipped && Tainted(d, sector)
  }

  /** The petitions that wait, the round of a write, the identities in the ring, and the
      presence of an up-to-date disk. */
  predicate Skeleton(s: State) {
    && (forall p :: p in s.general ==> MayWait(p))
    && (forall p :: p in s.orphans ==> MayWait(p))
    && (s.round.Some? ==> RoundOk(s, s.round.value))
    && Distinct(s.ring)
    && (s.running && s.ring != [] ==> SomeOk(s.ring))
  }

  predicate RoundOk(s: State, r: Round) {
    && MayWait(r.p) && r.p.kind.Write? && s.ring != []
    && r.lost <= r.position && r.position - r.lost <= |s.ring|
    && s.logical == r.before[r.p.sector := r.p.data]
  }

  predicate Distinct(ring: seq<Disk>) {
    forall i, j :: 0 <= i < j < |ring| ==> ring[i].id != ring[j].id
  }

  ghost predicate DisksOk(s: State) {
    forall i :: 0 <= i < |s.ring| ==>
      && DiskShape(s.ring[i], s.total) && s.ring[i].id < s.nextDisk
      && DiskContents(s.ring[i], Told(s, i), Unsure(s, i), s.total) && LogOk(s.ring[i])
  }

  ghost predicate Inv(s: State) {
    Skeleton(s) && Laws(s) && DisksOk(s) && Fresh(s) && RoundRobin(s)
  }

  // ---- one disk

  predicate SameWork(d: Disk, e: Disk) {
    e == d.(semaf := e.semaf, issued := e.issued, readCount := e.readCount)
  }

  lemma SameWorkKeeps(d: Disk, e: Disk, told: map<nat, Data>, unsure: set<nat>, total: nat)
    requires SameWork(d, e)
    ensures DiskShape(d, total) ==> DiskShape(e, total)
    ensures DiskContents(d, told, unsure, total) ==> DiskContents(e, told, unsure, total)
    ensures LogOk(d) ==> LogOk(e)
    ensures forall p: Petition ::
              FreshFor(p, d, told, unsure, total) == FreshFor(p, e, told, unsure, total)
                && InHands(d, p) == InHands(e, p)
  {
    assert Flow(d) == Flow(e) && Ahead(d) == Ahead(e);
    assert forall p: Petition :: Belongs(p, d) == Belongs(p, e);
    if DiskContents(d, told, unsure, total) {
      forall sector: nat | sector < total && sector !in unsure
        ensures Mirrored(e, sector, Lookup(told, sector))
      {
        assert Mirrored(d, sector, Lookup(told, sector));
      }
    }
  }

  lemma PushShape(d: Disk, p: Petition, total: nat)
    requires DiskShape(d, total) && Belongs(p, d)
    ensures DiskShape(d.(queue := d.queue + [p]), total)
  {
    var e := d.(queue := d.queue + [p]);
    assert Flow(e) == Flow(d);
    forall q | q in e.queue || q in e.sent
      ensures Belongs(q, e)
    {
      assert q in d.queue || q in d.sent || q == p;
      assert Belongs(q, d);
    }
  }

  lemma PushLog(d: Disk, p: Petition)
    requires LogOk(d)
    ensures LogOk(d.(queue := d.queue + [p]))
  {
    if d.state.Sync? && d.skipped != {} {
      var sector :| sector in d.skipped && Tainted(d, sector);
      WrittenConcat(d.queue, [p], sector);
    }
  }

  lemma PushReadContents(d: Disk, p: Petition, told: map<nat, Data>, unsure: set<nat>, total: nat)
    requires DiskContents(d, told, unsure, total) && d.state.Ok? && p.kind.Read?
    requires p.wanted == Eventual(d, p.sector)
    ensures DiskContents(d.(queue := d.queue + [p]), told, unsure, total)
  {
    var e := d.(queue := d.queue + [p]);
    assert Ahead(e) == Ahead(d) + [p];
    forall sector: nat | sector < total && sector !in unsure
      ensures Eventual(e, sector) == Lookup(told, sector)
    {
      assert Mirrored(d, sector, Lookup(told, sector));
      EventualPush(d, p, sector);
    }
    ReadsRightPush(d.content, Ahead(d), p, total);
  }

  lemma PushWriteContents(d: Disk, p: Petition, told: map<nat, Data>, unsure: set<nat>, total: nat)
    requires DiskContents(d, told, unsure, total) && p.kind.Write? && p.fd >= 0
    ensures DiskContents(d.(queue := d.queue + [p]), told[p.sector := p.data], unsure - {p.sector}, total)
  {
    var e := d.(queue := d.queue + [p]);
    var told' := told[p.sector := p.data];
    assert Ahead(e) == Ahead(d) + [p];
    forall sector: nat | sector < total && sector !in unsure - {p.sector}
      ensures Mirrored(e, sector, Lookup(told', sector))
    {
      assert sector != p.sector ==> Mirrored(d, sector, Lookup(told, sector));
      if d.state.Ok? { EventualPush(d, p, sector); } else { CatchingWrite(d, p, sector, Lookup(told, sector)); }
    }
    ReadsRightPush(d.content, Ahead(d), p, total);
  }

  lemma PushSyncContents(d: Disk, p: Petition, told: map<nat, Data>, unsure: set<nat>, total: nat)
    requires DiskContents(d, told, unsure, total) && d.state.Sync? && p.kind.Write? && p.fd == -1
    requires p.sector < total && p.sector !in unsure && !Tainted(d, p.sector) ==> p.data == Lookup(told, p.sector)
    ensures DiskContents(d.(queue := d.queue + [p]), told, unsure, total)
  {
    var e := d.(queue := d.queue + [p]);
    assert Ahead(e) == Ahead(d) + [p];
    forall sector: nat | sector < total && sector !in unsure
      ensures Mirrored(e, sector, Lookup(told, sector))
    {
      assert Mirrored(d, sector, Lookup(told, sector));
      CatchingSyncWrite(d, p, sector, Lookup(told, sector));
    }
    ReadsRightPush(d.content, Ahead(d), p, total);
  }

  lemma SendContents(d: Disk, told: map<nat, Data>, unsure: set<nat>, total: nat)
    requires DiskContents(d, told, unsure, total) && d.queue != [] && Belongs(d.queue[0], d)
    requires forall p :: p in d.queue || p in d.sent ==> Belongs(p, d)
    requires forall p :: p in d.wire ==> p in d.sent
    ensures DiskContents(SendOne(d), told, unsure, total)
  {
    var e := SendOne(d);
    forall sector: nat | sector < total && sector !in unsure
      ensures Mirrored(e, sector, Lookup(told, sector))
    {
      assert Mirrored(d, sector, Lookup(told, sector));
      if d.state.Ok? { SendEventual(d, sector); } else { SendCatching(d, sector, Lookup(told, sector)); }
    }
    if d.state.Ok? {
      SendEventual(d, 0);
    } else {
      forall p | p in e.queue || p in e.wire
        ensures p.kind.Write?
      {
        assert p in d.queue || p in d.sent;
        assert Belongs(p, d);
      }
      NoReads(e, total);
    }
  }

  lemma NoReads(d: Disk, total: nat)
    requires forall i :: 0 <= i < |d.queue| ==> d.queue[i].kind.Write?
    requires forall i :: 0 <= i < |d.wire| ==> d.wire[i].kind.Write?
    ensures ReadsRight(d.content, Ahead(d), total)
  {
  }

  lemma ServeContents(d: Disk, i: nat, told: map<nat, Data>, unsure: set<nat>, total: nat)
    requires DiskContents(d, told, unsure, total) && MayServe(d.wire, i)
    ensures DiskContents(ServeOne(d, i), told, unsure, total)
  {
    forall sector: nat | sector < total && sector !in unsure
      ensures Mirrored(ServeOne(d, i), sector, Lookup(told, sector))
    {
      ServeMirrored(d, i, sector, Lookup(told, sector));
    }
    ServeReads(d, i, total);
  }

  lemma ServeShape(d: Disk, i: nat, told: map<nat, Data>, unsure: set<nat>, total: nat)
    requires DiskShape(d, total) && DiskContents(d, told, unsure, total) && MayServe(d.wire, i)
    ensures DiskShape(ServeOne(d, i), total)
  {
    var e := ServeOne(d, i);
    ServeFlow(d, i);
    if d.wire[i].kind.Read? && d.wire[i].sector < total { ServedReadIsRight(d, i, total); }
    assert forall r :: r in e.resp ==> r in d.resp || r == e.resp[|d.resp|];
    assert forall q: Petition :: Belongs(q, e) == Belongs(q, d);
  }

  /** The accounts leave a disk that has just finished no petition of a synchronisation. */
  ghost predicate NoSyncLeft(d: Disk) {
    forall p :: InHands(d, p) ==> p.fd != -1
  }

  lemma SettledShape(d: Disk, total: nat)
    requires DiskShape(d, total) && d.resp != [] && Answers(d)
    requires Promotes(d, total) ==> NoSyncLeft(Settled(d, total))
    ensures DiskShape(Settled(d, total), total)
  {
    var e := Settled(d, total);
    ReceiveFlow(d, total);
    forall q | q in e.queue || q in e.sent
      ensures Belongs(q, e)
    {
      assert q in d.queue || q in d.sent;
      assert Belongs(q, d);
    }
  }

  lemma SettledContents(d: Disk, told: map<nat, Data>, unsure: set<nat>, total: nat)
    requires DiskShape(d, total) && DiskContents(d, told, unsure, total) && d.resp != [] && Answers(d)
    requires Promotes(d, total) ==> NoSyncLeft(Settled(d, total))
    requires Promotes(d, total) ==> forall sector: nat :: sector < total ==> sector in Settled(d, total).completed
    ensures DiskContents(Settled(d, total), told, unsure, total)
  {
    var e := Settled(d, total);
    assert Belongs(Matched(d), d);
    forall sector: nat | sector < total && sector !in unsure
      ensures Mirrored(e, sector, Lookup(told, sector))
    {
      assert Mirrored(d, sector, Lookup(told, sector));
      if Promotes(d, total) {
        forall i | 0 <= i < |d.queue|
          ensures d.queue[i].fd >= 0
        {
          assert d.queue[i] in e.queue && Belongs(d.queue[i], d);
        }
        PromotedMirrored(d, total, sector, Lookup(told, sector));
      } else if d.state.Sync? {
        SettledCatching(d, total, sector, Lookup(told, sector));
      }
    }
    assert Ahead(e) == Ahead(d);
  }

  lemma SendLog(d: Disk)
    requires LogOk(d) && d.queue != [] && (forall p :: p in d.queue ==> Belongs(p, d)) && (d.state.Sync? ==> NoOther(d))
    ensures LogOk(SendOne(d))
  {
    var p := d.queue[0];
    forall sector: nat
      ensures WrittenByClient(d.log + [p], sector) == (WrittenByClient(d.log, sector) || Lands(p, sector, false))
    {
      WrittenConcat(d.log, [p], sector);
      assert WrittenByClient([p], sector) == Lands([p][0], sector, false);
    }
    if SendOne(d).log != d.log && IsSyncWrite(p, p.sector) && d.state.Sync? {
      forall i | 0 <= i < |d.log| && d.log[i].sector == p.sector
        ensures !Lands(d.log[i], p.sector, false)
      {
        assert p.sector !in d.historic;
      }
    }
    if d.state.Sync? {
      assert Belongs(p, d);
      SendExcused(d);
    }
  }

  /** A sync write at the head of the queue is the only one for its sector. */
  predicate NoOther(d: Disk)
    requires d.queue != []
  {
    d.queue[0].fd == -1 ==> forall i :: 0 < i < |d.queue| ==> !IsSyncWrite(d.queue[i], d.queue[0].sector)
  }

  lemma OneSyncWrite(s: State, k: nat)
    requires Laws(s) && k < |s.ring| && s.ring[k].queue != []
    requires forall p :: p in s.ring[k].queue ==> Belongs(p, s.ring[k])
    ensures s.ring[k].state.Sync? ==> NoOther(s.ring[k])
  {
    var d := s.ring[k];
    var p := d.queue[0];
    if d.state.Sync? && p.fd == -1 {
      forall i | 0 < i < |d.queue|
        ensures !IsSyncWrite(d.queue[i], p.sector)
      {
        if IsSyncWrite(d.queue[i], p.sector) {
          var key := SectorKey(d.id, p.sector);
          assert SectorLaw(s, d, p.sector);
          RingHeldWithout(s.ring, k, key);
          assert Belongs(p, d) && Belongs(d.queue[i], d);
          assert d.queue[1..][i - 1] == d.queue[i];
          CountMember(d.queue[1..], d.queue[i], key, false);
        }
      }
    }
  }

  /** The first sector given up is one that a client wrote to. */
  lemma SendExcused(d: Disk)
    requires d.queue != [] && d.state.Sync? && d.queue[0].fd >= -1 && NoOther(d)
    requires Excused(d) && (d.auxFound ==> d.skipped != {}) && forall p :: p in d.queue ==> p.fd >= -1
    ensures Excused(SendOne(d))
  {
    var p := d.queue[0];
    if d.skipped != {} {
      var sector :| sector in d.skipped && Tainted(d, sector);
      SendTaint(d, sector);
    } else if SendOne(d).skipped != {} {
      SendTaint(d, p.sector);
      if p.sector !in d.historic {
        var i :| 0 <= i < |d.queue[1..]| && Hits(d.queue[1..][i], p.sector, Write);
        assert d.queue[1..][i] == d.queue[i + 1] && (Lands(d.queue[i + 1], p.sector, false) || d.queue[i + 1].fd < 0);
      }
    }
  }

  // ---- the ring

  /** Steps after which every disk has the work some disk had before. */
  lemma SameWorkRing(s: State, s': State, source: seq<nat>)
    requires DisksOk(s) && Fresh(s)
    requires s'.total == s.total && s'.nextDisk >= s.nextDisk && |source| == |s'.ring|
    requires forall i :: 0 <= i < |source| ==> source[i] < |s.ring| && KeepsWork(s, source[i], s', i)
    ensures DisksOk(s') && Fresh(s')
  {
    forall i | 0 <= i < |s'.ring|
      ensures DiskShape(s'.ring[i], s.total) && s'.ring[i].id < s'.nextDisk
      ensures DiskContents(s'.ring[i], Told(s', i), Unsure(s', i), s.total) && LogOk(s'.ring[i])
      ensures forall p: Petition ::
                && FreshFor(p, s.ring[source[i]], Told(s', i), Unsure(s', i), s.total) ==
                   FreshFor(p, s'.ring[i], Told(s', i), Unsure(s', i), s.total)
                && InHands(s.ring[source[i]], p) == InHands(s'.ring[i], p)
    {
      assert KeepsWork(s, source[i], s', i);
      SameWorkKeeps(s.ring[source[i]], s'.ring[i], Told(s', i), Unsure(s', i), s.total);
    }
  }

  /** Disk `i` of the new ring is disk `j` of the old one, and has been told the same. */
  predicate KeepsWork(s: State, j: nat, s': State, i: nat)
    requires j < |s.ring| && i < |s'.ring|
  {
    SameWork(s.ring[j], s'.ring[i]) && Told(s', i) == Told(s, j) && Unsure(s', i) == Unsure(s, j)
  }

  lemma PushReadRing(s: State, k: nat, p: Petition)
    requires DisksOk(s) && Fresh(s) && k < |s.ring| && s.ring[k].state.Ok? && s.round.None?
    requires p.kind.Read? && p.wanted == Eventual(s.ring[k], p.sector) && Belongs(p, s.ring[k])
    ensures var s' := s.(ring := s.ring[k := s.ring[k].(queue := s.ring[k].queue + [p])]);
            DisksOk(s') && Fresh(s')
  {
    PushShape(s.ring[k], p, s.total);
    PushReadContents(s.ring[k], p, s.logical, s.stale, s.total);
    PushLog(s.ring[k], p);
    assert p.sector < s.total && p.sector !in s.stale ==>
      Mirrored(s.ring[k], p.sector, Lookup(s.logical, p.sector));
    OneDiskFresh(s, k, s.ring[k].(queue := s.ring[k].queue + [p]));
  }

  /** Where each place of the ring comes from when disk `k` goes to its end. */
  function Rotation(n: nat, k: nat): (r: seq<nat>)
    requires k < n
    ensures |r| == n && forall i :: 0 <= i < n ==> r[i] == if i == n - 1 then k else if i < k then i else i + 1
  {
    seq(n, i requires 0 <= i < n => if i == n - 1 then k else if i < k then i else i + 1)
  }

  lemma DispatchReadRing(s: State)
    requires DisksOk(s) && Fresh(s) && s.general != [] && s.round.None? && SomeOk(s.ring)
    requires s.general[0].kind.Read? && MayWait(s.general[0])
    ensures var s' := DispatchRead(s); DisksOk(s') && Fresh(s')
  {
    FirstOkExists(s.ring);
    var k := FirstOk(s.ring);
    var p := ReadFor(s.general[0], s.ring[k]);
    PushReadRing(s, k, p);
    ReadRotates(s, k, p);
    var s1 := s.(ring := s.ring[k := s.ring[k].(queue := s.ring[k].queue + [p])]);
    SameWorkRing(s1, DispatchRead(s), Rotation(|s.ring|, k));
  }

  lemma ReadRotates(s: State, k: nat, p: Petition)
    requires s.general != [] && s.round.None? && SomeOk(s.ring) && k == FirstOk(s.ring) < |s.ring|
    requires p == ReadFor(s.general[0], s.ring[k])
    ensures var s1 := s.(ring := s.ring[k := s.ring[k].(queue := s.ring[k].queue + [p])]);
            var s' := DispatchRead(s);
            |s'.ring| == |s1.ring| && forall i :: 0 <= i < |s1.ring| ==> KeepsWork(s1, Rotation(|s1.ring|, k)[i], s', i)
  {
  }

  /** A round begins: nobody has the write yet. */
  lemma DispatchWriteRing(s: State)
    requires DisksOk(s) && Fresh(s) && s.general != [] && s.round.None?
    ensures var s' := DispatchWrite(s); DisksOk(s') && Fresh(s')
  {
    SameWorkRing(s, DispatchWrite(s), Places(|s.ring|));
  }

  function Places(n: nat): (r: seq<nat>)
    ensures |r| == n && forall i :: 0 <= i < n ==> r[i] == i
  {
    seq(n, i requires 0 <= i < n => i)
  }

  /** Each disk of the ring after a copy, but the last, was one place further on. */
  lemma CopyMoves(s: State, i: nat)
    requires Skeleton(s) && Enabled(s, Copy) && i < |s.ring|
    ensures var s' := CopyStep(s);
            && |s'.ring| == |s.ring|
            && Told(s', i) == (if i < |s.ring| - 1 then Told(s, i + 1) else s.logical)
            && Unsure(s', i) == (if i < |s.ring| - 1 then Unsure(s, i + 1) else s.stale - {s.round.value.p.sector})
            && s'.ring[i] == (if i < |s.ring| - 1 then s.ring[i + 1]
                              else PushWrite(s.ring[0], s.round.value.p, s.round.value.position == 0))
            && Told(s, 0) == s.round.value.before && Unsure(s, 0) == s.stale
  {
  }

  /** A disk gets its copy: it has been told of the write, and is right about its sector. */
  lemma CopyRing(s: State)
    requires Skeleton(s) && DisksOk(s) && Fresh(s) && Enabled(s, Copy)
    ensures var s' := CopyStep(s); DisksOk(s') && Fresh(s')
  {
    var s' := CopyStep(s);
    var r := s.round.value;
    var w := r.p.(reply := r.position == 0);
    var n := |s.ring| - 1;
    forall i | 0 <= i < |s'.ring|
      ensures DiskShape(s'.ring[i], s.total) && s'.ring[i].id < s.nextDisk && LogOk(s'.ring[i])
      ensures DiskContents(s'.ring[i], Told(s', i), Unsure(s', i), s.total)
    {
      CopyMoves(s, i);
      if i == n {
        PushShape(s.ring[0], w, s.total);
        PushWriteContents(s.ring[0], w, r.before, s.stale, s.total);
        PushLog(s.ring[0], w);
      }
    }
    forall i, j, q | 0 <= i < |s'.ring| && 0 <= j < |s'.ring| && InHands(s'.ring[i], q) && q.kind.Read?
      ensures FreshFor(q, s'.ring[j], Told(s', j), Unsure(s', j), s.total)
    {
      CopyMoves(s, i);
      CopyMoves(s, j);
      assert InHands(s.ring[if i < n then i + 1 else 0], q);
      CopyFresh(s, if i < n then i + 1 else 0, j, q);
    }
  }

  lemma CopyFresh(s: State, i: nat, j: nat, q: Petition)
    requires Skeleton(s) && Fresh(s) && Enabled(s, Copy)
    requires i < |s.ring| && j < |s.ring| && InHands(s.ring[i], q) && q.kind.Read?
    ensures var s' := CopyStep(s);
            |s'.ring| == |s.ring| && FreshFor(q, s'.ring[j], Told(s', j), Unsure(s', j), s.total)
  {
    CopyMoves(s, j);
    var j' := if j < |s.ring| - 1 then j + 1 else 0;
    assert FreshFor(q, s.ring[j'], Told(s, j'), Unsure(s, j'), s.total);
    if j' == 0 {
      WriteTaints(s.ring[0], s.round.value.p.(reply := s.round.value.position == 0), q.sector);
    }
  }

  /** The round ends: its sector is right on every disk, or no longer claimed of any. */
  lemma EndRing(s: State)
    requires Skeleton(s) && DisksOk(s) && Fresh(s) && Enabled(s, EndRound)
    ensures var s' := EndStep(s); DisksOk(s') && Fresh(s')
  {
    var s' := EndStep(s);
    forall i | 0 <= i < |s'.ring|
      ensures DiskContents(s'.ring[i], Told(s', i), Unsure(s', i), s.total)
      ensures forall p: Petition :: FreshFor(p, s.ring[i], Told(s, i), Unsure(s, i), s.total) ==>
                FreshFor(p, s.ring[i], Told(s', i), Unsure(s', i), s.total)
    {
      EndTells(s, i);
      assert DiskContents(s.ring[i], Told(s, i), Unsure(s, i), s.total);
    }
  }

  lemma EndTells(s: State, i: nat)
    requires Skeleton(s) && Enabled(s, EndRound) && i < |s.ring|
    ensures var s' := EndStep(s);
            && Unsure(s, i) <= Unsure(s', i)
            && forall sector: nat :: sector !in Unsure(s', i) ==>
              Lookup(Told(s', i), sector) == Lookup(Told(s, i), sector)
  {
  }

  lemma WriteTaints(d: Disk, p: Petition, sector: nat)
    requires p.kind.Write? && p.fd >= 0
    ensures Tainted(d.(queue := d.queue + [p]), sector) == (Tainted(d, sector) || sector == p.sector)
  {
    var e := d.(queue := d.queue + [p]);
    assert e.queue[|d.queue|] == p;
    assert forall i :: 0 <= i < |d.queue| ==> e.queue[i] == d.queue[i];
  }

  /** One disk changes its work, and keeps hold of no more petitions and of its taints. */
  lemma OneDiskFresh(s: State, k: nat, e: Disk)
    requires Fresh(s) && k < |s.ring| && e.id == s.ring[k].id
    requires forall p :: InHands(e, p) && p.kind.Read? ==> InHands(s.ring[k], p) || RightForAll(s, p)
    requires e.state.Sync? ==>
             s.ring[k].state.Sync? && forall sector :: Tainted(s.ring[k], sector) == Tainted(e, sector)
    ensures Fresh(s.(ring := s.ring[k := e]))
  {
    var ring := s.ring[k := e];
    forall i, j, p | 0 <= i < |ring| && 0 <= j < |ring| && InHands(ring[i], p) && p.kind.Read?
      ensures FreshFor(p, ring[j], Told(s, j), Unsure(s, j), s.total)
    {
      if InHands(s.ring[i], p) {
        assert FreshFor(p, s.ring[j], Told(s, j), Unsure(s, j), s.total);
      } else {
        assert RightForAll(s, p);
      }
    }
  }

  /** Outside a round: what a read will fetch is what all disks have been told. */
  predicate RightForAll(s: State, p: Petition) {
    s.round.None? && (p.sector < s.total && p.sector !in s.stale ==> p.wanted == Lookup(s.logical, p.sector))
  }

  lemma SendRing(s: State, k: nat)
    requires DisksOk(s) && Fresh(s) && Enabled(s, Send(k)) && (s.ring[k].state.Sync? ==> NoOther(s.ring[k]))
    ensures var s' := Apply(s, Send(k)); DisksOk(s') && Fresh(s')
  {
    var d := s.ring[k];
    assert Belongs(d.queue[0], d);
    forall p | p in d.wire
      ensures p in d.sent
    {
      FlowInSent(d, p);
    }
    SendShape(d, s.total);
    SendContents(d, Told(s, k), Unsure(s, k), s.total);
    SendLog(d);
    if d.state.Sync? {
      forall sector
        ensures Tainted(SendOne(d), sector) == Tainted(d, sector)
      {
        SendTaint(d, sector);
      }
    }
    OneDiskFresh(s, k, SendOne(d));
  }

  lemma ServeRing(s: State, k: nat, i: nat)
    requires DisksOk(s) && Fresh(s) && Enabled(s, Serve(k, i))
    ensures var s' := Apply(s, Serve(k, i)); DisksOk(s') && Fresh(s')
  {
    var d := s.ring[k];
    ServeShape(d, i, Told(s, k), Unsure(s, k), s.total);
    ServeContents(d, i, Told(s, k), Unsure(s, k), s.total);
    OneDiskFresh(s, k, ServeOne(d, i));
  }

  /** The receiving disk does its bookkeeping; the accounts after the step say what a finished
      synchronisation has left. */
  lemma SettledRing(s: State, k: nat)
    requires DisksOk(s) && Fresh(s) && Enabled(s, Receive(k))
    requires Promotes(s.ring[k], s.total) ==>
               NoSyncLeft(Settled(s.ring[k], s.total)) &&
               forall sector: nat :: sector < s.total ==> sector in Settled(s.ring[k], s.total).completed
    ensures var s' := s.(ring := RingSettled(s, k)); DisksOk(s') && Fresh(s')
  {
    SettledDisk(s, k);
    var s1 := s.(ring := s.ring[k := Settled(s.ring[k], s.total)]);
    SameWorkRing(s1, s.(ring := RingSettled(s, k)), Places(|s.ring|));
  }

  lemma SettledDisk(s: State, k: nat)
    requires DisksOk(s) && Fresh(s) && Enabled(s, Receive(k))
    requires Promotes(s.ring[k], s.total) ==>
               NoSyncLeft(Settled(s.ring[k], s.total)) &&
               forall sector: nat :: sector < s.total ==> sector in Settled(s.ring[k], s.total).completed
    ensures var s1 := s.(ring := s.ring[k := Settled(s.ring[k], s.total)]); DisksOk(s1) && Fresh(s1)
  {
    var d := s.ring[k];
    var e := Settled(d, s.total);
    SettledShape(d, s.total);
    SettledContents(d, Told(s, k), Unsure(s, k), s.total);
    assert LogOk(e);
    forall p | InHands(e, p)
      ensures InHands(d, p)
    {
    }
    OneDiskFresh(s, k, e);
  }

  /** The sync write made from a sync read reaches the queue of its disk. */
  lemma PushSyncRing(s: State, p: Petition)
    requires DisksOk(s) && Fresh(s)
    requires p.fd == -1 && p.kind.Write? && !p.toSync && !p.reply
    requires forall i :: 0 <= i < |s.ring| && s.ring[i].id == p.owner ==>
               && s.ring[i].state.Sync?
               && (p.sector < s.total && p.sector !in Unsure(s, i) && !Tainted(s.ring[i], p.sector) ==>
                     p.data == Lookup(Told(s, i), p.sector))
    ensures var s' := s.(ring := PushSyncWrite(s.ring, p)); DisksOk(s') && Fresh(s')
  {
    var s' := s.(ring := PushSyncWrite(s.ring, p));
    forall i | 0 <= i < |s'.ring|
      ensures DiskShape(s'.ring[i], s.total) && LogOk(s'.ring[i])
      ensures DiskContents(s'.ring[i], Told(s, i), Unsure(s, i), s.total)
      ensures forall sector :: Tainted(s.ring[i], sector) ==> Tainted(s'.ring[i], sector)
    {
      if s.ring[i].id == p.owner {
        PushShape(s.ring[i], p, s.total);
        PushSyncContents(s.ring[i], p, Told(s, i), Unsure(s, i), s.total);
        PushLog(s.ring[i], p);
        forall sector: nat { WrittenConcat(s.ring[i].queue, [p], sector); }
      }
    }
    forall i, j, q | 0 <= i < |s'.ring| && 0 <= j < |s'.ring| && InHands(s'.ring[i], q) && q.kind.Read?
      ensures FreshFor(q, s'.ring[j], Told(s, j), Unsure(s, j), s.total)
    {
      assert InHands(s.ring[i], q);
      assert FreshFor(q, s.ring[j], Told(s, j), Unsure(s, j), s.total);
    }
  }

  /** A disk with nothing in hand joins; no petition is for it yet. */
  lemma AppendRing(s: State, d: Disk)
    requires DisksOk(s) && Fresh(s) && s.round.None? && d.id >= s.nextDisk
    requires DiskShape(d, s.total) && DiskContents(d, s.logical, s.stale, s.total) && LogOk(d)
    requires d.queue == [] && d.sent == []
    requires forall i, p :: 0 <= i < |s.ring| && InHands(s.ring[i], p) ==> !Matches(p, OwnerKey(d.id))
    ensures var s' := s.(ring := s.ring + [d], nextDisk := d.id + 1); DisksOk(s') && Fresh(s')
  {
    var ring := s.ring + [d];
    forall i, j, p | 0 <= i < |ring| && 0 <= j < |ring| && InHands(ring[i], p)
      ensures FreshFor(p, ring[j], s.logical, s.stale, s.total)
    {
      assert InHands(s.ring[i], p);
      if j < |s.ring| {
        assert FreshFor(p, s.ring[j], s.logical, s.stale, s.total);
      } else {
        assert !Matches(p, OwnerKey(d.id));
      }
    }
  }

  /** The ring as the new disk finds it. */
  function Rejoined(s: State, content: map<nat, Data>): State {
    s.(ring := ResetReads(s.ring), logical := if s.ring == [] then content else s.logical)
  }

  lemma RejoinedRing(s: State, content: map<nat, Data>)
    requires DisksOk(s) && Fresh(s) && s.round.None?
    ensures var s1 := Rejoined(s, content); DisksOk(s1) && Fresh(s1)
  {
    var logical := if s.ring == [] then content else s.logical;
    SameWorkRing(s.(logical := logical), Rejoined(s, content), Places(|s.ring|));
  }

  lemma NoneForNewDisk(s: State, content: map<nat, Data>, i: nat, p: Petition)
    requires Laws(s) && i < |Rejoined(s, content).ring| && InHands(Rejoined(s, content).ring[i], p)
    ensures !Matches(p, OwnerKey(s.nextDisk))
  {
    assert InHands(s.ring[i], p);
    if Matches(p, OwnerKey(s.nextDisk)) { OwedAtLeast(s, i, p, OwnerKey(s.nextDisk)); }
  }

  lemma JoinRing(s: State, content: map<nat, Data>)
    requires DisksOk(s) && Fresh(s) && Laws(s) && s.round.None?
    ensures var s' := JoinStep(s, content); DisksOk(s') && Fresh(s')
  {
    var d := NewDisk(s.nextDisk, if s.ring == [] then Ok else Sync, content);
    var s1 := Rejoined(s, content);
    NewDiskOk(d.id, d.state, content, s1.logical, s.stale, s.total);
    RejoinedRing(s, content);
    forall i, p | 0 <= i < |s1.ring| && InHands(s1.ring[i], p)
      ensures !Matches(p, OwnerKey(d.id))
    {
      NoneForNewDisk(s, content, i, p);
    }
    AppendRing(s1, d);
  }

  lemma NewDiskOk(id: nat, state: DiskState, content: map<nat, Data>, logical: map<nat, Data>, stale: set<nat>,
                  total: nat)
    requires state.Ok? ==> logical == content
    ensures var d := NewDisk(id, state, content);
            DiskShape(d, total) && DiskContents(d, logical, stale, total) && LogOk(d)
  {
    var d := NewDisk(id, state, content);
    assert Flow(d) == [] && Ahead(d) == [];
    forall sector: nat
      ensures Mirrored(d, sector, Lookup(logical, sector))
    {
    }
  }

  // ---- order and membership

  lemma SomeOkAt(ring: seq<Disk>, i: nat)
    requires i < |ring| && ring[i].state.Ok?
    ensures SomeOk(ring)
  {
  }

  lemma SkeletonDispatchRead(s: State)
    requires Skeleton(s) && s.general != [] && s.round.None? && SomeOk(s.ring)
    ensures Skeleton(DispatchRead(s))
  {
    DistinctRead(s);
    SomeOkAt(DispatchRead(s).ring, |s.ring| - 1);
  }

  lemma DistinctMoved(ring: seq<Disk>, k: nat, d: Disk)
    requires Distinct(ring) && k < |ring| && d.id == ring[k].id
    ensures Distinct(Without(ring, k) + [d])
  {
    var moved := Without(ring, k) + [d];
    assert forall i :: 0 <= i < |ring| ==> moved[i].id == ring[Rotation(|ring|, k)[i]].id;
  }

  lemma DistinctRead(s: State)
    requires Distinct(s.ring) && s.general != [] && SomeOk(s.ring)
    ensures var ring := DispatchRead(s).ring;
            |ring| == |s.ring| > 0 && Distinct(ring) && ring[|ring| - 1].state.Ok?
  {
    FirstOkExists(s.ring);
    var k := FirstOk(s.ring);
    DistinctMoved(s.ring, k, PushRead(s.ring[k], s.general[0]));
  }

  /** Steps that neither add nor remove nor demote a disk. */
  lemma SkeletonKept(s: State, s': State)
    requires Skeleton(s) && s'.running == s.running && |s'.ring| == |s.ring|
    requires s'.round == s.round && s'.logical == s.logical
    requires forall p :: p in s'.general || p in s'.orphans ==> MayWait(p)
    requires forall i :: 0 <= i < |s.ring| ==> s'.ring[i].id == s.ring[i].id
    requires forall i :: 0 <= i < |s.ring| && s.ring[i].state.Ok? ==> s'.ring[i].state.Ok?
    ensures Skeleton(s')
  {
    if s.running && s.ring != [] {
      var i :| 0 <= i < |s.ring| && s.ring[i].state.Ok?;
      SomeOkAt(s'.ring, i);
    }
  }

  lemma OneDiskKept(s: State, k: nat, e: Disk)
    requires Skeleton(s) && RoundRobin(s) && k < |s.ring|
    requires e.id == s.ring[k].id && e.state == s.ring[k].state && e.readCount == s.ring[k].readCount
    ensures var s' := s.(ring := s.ring[k := e]); Skeleton(s') && RoundRobin(s')
  {
    SkeletonKept(s, s.(ring := s.ring[k := e]));
    RoundRobinKept(s, s.(ring := s.ring[k := e]));
  }

  lemma SkeletonJoin(s: State, content: map<nat, Data>)
    requires Skeleton(s) && Enabled(s, Join(content))
    requires forall i :: 0 <= i < |s.ring| ==> s.ring[i].id < s.nextDisk
    ensures Skeleton(Apply(s, Join(content)))
  {
    var s' := Apply(s, Join(content));
    if s.ring == [] {
      SomeOkAt(s'.ring, 0);
    } else {
      var i :| 0 <= i < |s.ring| && s.ring[i].state.Ok?;
      SomeOkAt(s'.ring, i);
    }
  }

  lemma DieMayWait(s: State, k: nat, p: Petition)
    requires Skeleton(s) && k < |s.ring| && p in s.orphans + Requeued(s.ring[k])
    requires forall q :: InHands(s.ring[k], q) ==> Belongs(q, s.ring[k])
    ensures MayWait(p)
  {
    ReplyingMembers(s.ring[k].sent + s.ring[k].queue, p);
    assert p in s.orphans || (InHands(s.ring[k], p) && p.reply);
  }

  lemma DieDistinct(s: State, k: nat)
    requires Distinct(s.ring) && k < |s.ring| && SomeOk(Without(s.ring, k))
    ensures Distinct(ResetReads(Without(s.ring, k))) && SomeOk(ResetReads(Without(s.ring, k)))
  {
    var rest := Without(s.ring, k);
    assert forall i :: 0 <= i < |rest| ==> rest[i] == s.ring[if i < k then i else i + 1];
    var i :| 0 <= i < |rest| && rest[i].state.Ok?;
    SomeOkAt(ResetReads(rest), i);
  }

  lemma SkeletonDie(s: State, k: nat)
    requires Skeleton(s) && Enabled(s, Die(k))
    requires forall p :: InHands(s.ring[k], p) ==> Belongs(p, s.ring[k])
    ensures Skeleton(Apply(s, Die(k)))
  {
    var s' := Apply(s, Die(k));
    if s'.running {
      forall p | p in s'.orphans
        ensures MayWait(p)
      {
        DieMayWait(s, k, p);
      }
      DieDistinct(s, k);
    }
  }

  lemma SkeletonCopy(s: State)
    requires Skeleton(s) && Enabled(s, Copy)
    ensures Skeleton(CopyStep(s))
  {
    var s' := CopyStep(s);
    forall i, j | 0 <= i < j < |s'.ring|
      ensures s'.ring[i].id != s'.ring[j].id
    {
      CopyMoves(s, i);
      CopyMoves(s, j);
    }
    if s.running {
      var i :| 0 <= i < |s.ring| && s.ring[i].state.Ok?;
      var j := if i == 0 then |s.ring| - 1 else i - 1;
      CopyMoves(s, j);
      SomeOkAt(s'.ring, j);
    }
  }

  lemma SkeletonRequeue(s: State, i: nat)
    requires Skeleton(s) && Enabled(s, Requeue(i))
    ensures Skeleton(RequeueStep(s, i))
  {
    var s' := RequeueStep(s, i);
    forall p | p in s'.general || p in s'.orphans
      ensures MayWait(p)
    {
      assert p in s.general || p in s.orphans;
    }
  }

  lemma ReadPlace(s: State, i: nat)
    requires s.general != [] && SomeOk(s.ring) && i < |s.ring|
    ensures var k := FirstOk(s.ring);
            && k < |s.ring| == |DispatchRead(s).ring|
            && DispatchRead(s).ring[i] == if i == |s.ring| - 1 then PushRead(s.ring[k], s.general[0])
                                          else s.ring[if i < k then i else i + 1]
  {
    FirstOkExists(s.ring);
  }

  /** The order of two reads served, before the dispatch. */
  lemma OrderBefore(s: State, i: nat, j: nat)
    requires RoundRobin(s) && s.round.None? && i < j < |s.ring| && s.ring[i].state.Ok? && s.ring[j].state.Ok?
    ensures s.ring[i].readCount <= s.ring[j].readCount <= s.ring[i].readCount + 1
  {
    assert Turn(s, i) < Turn(s, j);
  }

  /** Of two up-to-date disks the one before the other has served no more reads, and at most one
      fewer. */
  lemma ReadOrder(s: State, i: nat, j: nat)
    requires RoundRobin(s) && s.general != [] && s.round.None? && SomeOk(s.ring) && i < j < |s.ring|
    requires DispatchRead(s).ring[i].state.Ok? && DispatchRead(s).ring[j].state.Ok?
    ensures var ring := DispatchRead(s).ring; ring[i].readCount <= ring[j].readCount <= ring[i].readCount + 1
  {
    var k := FirstOk(s.ring);
    ReadPlace(s, i);
    ReadPlace(s, j);
    var a, b := DispatchRead(s).ring[i], DispatchRead(s).ring[j];
    assert i >= k && a == s.ring[i + 1];
    OrderBefore(s, k, i + 1);
    if j < |s.ring| - 1 {
      assert b == s.ring[j + 1];
      OrderBefore(s, i + 1, j + 1);
    } else {
      assert b.readCount == s.ring[k].readCount + 1;
    }
  }

  lemma RoundRobinRead(s: State)
    requires RoundRobin(s) && s.general != [] && s.round.None? && SomeOk(s.ring)
    ensures RoundRobin(DispatchRead(s))
  {
    var ring := DispatchRead(s).ring;
    FirstOkExists(s.ring);
    forall i, j | 0 <= i < j < |ring| && ring[i].state.Ok? && ring[j].state.Ok?
      ensures ring[i].readCount <= ring[j].readCount <= ring[i].readCount + 1
    {
      ReadOrder(s, i, j);
    }
  }

  /** Turning the ring changes no one's turn. */
  lemma RoundRobinCopy(s: State)
    requires Skeleton(s) && RoundRobin(s) && Enabled(s, Copy)
    ensures RoundRobin(CopyStep(s))
  {
    var s' := CopyStep(s);
    forall i | 0 <= i < |s'.ring|
      ensures var j := if i < |s.ring| - 1 then i + 1 else 0;
              && s'.ring[i].readCount == s.ring[j].readCount && s'.ring[i].state == s.ring[j].state
              && (s.round.value.position <= |s.ring| ==> Turn(s', i) == Turn(s, j))
    {
      CopyMoves(s, i);
    }
  }

  /** Steps that leave each disk in its place. */
  lemma RoundRobinKept(s: State, s': State)
    requires RoundRobin(s) && |s'.ring| == |s.ring| && s'.round == s.round
    requires forall i :: 0 <= i < |s.ring| ==>
               s'.ring[i].readCount == s.ring[i].readCount && s'.ring[i].state == s.ring[i].state
    ensures RoundRobin(s')
  {
    assert forall i :: 0 <= i < |s.ring| ==> Turn(s', i) == Turn(s, i);
  }

  lemma RoundRobinReceive(s: State, k: nat)
    requires RoundRobin(s) && Enabled(s, Receive(k))
    ensures RoundRobin(Apply(s, Receive(k)))
  {
    var s' := Apply(s, Receive(k));
    if Promotes(s.ring[k], s.total) {
      assert forall i :: 0 <= i < |s'.ring| ==> s'.ring[i].readCount == 0;
    } else {
      RoundRobinKept(s, s');
    }
  }

  // ---- the steps

  lemma InvDispatch(s: State)
    requires Inv(s) && Enabled(s, Dispatch)
    ensures Inv(Apply(s, Dispatch))
  {
    assert MayWait(s.general[0]);
    LawsDispatch(s, Dispatch);
    if s.general[0].kind.Read? {
      DispatchReadRing(s);
      SkeletonDispatchRead(s);
      RoundRobinRead(s);
    } else {
      DispatchWriteRing(s);
      RoundRobinBegins(s);
    }
  }

  lemma RoundRobinBegins(s: State)
    requires RoundRobin(s) && s.general != [] && s.round.None?
    ensures RoundRobin(DispatchWrite(s))
  {
    assert forall i :: 0 <= i < |s.ring| ==> Turn(DispatchWrite(s), i) == Turn(s, i);
  }

  lemma InvCopy(s: State)
    requires Inv(s) && Enabled(s, Copy)
    ensures Inv(Apply(s, Copy))
  {
    LawsDispatch(s, Copy);
    CopyRing(s);
    SkeletonCopy(s);
    RoundRobinCopy(s);
  }

  lemma InvEndRound(s: State)
    requires Inv(s) && Enabled(s, EndRound)
    ensures Inv(Apply(s, EndRound))
  {
    LawsEndRound(s);
    EndRing(s);
    if !NoneRead(s.ring) {
      assert forall i :: 0 <= i < |s.ring| ==> Turn(EndStep(s), i) == Turn(s, i);
    }
  }

  lemma InvRequeue(s: State, i: nat)
    requires Inv(s) && Enabled(s, Requeue(i))
    ensures Inv(Apply(s, Requeue(i)))
  {
    LawsRequeue(s, i);
    SkeletonRequeue(s, i);
    SameRing(s, RequeueStep(s, i));
    RoundRobinKept(s, RequeueStep(s, i));
  }

  lemma InvSubmit(s: State, step: Step)
    requires Inv(s) && step.Submit? && Enabled(s, step)
    ensures Inv(Apply(s, step))
  {
    LawsSubmit(s, step);
    SkeletonKept(s, Apply(s, step));
    SameWorkRing(s, Apply(s, step), Places(|s.ring|));
    RoundRobinKept(s, Apply(s, step));
  }

  lemma InvIssue(s: State, k: nat)
    requires Inv(s) && Enabled(s, IssueSync(k))
    ensures Inv(Apply(s, IssueSync(k)))
  {
    LawsIssue(s, k);
    SkeletonIssue(s, k);
    IssueRing(s, k);
  }

  lemma SkeletonIssue(s: State, k: nat)
    requires Skeleton(s) && Enabled(s, IssueSync(k))
    ensures Skeleton(IssueStep(s, k))
  {
    SkeletonKept(s, IssueStep(s, k));
  }

  lemma IssueRing(s: State, k: nat)
    requires DisksOk(s) && Fresh(s) && RoundRobin(s) && Enabled(s, IssueSync(k))
    ensures var s' := IssueStep(s, k); DisksOk(s') && Fresh(s') && RoundRobin(s')
  {
    SameWorkRing(s, IssueStep(s, k), Places(|s.ring|));
    RoundRobinKept(s, IssueStep(s, k));
  }

  lemma InvSend(s: State, k: nat)
    requires Inv(s) && Enabled(s, Send(k))
    ensures Inv(Apply(s, Send(k)))
  {
    assert Belongs(s.ring[k].queue[0], s.ring[k]);
    LawsSend(s, k);
    OneDiskKept(s, k, SendOne(s.ring[k]));
    assert DiskShape(s.ring[k], s.total);
    OneSyncWrite(s, k);
    SendRing(s, k);
  }

  lemma InvServe(s: State, k: nat, i: nat)
    requires Inv(s) && Enabled(s, Serve(k, i))
    ensures Inv(Apply(s, Serve(k, i)))
  {
    LawsServe(s, k, i);
    OneDiskKept(s, k, ServeOne(s.ring[k], i));
    ServeRing(s, k, i);
  }

  lemma InvJoin(s: State, content: map<nat, Data>)
    requires Inv(s) && Enabled(s, Join(content))
    ensures Inv(Apply(s, Join(content)))
  {
    LawsJoin(s, content);
    SkeletonJoin(s, content);
    assert NoneRead(JoinStep(s, content).ring);
    JoinRing(s, content);
  }

  lemma InvDie(s: State, k: nat)
    requires Inv(s) && Enabled(s, Die(k))
    ensures Inv(Apply(s, Die(k)))
  {
    var s' := Apply(s, Die(k));
    assert DiskShape(s.ring[k], s.total);
    LawsDie(s, k);
    SkeletonDie(s, k);
    DieRing(s, k);
  }

  lemma DieRing(s: State, k: nat)
    requires DisksOk(s) && Fresh(s) && RoundRobin(s) && Enabled(s, Die(k))
    ensures var s' := Apply(s, Die(k)); DisksOk(s') && Fresh(s') && RoundRobin(s')
  {
    var s' := Apply(s, Die(k));
    if s'.running {
      SurvivorsKeep(s, k);
      SameWorkRing(s, s', Survivors(|s.ring|, k));
    }
  }

  function Survivors(n: nat, k: nat): (r: seq<nat>)
    requires k < n
    ensures |r| == n - 1 && forall i :: 0 <= i < n - 1 ==> r[i] == if i < k then i else i + 1
  {
    seq(n - 1, i requires 0 <= i < n - 1 => if i < k then i else i + 1)
  }

  lemma SurvivorsKeep(s: State, k: nat)
    requires Enabled(s, Die(k)) && Apply(s, Die(k)).running
    ensures var s' := Apply(s, Die(k));
            && |s'.ring| == |s.ring| - 1 && s'.total == s.total && s'.nextDisk == s.nextDisk && NoneRead(s'.ring)
            && forall i :: 0 <= i < |s.ring| - 1 ==> KeepsWork(s, Survivors(|s.ring|, k)[i], s', i)
  {
    forall i | 0 <= i < |s.ring| - 1
      ensures KeepsWork(s, Survivors(|s.ring|, k)[i], Apply(s, Die(k)), i)
    {
      DieKeeps(s, k, i);
    }
  }

  /** Those left still lack their copy, or have it. */
  lemma DieKeeps(s: State, k: nat, i: nat)
    requires Enabled(s, Die(k)) && Apply(s, Die(k)).running && i < |s.ring| - 1
    ensures var s' := Apply(s, Die(k));
            |s'.ring| == |s.ring| - 1 && KeepsWork(s, if i < k then i else i + 1, s', i)
  {
  }

  // ---- receiving

  /** When the last sector is done, all are, and nothing of the synchronisation is left. */
  lemma PromotionComplete(s: State, k: nat)
    requires Laws(s) && Enabled(s, Receive(k)) && Promotes(s.ring[k], s.total)
    requires Laws(Apply(s, Receive(k)))
    requires forall p :: InHands(s.ring[k], p) ==> Belongs(p, s.ring[k])
    ensures NoSyncLeft(Settled(s.ring[k], s.total))
    ensures forall sector: nat :: sector < s.total ==> sector in Settled(s.ring[k], s.total).completed
  {
    var s' := Apply(s, Receive(k));
    var e := Settled(s.ring[k], s.total);
    ReceiveBooks(s, k, k);
    assert TotalLaw(s', s'.ring[k]);
    forall sector: nat
      ensures sector in e.completed ==> sector < s.total
    {
      assert SectorLaw(s', s'.ring[k], sector);
    }
    AllBelow(e.completed, s.total);
    forall p | InHands(e, p)
      ensures p.fd != -1
    {
      assert InHands(s.ring[k], p) && InHands(s'.ring[k], p);
      if p.fd == -1 { OwedAtLeast(s', k, p, OwnerKey(e.id)); }
    }
  }

  lemma {:induction false} AllBelow(all: set<nat>, n: nat)
    requires |all| == n && forall x :: x in all ==> x < n
    ensures forall x: nat :: x < n ==> x in all
  {
    if n > 0 {
      if n - 1 in all {
        AllBelow(all - {n - 1}, n - 1);
      } else {
        SmallSets(all, n - 1);
      }
    }
  }

  lemma ReceiveRing(s: State, k: nat)
    requires Laws(s) && DisksOk(s) && Fresh(s) && Enabled(s, Receive(k))
    requires Laws(Apply(s, Receive(k)))
    ensures DisksOk(Apply(s, Receive(k))) && Fresh(Apply(s, Receive(k)))
  {
    assert DiskShape(s.ring[k], s.total);
    if Promotes(s.ring[k], s.total) { PromotionComplete(s, k); }
    SettledRing(s, k);
    if Matched(s.ring[k]).toSync { ReceiveSyncRead(s, k); } else { ReceiveOther(s, k); }
  }

  lemma ReceiveOther(s: State, k: nat)
    requires Enabled(s, Receive(k)) && !Matched(s.ring[k]).toSync
    requires var s1 := s.(ring := RingSettled(s, k)); DisksOk(s1) && Fresh(s1)
    ensures DisksOk(Apply(s, Receive(k))) && Fresh(Apply(s, Receive(k)))
  {
    SameRing(s.(ring := RingSettled(s, k)), Apply(s, Receive(k)));
  }

  lemma SameRing(s: State, s': State)
    requires DisksOk(s) && Fresh(s) && s' == s.(general := s'.general, orphans := s'.orphans, replied := s'.replied)
    ensures DisksOk(s') && Fresh(s')
  {
    assert forall i :: Told(s', i) == Told(s, i) && Unsure(s', i) == Unsure(s, i);
  }

  lemma ReceiveKeepsDisks(s: State, k: nat)
    requires Enabled(s, Receive(k))
    ensures var s' := Apply(s, Receive(k));
            && s'.running == s.running && |s'.ring| == |s.ring|
            && forall i :: 0 <= i < |s.ring| ==>
                 s'.ring[i].id == s.ring[i].id && (s.ring[i].state.Ok? ==> s'.ring[i].state.Ok?)
  {
  }

  lemma SkeletonReceive(s: State, k: nat)
    requires Skeleton(s) && Enabled(s, Receive(k))
    ensures Skeleton(Apply(s, Receive(k)))
  {
    ReceiveKeepsDisks(s, k);
    assert forall p :: p in Apply(s, Receive(k)).general ==> MayWait(p);
    SkeletonKept(s, Apply(s, Receive(k)));
  }

  lemma InvReceive(s: State, k: nat)
    requires Inv(s) && Enabled(s, Receive(k))
    ensures Inv(Apply(s, Receive(k)))
  {
    assert Belongs(Matched(s.ring[k]), s.ring[k]);
    LawsReceive(s, k);
    SkeletonReceive(s, k);
    RoundRobinReceive(s, k);
    ReceiveRing(s, k);
  }

  lemma ReceiveSyncRead(s: State, k: nat)
    requires Laws(s) && DisksOk(s) && Fresh(s) && Enabled(s, Receive(k)) && Matched(s.ring[k]).toSync
    requires var s1 := s.(ring := RingSettled(s, k)); DisksOk(s1) && Fresh(s1)
    ensures DisksOk(Apply(s, Receive(k))) && Fresh(Apply(s, Receive(k)))
  {
    var d := s.ring[k];
    var p := Matched(d);
    assert Belongs(p, d) && InHands(d, p);
    MatchIsExact(d, s.total);
    assert Truthful(d.resp[0], s.total);
    OwedAtLeast(s, k, p, SectorKey(p.owner, p.sector));
    forall i | 0 <= i < |s.ring| && s.ring[i].id == p.owner
      ensures s.ring[i].state.Sync? && i != k
      ensures p.sector < s.total && p.sector !in Unsure(s, i) && !Tainted(s.ring[i], p.sector) ==>
                d.resp[0].data == Lookup(Told(s, i), p.sector)
    {
      OwedAtLeast(s, k, p, OwnerKey(p.owner));
      assert SectorLaw(s, s.ring[i], p.sector);
      assert FreshFor(p, s.ring[i], Told(s, i), Unsure(s, i), s.total);
    }
    PushSyncRing(s.(ring := RingSettled(s, k)),
                 SyncWriteFor(p, d.resp[0].data));
  }

  lemma InvStep(s: State, step: Step)
    requires Inv(s) && Enabled(s, step)
    ensures Inv(Apply(s, step))
  {
    match step
    case Submit(_, _, _, _) => InvSubmit(s, step);
    case Dispatch => InvDispatch(s);
    case Copy => InvCopy(s);
    case EndRound => InvEndRound(s);
    case Requeue(i) => InvRequeue(s, i);
    case IssueSync(k) => InvIssue(s, k);
    case Send(k) => InvSend(s, k);
    case Serve(k, i) => InvServe(s, k, i);
    case Receive(k) => InvReceive(s, k);
    case Join(content) => InvJoin(s, content);
    case Die(k) => InvDie(s, k);
  }

  lemma InvNext(s: State, step: Step)
    requires Inv(s)
    ensures Inv(Next(s, step)) && Next(s, step).total == s.total
  {
    if Enabled(s, step) {
      InvStep(s, step);
      TotalKept(s, step);
    }
  }

  lemma TotalKept(s: State, step: Step)
    requires Enabled(s, step)
    ensures Apply(s, step).total == s.total
  {
  }

  lemma {:induction false} InvRun(s: State, steps: seq<Step>)
    requires Inv(s)
    ensures Inv(Run(s, steps)) && Run(s, steps).total == s.total
    decreases steps
  {
    if steps != [] {
      InvNext(s, steps[0]);
      InvRun(Next(s, steps[0]), steps[1..]);
      assert Run(s, steps) == Run(Next(s, steps[0]), steps[1..]);
    }
  }

  /** Every state of every run satisfies the invariant. */
  lemma InvAlways(total: nat, steps: seq<Step>)
    ensures Inv(After(total, steps)) && After(total, steps).total == total
  {
    InvRun(Init(total), steps);
  }
}
