/** Petitions, the unit of work of the RAID (`Info_PPD` in PRAID1/PRAID1.h), and the
    functions on petition sequences that the rest of the mirror is stated with. */
module Petitions {
  import opened Options

  type Data = seq<bv8>

  datatype Kind = Read | Write

  /** `fd` is -1 for the petitions of a synchronisation.  `owner` is the disk whose
      synchronisation the petition belongs to (`sync_PPD`) and `toSync` says that
      `sync_petitions_queue` is not NULL.  Two fields are history: `id` numbers the client
      petitions and `wanted` is what a read was to return when it was last dispatched; no step
      branches on either. */
  datatype Petition = Petition(
    fd: int, kind: Kind, sector: nat, data: Data, reply: bool,
    owner: nat, toSync: bool, id: nat, wanted: Data)

  predicate Hits(p: Petition, sector: nat, kind: Kind) {
    p.sector == sector && p.kind == kind
  }

  /** The petitions that a response about `sector` of type `kind` could answer, in order. */
  function Select(ps: seq<Petition>, sector: nat, kind: Kind): seq<Petition> {
    if ps == [] then []
    else (if Hits(ps[0], sector, kind) then [ps[0]] else []) + Select(ps[1..], sector, kind)
  }

  lemma {:induction false} SelectConcat(a: seq<Petition>, b: seq<Petition>, sector: nat, kind: Kind)
    ensures Select(a + b, sector, kind) == Select(a, sector, kind) + Select(b, sector, kind)
  {
    if a == [] {
      assert a + b == b;
    } else {
      var head := if Hits(a[0], sector, kind) then [a[0]] else [];
      assert (a + b)[1..] == a[1..] + b;
      SelectConcat(a[1..], b, sector, kind);
      assert Select(a + b, sector, kind) == head + (Select(a[1..], sector, kind) + Select(b, sector, kind));
    }
  }

  lemma {:induction false} SelectMember(ps: seq<Petition>, p: Petition)
    ensures p in ps <==> p in Select(ps, p.sector, p.kind)
  {
    if ps != [] {
      assert p in ps <==> p == ps[0] || p in ps[1..];
      SelectMember(ps[1..], p);
    }
  }

  /** Position of the first petition that a response matches, |ps| when there is none. */
  function FirstMatch(ps: seq<Petition>, sector: nat, kind: Kind): (i: nat)
    ensures i <= |ps|
    ensures i < |ps| ==> Hits(ps[i], sector, kind)
    ensures forall j :: 0 <= j < i ==> !Hits(ps[j], sector, kind)
  {
    FirstIndex(ps, (p: Petition) => Hits(p, sector, kind))
  }

  /** Taking out the first match takes the head off its own selection and leaves the others. */
  lemma SelectWithoutFirst(ps: seq<Petition>, sector: nat, kind: Kind, sector': nat, kind': Kind)
    requires FirstMatch(ps, sector, kind) < |ps|
    ensures var i := FirstMatch(ps, sector, kind);
            Select(ps, sector', kind') ==
            (if Hits(ps[i], sector', kind') then [ps[i]] else []) + Select(Without(ps, i), sector', kind')
  {
    SelectExtract(ps, FirstMatch(ps, sector, kind), sector', kind');
  }

  /** An element that nothing of its own selection precedes can be moved to the front. */
  lemma SelectExtract(ps: seq<Petition>, i: nat, sector: nat, kind: Kind)
    requires i < |ps|
    requires forall j :: 0 <= j < i ==> !Hits(ps[j], ps[i].sector, ps[i].kind)
    ensures Select(ps, sector, kind) ==
            (if Hits(ps[i], sector, kind) then [ps[i]] else []) + Select(Without(ps, i), sector, kind)
  {
    assert ps == ps[..i] + ([ps[i]] + ps[i + 1..]);
    SelectConcat(ps[..i], [ps[i]] + ps[i + 1..], sector, kind);
    SelectConcat([ps[i]], ps[i + 1..], sector, kind);
    SelectConcat(ps[..i], ps[i + 1..], sector, kind);
    if Hits(ps[i], sector, kind) {
      SelectNone(ps[..i], sector, kind);
    }
  }

  lemma {:induction false} SelectNone(ps: seq<Petition>, sector: nat, kind: Kind)
    requires forall j :: 0 <= j < |ps| ==> !Hits(ps[j], sector, kind)
    ensures Select(ps, sector, kind) == []
  {
    if ps != [] { SelectNone(ps[1..], sector, kind); }
  }

  predicate Lands(p: Petition, sector: nat, all: bool) {
    p.kind.Write? && p.sector == sector && (all || p.fd >= 0)
  }

  predicate WrittenByClient(ps: seq<Petition>, sector: nat) {
    exists i :: 0 <= i < |ps| && Lands(ps[i], sector, false)
  }

  lemma WrittenConcat(a: seq<Petition>, b: seq<Petition>, sector: nat)
    ensures WrittenByClient(a + b, sector) == (WrittenByClient(a, sector) || WrittenByClient(b, sector))
  {
    if i :| 0 <= i < |a| && Lands(a[i], sector, false) {
      assert Lands((a + b)[i], sector, false);
    }
    if i :| 0 <= i < |b| && Lands(b[i], sector, false) {
      assert Lands((a + b)[|a| + i], sector, false);
    }
  }

  /** What a sector that holds `base` will hold once the writes of `ps` have been applied in
      order; with `all` false the writes of a synchronisation are left out. */
  function Settle(base: Data, ps: seq<Petition>, sector: nat, all: bool): Data
    decreases ps
  {
    if ps == [] then base
    else Settle(if Lands(ps[0], sector, all) then ps[0].data else base, ps[1..], sector, all)
  }

  lemma {:induction false} SettleConcat(base: Data, a: seq<Petition>, b: seq<Petition>, sector: nat, all: bool)
    ensures Settle(base, a + b, sector, all) == Settle(Settle(base, a, sector, all), b, sector, all)
    decreases a
  {
    if a == [] {
      assert a + b == b;
    } else {
      assert (a + b)[1..] == a[1..] + b;
      SettleConcat(if Lands(a[0], sector, all) then a[0].data else base, a[1..], b, sector, all);
    }
  }

  lemma {:induction false} SettleUntouched(base: Data, ps: seq<Petition>, sector: nat, all: bool)
    requires forall j :: 0 <= j < |ps| ==> !Lands(ps[j], sector, all)
    ensures Settle(base, ps, sector, all) == base
  {
    if ps != [] { SettleUntouched(base, ps[1..], sector, all); }
  }

  /** Without pending writes of a synchronisation both readings of `Settle` agree. */
  lemma {:induction false} SettleSameWrites(base: Data, ps: seq<Petition>, sector: nat)
    requires forall j :: 0 <= j < |ps| ==> Lands(ps[j], sector, true) ==> ps[j].fd >= 0
    ensures Settle(base, ps, sector, false) == Settle(base, ps, sector, true)
    decreases ps
  {
    if ps != [] {
      SettleSameWrites(if Lands(ps[0], sector, true) then ps[0].data else base, ps[1..], sector);
    }
  }

  /** Serving petition `i` out of order does not change what the sector settles to, as long as
      nothing before it concerns the same sector. */
  lemma SettleServe(base: Data, ps: seq<Petition>, i: nat, sector: nat)
    requires i < |ps|
    requires forall j :: 0 <= j < i ==> ps[j].sector != ps[i].sector
    ensures Settle(if Lands(ps[i], sector, true) then ps[i].data else base, Without(ps, i), sector, true) ==
            Settle(base, ps, sector, true)
  {
    var p := ps[i];
    var base' := if Lands(p, sector, true) then p.data else base;
    assert ps == ps[..i] + ([p] + ps[i + 1..]);
    SettleConcat(base, ps[..i], [p] + ps[i + 1..], sector, true);
    SettleConcat(Settle(base, ps[..i], sector, true), [p], ps[i + 1..], sector, true);
    SettleConcat(base', ps[..i], ps[i + 1..], sector, true);
    if Lands(p, sector, true) {
      SettleUntouched(base', ps[..i], sector, true);
    }
  }

  /** What a petition is counted under: a client petition, one sector of one
      synchronisation, or a whole synchronisation. */
  datatype Key = ClientKey(id: nat) | SectorKey(owner: nat, sector: nat) | OwnerKey(owner: nat)

  predicate Matches(p: Petition, key: Key) {
    match key
    case ClientKey(id) => p.fd >= 0 && p.id == id
    case SectorKey(owner, sector) => p.fd == -1 && p.owner == owner && p.sector == sector
    case OwnerKey(owner) => p.fd == -1 && p.owner == owner
  }

  /** Whether losing the petition would lose something: on a disk, a NO_REPLY copy of a
      client write does not count. */
  predicate Counts(p: Petition, key: Key, all: bool) {
    Matches(p, key) && (all || p.reply || p.fd == -1)
  }

  function Count(ps: seq<Petition>, key: Key, all: bool): nat {
    if ps == [] then 0 else (if Counts(ps[0], key, all) then 1 else 0) + Count(ps[1..], key, all)
  }

  lemma {:induction false} CountConcat(a: seq<Petition>, b: seq<Petition>, key: Key, all: bool)
    ensures Count(a + b, key, all) == Count(a, key, all) + Count(b, key, all)
  {
    if a == [] {
      assert a + b == b;
    } else {
      assert (a + b)[1..] == a[1..] + b;
      CountConcat(a[1..], b, key, all);
    }
  }

  lemma CountWithout(ps: seq<Petition>, i: nat, key: Key, all: bool)
    requires i < |ps|
    ensures Count(ps, key, all) == Count(Without(ps, i), key, all) + (if Counts(ps[i], key, all) then 1 else 0)
  {
    assert ps == ps[..i] + ([ps[i]] + ps[i + 1..]);
    CountConcat(ps[..i], [ps[i]] + ps[i + 1..], key, all);
    CountConcat([ps[i]], ps[i + 1..], key, all);
    CountConcat(ps[..i], ps[i + 1..], key, all);
  }

  lemma CountMember(ps: seq<Petition>, p: Petition, key: Key, all: bool)
    requires p in ps && Counts(p, key, all)
    ensures Count(ps, key, all) >= 1
  {
    var i :| 0 <= i < |ps| && ps[i] == p;
    CountWithout(ps, i, key, all);
  }

  /** The petitions that must be answered, in order: what a disk fault puts back. */
  function Replying(ps: seq<Petition>): seq<Petition> {
    if ps == [] then [] else (if ps[0].reply then [ps[0]] else []) + Replying(ps[1..])
  }

  lemma {:induction false} ReplyingConcat(a: seq<Petition>, b: seq<Petition>)
    ensures Replying(a + b) == Replying(a) + Replying(b)
  {
    if a == [] {
      assert a + b == b;
    } else {
      assert (a + b)[1..] == a[1..] + b;
      ReplyingConcat(a[1..], b);
    }
  }

  lemma {:induction false} ReplyingMembers(ps: seq<Petition>, p: Petition)
    ensures p in Replying(ps) <==> p in ps && p.reply
  {
    if ps != [] {
      assert p in ps <==> p == ps[0] || p in ps[1..];
      ReplyingMembers(ps[1..], p);
    }
  }

  /** Requeueing keeps the count of every key for which no NO_REPLY petition counts. */
  lemma {:induction false} CountReplying(ps: seq<Petition>, key: Key)
    requires forall p :: p in ps && Counts(p, key, false) ==> p.reply
    ensures Count(Replying(ps), key, true) == Count(ps, key, false)
  {
    if ps != [] {
      CountReplying(ps[1..], key);
      CountConcat(if ps[0].reply then [ps[0]] else [], Replying(ps[1..]), key, true);
    }
  }
}
