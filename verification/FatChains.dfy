/** The FAT as a table, the chains in it, and what linking and freeing entries does to them. */
module FatChains {

  const LAST := 0xFFFFFFF
  const LAST2 := 0xFFFFFF8
  const FREE := 0
  const FREE_USED := 0xE5

  /** Counted as free: never used, or used and freed. */
  predicate Unused(value: nat) {
    value == FREE || value == FREE_USED
  }

  predicate InTable(t: seq<nat>, e: seq<nat>) {
    forall i :: 0 <= i < |e| ==> e[i] < |t|
  }

  predicate NoRepeats(e: seq<nat>) {
    forall i, j :: 0 <= i < j < |e| ==> e[i] != e[j]
  }

  predicate Apart(a: seq<nat>, b: seq<nat>) {
    forall i, j :: 0 <= i < |a| && 0 <= j < |b| ==> a[i] != b[j]
  }

  /** The entries of a file in order, each holding the next and the last an end mark. */
  predicate Chain(t: seq<nat>, c: seq<nat>) {
    && c != [] && InTable(t, c) && NoRepeats(c)
    && (forall i, j :: 0 <= i < |c| && j == i + 1 && j < |c| ==> t[c[i]] == c[j])
    && (t[c[|c| - 1]] == LAST || t[c[|c| - 1]] == LAST2)
  }

  /** The table after `FAT_write_FAT_entry`: each entry gets the next, the last the end mark. */
  function Link(t: seq<nat>, e: seq<nat>): (r: seq<nat>)
    requires e != [] && InTable(t, e)
    ensures |r| == |t|
    decreases |e|
  {
    if |e| == 1 then t[e[0] := LAST] else Link(t[e[0] := e[1]], e[1..])
  }

  /** The table after `FAT_write_FAT_free_entry`. */
  function Mark(t: seq<nat>, e: seq<nat>): (r: seq<nat>)
    requires InTable(t, e)
    ensures |r| == |t|
    decreases |e|
  {
    if e == [] then t else Mark(t[e[0] := FREE_USED], e[1..])
  }

  lemma {:induction false} LinkElsewhere(t: seq<nat>, e: seq<nat>, x: nat)
    requires e != [] && InTable(t, e) && x < |t| && x !in e
    ensures Link(t, e)[x] == t[x]
    decreases |e|
  {
    if |e| > 1 { LinkElsewhere(t[e[0] := e[1]], e[1..], x); }
  }

  lemma {:induction false} LinkAt(t: seq<nat>, e: seq<nat>, i: nat)
    requires InTable(t, e) && NoRepeats(e) && i < |e|
    ensures Link(t, e)[e[i]] == if i + 1 < |e| then e[i + 1] else LAST
    decreases |e|
  {
    if |e| > 1 {
      if i == 0 {
        assert e[0] !in e[1..];
        LinkElsewhere(t[e[0] := e[1]], e[1..], e[0]);
      } else {
        LinkAt(t[e[0] := e[1]], e[1..], i - 1);
      }
    }
  }

  lemma {:induction false} MarkAt(t: seq<nat>, e: seq<nat>, x: nat)
    requires InTable(t, e) && x < |t|
    ensures Mark(t, e)[x] == if x in e then FREE_USED else t[x]
    decreases |e|
  {
    if e != [] {
      MarkAt(t[e[0] := FREE_USED], e[1..], x);
      assert x in e <==> x == e[0] || x in e[1..];
    }
  }

  /** Linking or freeing entries of other files leaves a chain alone. */
  lemma ChainFrame(t: seq<nat>, c: seq<nat>, t': seq<nat>, e: seq<nat>)
    requires Chain(t, c) && Apart(c, e) && InTable(t, e)
    requires (e != [] && t' == Link(t, e)) || t' == Mark(t, e)
    ensures Chain(t', c)
  {
    forall i | 0 <= i < |c|
      ensures t'[c[i]] == t[c[i]]
    {
      MarkAt(t, e, c[i]);
      if e != [] { LinkElsewhere(t, e, c[i]); }
    }
  }

  /** Free entries linked together are a chain. */
  lemma ChainNew(t: seq<nat>, f: seq<nat>)
    requires f != [] && InTable(t, f) && NoRepeats(f)
    ensures Chain(Link(t, f), f)
  {
    forall i, j | 0 <= i < |f| && j == i + 1 && j < |f|
      ensures Link(t, f)[f[i]] == f[j]
    {
      LinkAt(t, f, i);
    }
    LinkAt(t, f, |f| - 1);
  }

  /** Writing the last entry of a file and new entries after it appends these. */
  lemma ChainAppend(t: seq<nat>, c: seq<nat>, f: seq<nat>)
    requires Chain(t, c) && InTable(t, f) && NoRepeats(f) && Apart(c, f)
    ensures Chain(Link(t, [c[|c| - 1]] + f), c + f)
  {
    var all := c + f;
    Concatenated(t, c, f);
    var t' := Link(t, [c[|c| - 1]] + f);
    forall i, j | 0 <= i < |all| && j == i + 1 && j < |all|
      ensures t'[all[i]] == all[j]
    {
      AppendLinks(t, c, f, i);
    }
    AppendLinks(t, c, f, |all| - 1);
  }

  lemma Concatenated(t: seq<nat>, c: seq<nat>, f: seq<nat>)
    requires InTable(t, c) && NoRepeats(c) && InTable(t, f) && NoRepeats(f) && Apart(c, f)
    ensures InTable(t, c + f) && NoRepeats(c + f)
  {
  }

  lemma AppendLinks(t: seq<nat>, c: seq<nat>, f: seq<nat>, i: nat)
    requires Chain(t, c) && InTable(t, f) && NoRepeats(f) && Apart(c, f) && i < |c + f|
    ensures Link(t, [c[|c| - 1]] + f)[(c + f)[i]] == if i + 1 < |c + f| then (c + f)[i + 1] else LAST
  {
    var n := |c|;
    var e := [c[n - 1]] + f;
    if i < n - 1 {
      assert c[i] !in e;
      LinkElsewhere(t, e, c[i]);
      NextLink(t, c, i);
    } else {
      var j := i - (n - 1);
      assert (c + f)[i] == e[j] && (j + 1 < |e| ==> (c + f)[i + 1] == e[j + 1]);
      LinkAt(t, e, j);
    }
  }

  lemma NextLink(t: seq<nat>, c: seq<nat>, i: nat)
    requires Chain(t, c) && i + 1 < |c|
    ensures t[c[i]] == c[i + 1] < |t|
  {
  }

  /** Freeing all but the first `k` entries and rewriting the last one kept cuts the file. */
  lemma ChainCut(t: seq<nat>, c: seq<nat>, k: nat)
    requires Chain(t, c) && 0 < k <= |c|
    ensures Chain(Link(Mark(t, c[k..]), [c[k - 1]]), c[..k])
  {
    var t1 := Mark(t, c[k..]);
    forall i | 0 <= i < k
      ensures t1[c[i]] == t[c[i]]
    {
      MarkAt(t, c[k..], c[i]);
      assert c[i] !in c[k..];
    }
  }

  /** A chain is determined by where it starts. */
  lemma ChainUnique(t: seq<nat>, c: seq<nat>, d: seq<nat>)
    requires Chain(t, c) && Chain(t, d) && c[0] == d[0] && |t| <= LAST2
    ensures c == d
  {
    var n := if |c| < |d| then |c| else |d|;
    SamePrefix(t, c, d, n - 1);
    if |c| > n { NextLink(t, c, n - 1); }
    if |d| > n { NextLink(t, d, n - 1); }
    forall i | 0 <= i < n
      ensures c[i] == d[i]
    {
      SamePrefix(t, c, d, i);
    }
  }

  lemma {:induction false} SamePrefix(t: seq<nat>, c: seq<nat>, d: seq<nat>, i: nat)
    requires Chain(t, c) && Chain(t, d) && c[0] == d[0] && i < |c| && i < |d|
    ensures c[i] == d[i]
  {
    if i > 0 {
      SamePrefix(t, c, d, i - 1);
      assert t[c[i - 1]] == c[i] && t[d[i - 1]] == d[i];
    }
  }

  // ---- free entries

  function CountUnused(t: seq<nat>): nat {
    if t == [] then 0 else (if Unused(t[0]) then 1 else 0) + CountUnused(t[1..])
  }

  lemma {:induction false} CountUnusedUpdate(t: seq<nat>, x: nat, value: nat)
    requires x < |t|
    ensures CountUnused(t[x := value]) + (if Unused(t[x]) then 1 else 0)
            == CountUnused(t) + (if Unused(value) then 1 else 0)
  {
    if x > 0 {
      assert t[x := value][1..] == t[1..][x - 1 := value];
      CountUnusedUpdate(t[1..], x - 1, value);
    } else {
      assert t[x := value][1..] == t[1..];
    }
  }

  /** How many of the entries were free at the moment they were linked: what the counter of
      free clusters loses. */
  function Taken(t: seq<nat>, e: seq<nat>): nat
    requires e != [] && InTable(t, e)
    decreases |e|
  {
    (if Unused(t[e[0]]) then 1 else 0) + if |e| == 1 then 0 else Taken(t[e[0] := e[1]], e[1..])
  }

  /** And when freeing, how many were in use: what it gains. */
  function Given(t: seq<nat>, e: seq<nat>): nat
    requires InTable(t, e)
    decreases |e|
  {
    if e == [] then 0 else (if Unused(t[e[0]]) then 0 else 1) + Given(t[e[0] := FREE_USED], e[1..])
  }

  /** How often a link of the sequence looks like the mark of a freed entry. */
  function Lookalikes(e: seq<nat>): nat {
    if |e| <= 1 then 0 else (if Unused(e[1]) then 1 else 0) + Lookalikes(e[1..])
  }

  /** Linking: the counter keeps step with the table if and only if no link looks like a free
      mark, that is, no entry linked to is number 229 (or 0). */
  lemma {:induction false} TakenIsExact(t: seq<nat>, e: seq<nat>)
    requires e != [] && InTable(t, e)
    ensures CountUnused(Link(t, e)) == CountUnused(t) - Taken(t, e) + Lookalikes(e)
    ensures Lookalikes(e) == 0 <==> forall i :: 1 <= i < |e| ==> !Unused(e[i])
    decreases |e|
  {
    if |e| == 1 {
      CountUnusedUpdate(t, e[0], LAST);
    } else {
      CountUnusedUpdate(t, e[0], e[1]);
      TakenIsExact(t[e[0] := e[1]], e[1..]);
      assert forall i :: 1 <= i < |e[1..]| ==> e[1..][i] == e[i + 1];
      if forall i :: 1 <= i < |e| ==> !Unused(e[i]) {
        assert !Unused(e[1]);
      } else {
        var i :| 1 <= i < |e| && Unused(e[i]);
        if i > 1 { assert Unused(e[1..][i - 1]); }
      }
    }
  }

  /** Freeing: the counter keeps step with the table. */
  lemma {:induction false} GivenIsExact(t: seq<nat>, e: seq<nat>)
    requires InTable(t, e)
    ensures CountUnused(Mark(t, e)) == CountUnused(t) + Given(t, e)
    decreases |e|
  {
    if e != [] {
      CountUnusedUpdate(t, e[0], FREE_USED);
      GivenIsExact(t[e[0] := FREE_USED], e[1..]);
    }
  }

  /** Appending to a file takes exactly the new clusters. */
  lemma {:induction false} TakenNew(t: seq<nat>, f: seq<nat>)
    requires InTable(t, f) && NoRepeats(f) && f != []
    requires forall i :: 0 <= i < |f| ==> Unused(t[f[i]])
    ensures Taken(t, f) == |f|
    decreases |f|
  {
    if |f| > 1 { TakenNew(t[f[0] := f[1]], f[1..]); }
  }

  lemma TakenAppend(t: seq<nat>, c: seq<nat>, f: seq<nat>)
    requires Chain(t, c) && InTable(t, f) && NoRepeats(f) && Apart(c, f)
    requires forall i :: 0 <= i < |f| ==> Unused(t[f[i]])
    ensures Taken(t, [c[|c| - 1]] + f) == |f|
  {
    var e := [c[|c| - 1]] + f;
    if f != [] {
      assert e[1..] == f;
      TakenNew(t[e[0] := e[1]], f);
    }
  }

  /** Of new entries linked after a file, only number 229 makes a link that looks free. */
  lemma {:induction false} LookalikesOnce(x: nat, f: seq<nat>)
    requires NoRepeats(f) && FREE !in f
    ensures Lookalikes([x] + f) == Slip(f)
    decreases |f|
  {
    var e := [x] + f;
    if f != [] {
      assert e[1..] == f == [f[0]] + f[1..];
      LookalikesOnce(f[0], f[1..]);
      assert f[0] !in f[1..];
    }
  }

  function Slip(f: seq<nat>): nat {
    if FREE_USED in f then 1 else 0
  }

  // ---- the allocator

  predicate LeastZero(t: seq<nat>, x: nat) {
    x < |t| && t[x] == FREE && forall j :: 0 <= j < x ==> t[j] != FREE
  }

  /** `r` are the `n` least entries never used. */
  predicate LeastZeros(t: seq<nat>, n: nat, r: seq<nat>) {
    && |r| == n && InTable(t, r)
    && (forall i, j :: 0 <= i < j < n ==> r[i] < r[j])
    && (forall i :: 0 <= i < n ==> t[r[i]] == FREE)
    && (forall x :: 0 <= x < |t| && n > 0 && x <= r[n - 1] && t[x] == FREE ==> x in r)
  }

  function ZerosIn(t: seq<nat>, lo: nat, hi: nat): nat
    requires lo <= hi <= |t|
    decreases hi - lo
  {
    if lo == hi then 0 else ZerosIn(t, lo, hi - 1) + if t[hi - 1] == FREE then 1 else 0
  }

  /** Freeing the entries of a file from the `k`-th on gives back as many, if and only if none
      of those after the first of them is number 229, which its predecessor would show. */
  lemma {:induction false} GivenSuffix(t: seq<nat>, c: seq<nat>, k: nat)
    requires Chain(t, c) && k <= |c| && forall i :: 0 <= i < |c| ==> c[i] > 0
    ensures Given(t, c[k..]) == |c| - k - (if k < |c| && FREE_USED in c[k + 1..] then 1 else 0)
    decreases |c| - k
  {
    if k < |c| {
      var e := c[k..];
      assert e[0] == c[k] && e[1..] == c[k + 1..];
      GivenElsewhere(t, e[1..], e[0], FREE_USED);
      GivenSuffix(t, c, k + 1);
      if k + 1 < |c| {
        NextLink(t, c, k);
        assert c[k + 1..] == [c[k + 1]] + c[k + 2..];
        assert c[k + 1] !in c[k + 2..];
      }
    }
  }

  /** For example a file of entries 2 and 229: two are freed, one is counted. */
  lemma FreedAndNotCounted() returns (t: seq<nat>)
    ensures Chain(t, [2, 229]) && Given(t, [2, 229]) == 1
  {
    t := seq(230, i requires 0 <= i < 230 => if i == 2 then 229 else LAST);
    assert [2, 229][1..] == [229];
  }

  lemma {:induction false} GivenElsewhere(t: seq<nat>, e: seq<nat>, x: nat, value: nat)
    requires InTable(t, e) && x < |t| && x !in e
    ensures Given(t[x := value], e) == Given(t, e)
    decreases |e|
  {
    if e != [] {
      assert t[x := value][e[0] := FREE_USED] == t[e[0] := FREE_USED][x := value];
      GivenElsewhere(t[e[0] := FREE_USED], e[1..], x, value);
    }
  }

  /** The entries never used of a stretch of the table. */
  function Zeros(t: seq<nat>, lo: nat, hi: nat): set<nat>
    requires hi <= |t|
  {
    set x: nat | lo <= x < hi && t[x] == FREE
  }

  lemma {:induction false} ZerosSize(t: seq<nat>, lo: nat, hi: nat)
    requires lo <= hi <= |t|
    ensures |Zeros(t, lo, hi)| == ZerosIn(t, lo, hi)
    decreases hi - lo
  {
    if lo < hi {
      ZerosSize(t, lo, hi - 1);
      assert Zeros(t, lo, hi) == Zeros(t, lo, hi - 1) + if t[hi - 1] == FREE then {hi - 1} else {};
    }
  }

  function Members(e: seq<nat>): set<nat> {
    set x | x in e
  }

  lemma {:induction false} MembersSize(e: seq<nat>)
    ensures |Members(e)| <= |e|
  {
    if e != [] {
      var rest := Members(e[1..]);
      MembersSize(e[1..]);
      assert Members(e) == rest + {e[0]};
      if e[0] in rest { assert Members(e) == rest; }
    }
  }

  /** Taking `n` of more than `n` free entries leaves one. */
  lemma OneLeft(t: seq<nat>, lo: nat, hi: nat, e: seq<nat>) returns (x: nat)
    requires lo <= hi <= |t| && ZerosIn(t, lo, hi) > |e|
    ensures lo <= x < hi && t[x] == FREE && x !in e
  {
    ZerosSize(t, lo, hi);
    MembersSize(e);
    var members := Members(e);
    if Zeros(t, lo, hi) <= members {
      Subset(Zeros(t, lo, hi), members);
      assert false;
    }
    x :| x in Zeros(t, lo, hi) && x !in members;
  }

  lemma {:induction false} Subset(a: set<nat>, b: set<nat>)
    requires a <= b
    ensures |a| <= |b|
  {
    if a != {} {
      var x :| x in a;
      Subset(a - {x}, b - {x});
    }
  }

  /** Using up the first free entry leaves one less ahead of the next. */
  lemma ZerosAfterTaking(t: seq<nat>, x: nat, value: nat, y: nat, hi: nat)
    requires LeastZero(t, x) && value != FREE && hi <= |t| && LeastZero(t[x := value], y)
    requires x < hi && ZerosIn(t, x, hi) > 1
    ensures x < y < hi && ZerosIn(t[x := value], y, hi) == ZerosIn(t, x, hi) - 1
  {
    var t' := t[x := value];
    var left := OneLeft(t, x, hi, [x]);
    assert t'[left] == FREE;
    ZerosSize(t, x, hi);
    ZerosSize(t', y, hi);
    assert Zeros(t', y, hi) == Zeros(t, x, hi) - {x} by {
      forall z: nat | z < hi && t[z] == FREE && z != x
        ensures y <= z
      {
        assert t'[z] == FREE;
      }
    }
  }
}
