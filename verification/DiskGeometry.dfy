/** The geometry a disk announces (`PPD_CHS_id` in PRAID1/PRAID1.h) and the places that its
    sectors have. */
module DiskGeometry {

  datatype Place = Place(cylinder: nat, head: nat, sector: nat)

  datatype Chs = Chs(cylinder: nat, head: nat, sector: nat) {
    function Sectors(): nat { sector * cylinder * head }

    /** A place for each sector of each head of each cylinder. */
    function Places(): set<Place> {
      set c, h, s | 0 <= c < cylinder && 0 <= h < head && 0 <= s < sector :: Place(c, h, s)
    }
  }

  function Track(c: nat, h: nat, n: nat): set<Place> {
    set s | 0 <= s < n :: Place(c, h, s)
  }

  function Disc(c: nat, heads: nat, n: nat): set<Place> {
    set h, s | 0 <= h < heads && 0 <= s < n :: Place(c, h, s)
  }

  lemma {:induction false} TrackSize(c: nat, h: nat, n: nat)
    ensures |Track(c, h, n)| == n
  {
    if n > 0 {
      TrackSize(c, h, n - 1);
      assert Track(c, h, n) == Track(c, h, n - 1) + {Place(c, h, n - 1)};
    }
  }

  lemma {:induction false} DiscSize(c: nat, heads: nat, n: nat)
    ensures |Disc(c, heads, n)| == heads * n
  {
    if heads > 0 {
      DiscSize(c, heads - 1, n);
      TrackSize(c, heads - 1, n);
      assert Disc(c, heads, n) == Disc(c, heads - 1, n) + Track(c, heads - 1, n);
      assert heads * n == (heads - 1) * n + n;
    }
  }

  lemma OneMoreDisc(c: nat, h: nat, s: nat)
    ensures s * (c + 1) * h == s * c * h + h * s
  {
    assert s * (c + 1) == s * c + s;
    assert (s * c + s) * h == s * c * h + s * h;
  }

  lemma PlacesByDisc(c: nat, h: nat, s: nat)
    ensures Chs(c + 1, h, s).Places() == Chs(c, h, s).Places() + Disc(c, h, s)
    ensures Chs(c, h, s).Places() !! Disc(c, h, s)
  {
  }

  /** The number of sectors of a geometry is the number of its places. */
  lemma {:induction false} SectorsAreItsPlaces(g: Chs)
    ensures |g.Places()| == g.Sectors()
    decreases g.cylinder
  {
    if g.cylinder == 0 {
      assert g.sector * 0 * g.head == 0;
    } else {
      var n := g.cylinder - 1;
      SectorsAreItsPlaces(Chs(n, g.head, g.sector));
      DiscSize(n, g.head, g.sector);
      PlacesByDisc(n, g.head, g.sector);
      OneMoreDisc(n, g.head, g.sector);
    }
  }
}
