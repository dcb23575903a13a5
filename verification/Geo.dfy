/** Geohash cells: the encoder, the bounds of a hash, and the children of a cell. */
module Geo {
  import opened BitSeq
  import opened Prelude

  const BASE32 := "0123456789bcdefghjkmnpqrstuvwxyz"

  datatype BBox = BBox(minLat: real, maxLat: real, minLon: real, maxLon: real) {
    predicate Contains(lat: real, lon: real) {
      minLat <= lat <= maxLat && minLon <= lon <= maxLon
    }

    predicate Intersects(o: BBox) {
      minLat <= o.maxLat && maxLat >= o.minLat && minLon <= o.maxLon && maxLon >= o.minLon
    }

    predicate Inside(o: BBox) {
      minLat >= o.minLat && maxLat <= o.maxLat && minLon >= o.minLon && maxLon <= o.maxLon
    }

    /** Both intervals are nonempty. */
    predicate Proper() {
      minLat <= maxLat && minLon <= maxLon
    }
  }

  const WORLD := BBox(-90.0, 90.0, -180.0, 180.0)

  function Min(a: real, b: real): real { if a <= b then a else b }

  function Max(a: real, b: real): real { if a <= b then b else a }

  function Clamp(x: real, lo: real, hi: real): real
    requires lo <= hi
  {
    if x < lo then lo else if x > hi then hi else x
  }

  /** The smallest box holding two opposite corners, given in any order, once clamped to the world. */
  function FromCorners(a: (real, real), b: (real, real)): (box: BBox)
    ensures box.Proper() && box.Inside(WORLD)
    ensures forall c | c == a || c == b :: box.Contains(Clamp(c.0, -90.0, 90.0), Clamp(c.1, -180.0, 180.0))
    ensures forall o: BBox |
              && o.Contains(Clamp(a.0, -90.0, 90.0), Clamp(a.1, -180.0, 180.0))
              && o.Contains(Clamp(b.0, -90.0, 90.0), Clamp(b.1, -180.0, 180.0)) :: box.Inside(o)
  {
    BBox(Clamp(Min(a.0, b.0), -90.0, 90.0), Clamp(Max(a.0, b.0), -90.0, 90.0),
         Clamp(Min(a.1, b.1), -180.0, 180.0), Clamp(Max(a.1, b.1), -180.0, 180.0))
  }

  // ---------------------------------------------------------------- halving

  /** A box together with the axis its next geohash bit halves (longitude when `even`). */
  datatype Zone = Zone(bounds: BBox, even: bool)

  const ROOT := Zone(WORLD, true)

  function Mid(z: Zone): real {
    if z.even then (z.bounds.minLon + z.bounds.maxLon) / 2.0 else (z.bounds.minLat + z.bounds.maxLat) / 2.0
  }

  function Half(z: Zone, upper: bool): Zone {
    var b := z.bounds;
    Zone(
      if z.even then (if upper then b.(minLon := Mid(z)) else b.(maxLon := Mid(z)))
      else (if upper then b.(minLat := Mid(z)) else b.(maxLat := Mid(z))),
      !z.even)
  }

  /** The zone reached from `z` by the `k` most significant of the five bits of `digit`. */
  function Descend(z: Zone, digit: nat, k: nat): Zone
    requires k <= 5
  {
    if k == 0 then z else Half(Descend(z, digit, k - 1), Shr(digit, 5 - k) % 2 == 1)
  }

  function Child(z: Zone, digit: nat): Zone {
    Descend(z, digit, 5)
  }

  // ----------------------------------------------------------------- digits

  predicate IsDigit(c: char) {
    '0' <= c <= '9' || ('b' <= c <= 'z' && c != 'i' && c != 'l' && c != 'o')
  }

  /** The alphabet by arithmetic; `AlphabetTable` ties it to the literal. */
  function Letter(d: nat): (c: char)
    requires d < 32
    ensures IsDigit(c)
  {
    (d + (if d < 10 then 48 else if d < 17 then 88 else if d < 19 then 89 else if d < 21 then 90 else 91)) as char
  }

  function IndexOf(c: char): (d: nat)
    requires IsDigit(c)
    ensures d < 32 && Letter(d) == c
  {
    c as int - (if c <= '9' then 48 else if c < 'i' then 88 else if c < 'l' then 89 else if c < 'o' then 90 else 91)
  }

  lemma IndexOfLetter(d: nat)
    requires d < 32
    ensures IndexOf(Letter(d)) == d
  {}

  /** Indexing the literal is `Letter`, and searching it is `IndexOf`. */
  lemma AlphabetTable()
    ensures |BASE32| == 32 && forall d: nat | d < 32 :: BASE32[d] == Letter(d)
    ensures forall c :: c in BASE32 <==> IsDigit(c)
  {
    assert forall c | IsDigit(c) :: BASE32[IndexOf(c)] == c;
  }

  predicate IsHash(h: string) {
    forall i | 0 <= i < |h| :: IsDigit(h[i])
  }

  /** The zone of a hash: every character narrows the world by five bits. */
  function ZoneOf(h: string): Zone
    requires IsHash(h)
  {
    if h == "" then ROOT else Child(ZoneOf(h[..|h| - 1]), IndexOf(h[|h| - 1]))
  }

  function Bounds(h: string): BBox
    requires IsHash(h)
  {
    ZoneOf(h).bounds
  }

  /** The page looks a foreign character up as -1, whose low five bits are all set: it reads as 'z'. */
  function ReadAsHash(g: string): (h: string)
    ensures |h| == |g| && IsHash(h)
    ensures IsHash(g) ==> h == g
  {
    seq(|g|, i requires 0 <= i < |g| => if IsDigit(g[i]) then g[i] else 'z')
  }

  lemma ForeignDigit()
    ensures IsDigit('z') && IndexOf('z') == 31
  {}

  /** The map page's decoder: narrow four bounds, one bit of each character at a time. */
  method GeohashBounds(g: string) returns (b: BBox)
    ensures b == Bounds(ReadAsHash(g))
  {
    ForeignDigit();
    ghost var h := ReadAsHash(g);
    var z := ROOT;
    for i := 0 to |g|
      invariant z == ZoneOf(h[..i])
    {
      var found := if IsDigit(g[i]) then IndexOf(g[i]) else -1;
      var digit: nat := if found == -1 then 31 else found;
      ghost var start := z;
      for k := 0 to 5
        invariant z == Descend(start, digit, k)
      {
        z := Half(z, Shr(digit, 4 - k) % 2 == 1);
      }
      assert h[..i + 1][..i] == h[..i];
    }
    assert h[..|h|] == h;
    b := z.bounds;
  }

  // --------------------------------------------------------------- encoding

  /** Whether the point falls in the upper half of the zone. */
  predicate Upper(z: Zone, lat: real, lon: real) {
    (if z.even then lon else lat) >= Mid(z)
  }

  /** The zone after `k` bits chosen by the point. */
  function Follow(z: Zone, lat: real, lon: real, k: nat): Zone {
    if k == 0 then z else
      var p := Follow(z, lat, lon, k - 1);
      Half(p, Upper(p, lat, lon))
  }

  /** The `k` chosen bits read as a number. */
  function Chosen(z: Zone, lat: real, lon: real, k: nat): nat {
    if k == 0 then 0 else
      2 * Chosen(z, lat, lon, k - 1) + (if Upper(Follow(z, lat, lon, k - 1), lat, lon) then 1 else 0)
  }

  /** The character digit a point chooses inside a zone. */
  function Digit(z: Zone, lat: real, lon: real): (d: nat)
    ensures d < 32
  {
    ChosenFits(z, lat, lon);
    Chosen(z, lat, lon, 5)
  }

  lemma ChosenFits(z: Zone, lat: real, lon: real)
    ensures Chosen(z, lat, lon, 5) < 32
  {
    assert Chosen(z, lat, lon, 1) < 2;
    assert Chosen(z, lat, lon, 2) < 4;
    assert Chosen(z, lat, lon, 3) < 8;
    assert Chosen(z, lat, lon, 4) < 16;
  }

  // -------------------------------------------------- which cell owns a point

  /** Half-open membership: the lower edges belong to the cell, the upper ones to its neighbour,
      and the world's own edges are open-ended (so every point has an owner). */
  predicate Owns(b: BBox, lat: real, lon: real) {
    && (b.minLat == -90.0 || b.minLat <= lat) && (b.maxLat == 90.0 || lat < b.maxLat)
    && (b.minLon == -180.0 || b.minLon <= lon) && (b.maxLon == 180.0 || lon < b.maxLon)
  }

  /** Nonempty and within the world. */
  predicate Solid(b: BBox) {
    -90.0 <= b.minLat < b.maxLat <= 90.0 && -180.0 <= b.minLon < b.maxLon <= 180.0
  }

  lemma HalfOwns(z: Zone, upper: bool, lat: real, lon: real)
    requires Solid(z.bounds)
    ensures Solid(Half(z, upper).bounds) && Half(z, upper).bounds.Inside(z.bounds)
    ensures Owns(Half(z, upper).bounds, lat, lon) <==> Owns(z.bounds, lat, lon) && upper == Upper(z, lat, lon)
  {}

  lemma {:induction false} DescendOwns(z: Zone, digit: nat, k: nat, lat: real, lon: real)
    requires Solid(z.bounds) && k <= 5 && digit < 32
    ensures Solid(Descend(z, digit, k).bounds) && Descend(z, digit, k).bounds.Inside(z.bounds)
    ensures Owns(Descend(z, digit, k).bounds, lat, lon)
       <==> Owns(z.bounds, lat, lon) && Shr(digit, 5 - k) == Chosen(z, lat, lon, k)
    ensures Shr(digit, 5 - k) == Chosen(z, lat, lon, k) ==> Descend(z, digit, k) == Follow(z, lat, lon, k)
  {
    if k == 0 {
      assert Shr(digit, 1) < 16 && Shr(digit, 2) < 8 && Shr(digit, 3) < 4 && Shr(digit, 4) < 2;
    } else {
      DescendOwns(z, digit, k - 1, lat, lon);
      var p := Descend(z, digit, k - 1);
      assert Shr(digit, 6 - k) == Shr(digit, 5 - k) / 2;
      HalfOwns(p, Shr(digit, 5 - k) % 2 == 1, lat, lon);
    }
  }

  lemma {:induction false} ZoneSolid(h: string)
    requires IsHash(h)
    ensures Solid(Bounds(h))
  {
    if h != "" {
      ZoneSolid(h[..|h| - 1]);
      DescendOwns(ZoneOf(h[..|h| - 1]), IndexOf(h[|h| - 1]), 5, 0.0, 0.0);
    }
  }

  /** The geohash of a point, as the digit-by-digit definition. */
  function Geohash(lat: real, lon: real, precision: nat): (h: string)
    ensures |h| == precision && IsHash(h)
  {
    if precision == 0 then "" else
      var g := Geohash(lat, lon, precision - 1);
      g + [Letter(Digit(ZoneOf(g), lat, lon))]
  }

  /** The point's own zone after one more character. */
  lemma AppendDigit(h: string, lat: real, lon: real)
    requires IsHash(h)
    ensures IsHash(h + [Letter(Digit(ZoneOf(h), lat, lon))])
    ensures ZoneOf(h + [Letter(Digit(ZoneOf(h), lat, lon))]) == Follow(ZoneOf(h), lat, lon, 5)
  {
    var d := Digit(ZoneOf(h), lat, lon);
    IndexOfLetter(d);
    ZoneSolid(h);
    DescendOwns(ZoneOf(h), d, 5, lat, lon);
    assert (h + [Letter(d)])[..|h|] == h;
  }

  lemma GeohashStep(lat: real, lon: real, n: nat)
    ensures Geohash(lat, lon, 0) == "" && ZoneOf("") == ROOT
    ensures var g := Geohash(lat, lon, n); Geohash(lat, lon, n + 1) == g + [Letter(Digit(ZoneOf(g), lat, lon))]
  {}

  lemma NoBitChosen(z: Zone, lat: real, lon: real)
    ensures Chosen(z, lat, lon, 0) == 0 && Follow(z, lat, lon, 0) == z
  {}

  method Encode(lat: real, lon: real, precision: nat) returns (hash: string)
    ensures hash == Geohash(lat, lon, precision)
  {
    hide Geohash, ZoneOf, Chosen, Follow, Half, Upper, IsHash, Letter;
    GeohashStep(lat, lon, 0);
    NoBitChosen(ROOT, lat, lon);
    hash := "";
    var z := ROOT;
    var bit, ch := 0, 0;
    while |hash| < precision
      invariant |hash| <= precision && hash == Geohash(lat, lon, |hash|)
      invariant 0 <= bit < 5 && (|hash| == precision ==> bit == 0)
      invariant ch == Chosen(ZoneOf(hash), lat, lon, bit) && z == Follow(ZoneOf(hash), lat, lon, bit)
      decreases precision - |hash|, 5 - bit
    {
      var upper := Upper(z, lat, lon);
      ChooseBit(ZoneOf(hash), lat, lon, bit);
      ch := 2 * ch + (if upper then 1 else 0);
      z := Half(z, upper);
      bit := bit + 1;
      if bit == 5 {
        assert ch == Digit(ZoneOf(hash), lat, lon);
        AppendDigit(hash, lat, lon);
        GeohashStep(lat, lon, |hash|);
        hash := hash + [Letter(ch)];
        NoBitChosen(z, lat, lon);
        bit, ch := 0, 0;
      }
    }
  }

  lemma ChooseBit(z: Zone, lat: real, lon: real, k: nat)
    ensures var p := Follow(z, lat, lon, k);
            && Follow(z, lat, lon, k + 1) == Half(p, Upper(p, lat, lon))
            && Chosen(z, lat, lon, k + 1) == 2 * Chosen(z, lat, lon, k) + (if Upper(p, lat, lon) then 1 else 0)
  {}

  /** A hash at a coarser precision is a prefix of the hash at a finer one. */
  lemma {:induction false} GeohashPrefix(lat: real, lon: real, p: nat, q: nat)
    requires p <= q
    ensures Geohash(lat, lon, p) == Geohash(lat, lon, q)[..p]
    decreases q
  {
    if p < q { GeohashPrefix(lat, lon, p, q - 1); }
  }

  /** The hashes of length `n` partition the plane, and `Geohash` names the part a point is in. */
  lemma {:induction false} GeohashNamesTheOwner(h: string, lat: real, lon: real)
    requires IsHash(h)
    ensures Owns(Bounds(h), lat, lon) <==> h == Geohash(lat, lon, |h|)
  {
    if h != "" {
      var g, d := h[..|h| - 1], IndexOf(h[|h| - 1]);
      GeohashNamesTheOwner(g, lat, lon);
      ZoneSolid(g);
      DescendOwns(ZoneOf(g), d, 5, lat, lon);
      IndexOfLetter(Digit(ZoneOf(g), lat, lon));
      assert h == g + [Letter(d)];
      assert Geohash(lat, lon, |h|)[..|h| - 1] == Geohash(lat, lon, |g|);
    }
  }

  // ------------------------------------------------------------ cell geometry

  /** `x / 2^n`. */
  function Halved(x: real, n: nat): real {
    if n == 0 then x else Halved(x, n - 1) / 2.0
  }

  lemma {:induction false} HalvedTwice(x: real, m: nat, n: nat)
    ensures Halved(Halved(x, m), n) == Halved(x, m + n)
  {
    if n > 0 { HalvedTwice(x, m, n - 1); }
  }

  function LonSpan(b: BBox): real { b.maxLon - b.minLon }

  function LatSpan(b: BBox): real { b.maxLat - b.minLat }

  /** Of `k` bits starting on the given axis, how many halve longitude. */
  function LonShare(even: bool, k: nat): nat { if even then (k + 1) / 2 else k / 2 }

  lemma {:induction false} DescendSpans(z: Zone, digit: nat, k: nat)
    requires k <= 5
    ensures Descend(z, digit, k).even == (z.even == (k % 2 == 0))
    ensures LonSpan(Descend(z, digit, k).bounds) == Halved(LonSpan(z.bounds), LonShare(z.even, k))
    ensures LatSpan(Descend(z, digit, k).bounds) == Halved(LatSpan(z.bounds), LonShare(!z.even, k))
  {
    if k > 0 { DescendSpans(z, digit, k - 1); }
  }

  /** Five more bits, three of them on one axis, keep the halves balanced. */
  lemma SpanShare(n: nat, even: bool)
    requires even <==> n % 2 == 0
    ensures (5 * n + 1) / 2 + LonShare(even, 5) == (5 * (n + 1) + 1) / 2
    ensures 5 * n / 2 + LonShare(!even, 5) == 5 * (n + 1) / 2
  {
    var k := n / 2;
    if even {
      assert n == 2 * k && (5 * n + 1) / 2 == 5 * k && 5 * n / 2 == 5 * k;
    } else {
      assert n == 2 * k + 1 && (5 * n + 1) / 2 == 5 * k + 3 && 5 * n / 2 == 5 * k + 2;
    }
  }

  lemma ZoneUnfolds(h: string)
    requires IsHash(h) && h != ""
    ensures IsHash(h[..|h| - 1]) && IsDigit(h[|h| - 1])
    ensures ZoneOf(h) == Descend(ZoneOf(h[..|h| - 1]), IndexOf(h[|h| - 1]), 5)
  {}

  lemma WorldSpans()
    ensures ZoneOf("") == ROOT
    ensures LonSpan(WORLD) == Halved(360.0, 0) && LatSpan(WORLD) == Halved(180.0, 0)
  {}

  /** Even lengths halve longitude next, odd lengths latitude. */
  lemma {:induction false} HashParity(h: string)
    requires IsHash(h)
    ensures ZoneOf(h).even <==> |h| % 2 == 0
  {
    hide Descend, IndexOf;
    if h != "" {
      ZoneUnfolds(h);
      HashParity(h[..|h| - 1]);
      DescendSpans(ZoneOf(h[..|h| - 1]), IndexOf(h[|h| - 1]), 5);
    }
  }

  /** A hash of `p` characters measures 360/2^ceil(5p/2) by 180/2^floor(5p/2) degrees. */
  lemma {:induction false} HashSpans(h: string)
    requires IsHash(h)
    ensures LonSpan(Bounds(h)) == Halved(360.0, (5 * |h| + 1) / 2)
    ensures LatSpan(Bounds(h)) == Halved(180.0, 5 * |h| / 2)
  {
    WorldSpans();
    hide Halved, Descend, LonShare, LonSpan, LatSpan, IndexOf, ZoneOf, IsHash;
    if h != "" {
      ZoneUnfolds(h);
      var g := h[..|h| - 1];
      HashSpans(g);
      HashParity(g);
      var even := ZoneOf(g).even;
      SpanShare(|g|, even);
      DescendSpans(ZoneOf(g), IndexOf(h[|h| - 1]), 5);
      HalvedTwice(360.0, (5 * |g| + 1) / 2, LonShare(even, 5));
      HalvedTwice(180.0, 5 * |g| / 2, LonShare(!even, 5));
    }
  }

  /** Decoding a hash and encoding the centre of its cell gives the hash back. */
  lemma {:induction false} CentreEncodesBack(h: string)
    requires IsHash(h)
    ensures var b := Bounds(h);
            Geohash((b.minLat + b.maxLat) / 2.0, (b.minLon + b.maxLon) / 2.0, |h|) == h
  {
    ZoneSolid(h);
    var b := Bounds(h);
    GeohashNamesTheOwner(h, (b.minLat + b.maxLat) / 2.0, (b.minLon + b.maxLon) / 2.0);
  }

  /** The cell of a valid position, at any precision, contains the position. */
  lemma BoundsContainPoint(lat: real, lon: real, p: nat)
    requires WORLD.Contains(lat, lon)
    ensures Bounds(Geohash(lat, lon, p)).Contains(lat, lon)
  {
    ZoneSolid(Geohash(lat, lon, p));
    GeohashNamesTheOwner(Geohash(lat, lon, p), lat, lon);
  }

  /** The cell of a longer hash lies within the cell of each of its prefixes. */
  lemma {:induction false} PrefixContains(h: string, n: nat)
    requires IsHash(h) && n <= |h|
    ensures IsHash(h[..n]) && Bounds(h).Inside(Bounds(h[..n]))
  {
    if n == |h| {
      assert h[..n] == h;
    } else {
      var g := h[..|h| - 1];
      PrefixContains(g, n);
      assert g[..n] == h[..n];
      ZoneSolid(g);
      DescendOwns(ZoneOf(g), IndexOf(h[|h| - 1]), 5, 0.0, 0.0);
    }
  }

  // ------------------------------------------------------- the 1.40625 degree grid

  const GRID := 1.40625

  lemma WholeSum(x: real, n: int)
    requires Whole(x)
    ensures Whole(x + n as real)
  {
    assert x + n as real == (x.Floor + n) as real;
  }

  /** The lower corner sits on the grid and the sides are `lonUnits` and `latUnits` grid steps. */
  predicate OnGrid(b: BBox, lonUnits: nat, latUnits: nat) {
    && Whole(b.minLon / GRID) && b.maxLon == b.minLon + GRID * lonUnits as real
    && Whole(b.minLat / GRID) && b.maxLat == b.minLat + GRID * latUnits as real
  }

  /** `u * 2^n`. */
  function Doubled(u: nat, n: nat): nat {
    if n == 0 then u else 2 * Doubled(u, n - 1)
  }

  lemma HalfOnGrid(z: Zone, upper: bool, lonUnits: nat, latUnits: nat)
    requires OnGrid(z.bounds, if z.even then 2 * lonUnits else lonUnits, if z.even then latUnits else 2 * latUnits)
    ensures OnGrid(Half(z, upper).bounds, lonUnits, latUnits)
  {
    if z.even {
      WholeSum(z.bounds.minLon / GRID, lonUnits);
    } else {
      WholeSum(z.bounds.minLat / GRID, latUnits);
    }
  }

  lemma {:induction false} DescendOnGrid(z: Zone, digit: nat, k: nat, lonUnits: nat, latUnits: nat)
    requires k <= 5
    requires OnGrid(z.bounds, Doubled(lonUnits, LonShare(z.even, k)), Doubled(latUnits, LonShare(!z.even, k)))
    ensures OnGrid(Descend(z, digit, k).bounds, lonUnits, latUnits)
  {
    if k > 0 {
      DescendSpans(z, digit, k - 1);
      if Descend(z, digit, k - 1).even {
        assert LonShare(z.even, k) == LonShare(z.even, k - 1) + 1 && LonShare(!z.even, k) == LonShare(!z.even, k - 1);
        DoubledTwice(lonUnits, LonShare(z.even, k - 1));
        DescendOnGrid(z, digit, k - 1, 2 * lonUnits, latUnits);
      } else {
        assert LonShare(z.even, k) == LonShare(z.even, k - 1) && LonShare(!z.even, k) == LonShare(!z.even, k - 1) + 1;
        DoubledTwice(latUnits, LonShare(!z.even, k - 1));
        DescendOnGrid(z, digit, k - 1, lonUnits, 2 * latUnits);
      }
      HalfOnGrid(Descend(z, digit, k - 1), Shr(digit, 5 - k) % 2 == 1, lonUnits, latUnits);
    }
  }

  lemma {:induction false} DoubledTwice(u: nat, n: nat)
    ensures Doubled(2 * u, n) == Doubled(u, n + 1)
  {
    if n > 0 { DoubledTwice(u, n - 1); }
  }

  lemma DoubledSmall(u: nat)
    ensures Doubled(u, 2) == 4 * u && Doubled(u, 3) == 8 * u
  {
    assert Doubled(u, 1) == 2 * u;
  }

  /** Every cell of at most three characters has all four edges on the grid. */
  lemma {:induction false} CoarseCellsOnGrid(h: string)
    requires IsHash(h) && |h| <= 3
    ensures OnGrid(Bounds(h), [256, 32, 8, 1][|h|], [128, 32, 4, 1][|h|])
  {
    if h != "" {
      var g := h[..|h| - 1];
      CoarseCellsOnGrid(g);
      HashSpans(g);
      HashParity(g);
      DoubledSmall([256, 32, 8, 1][|h|]);
      DoubledSmall([128, 32, 4, 1][|h|]);
      DescendOnGrid(ZoneOf(g), IndexOf(h[|h| - 1]), 5, [256, 32, 8, 1][|h|], [128, 32, 4, 1][|h|]);
    }
  }

  // ------------------------------------------------------------ client corners

  function Distance(x: real, y: real): real { if x <= y then y - x else x - y }

  /** `e` is the value in the range closest to `x`. */
  ghost predicate Nearest(e: real, x: real, lo: real, hi: real) {
    lo <= e <= hi && forall y | lo <= y <= hi :: Distance(e, x) <= Distance(y, x)
  }

  /** Each edge of a client's box is the coordinate of the lower or upper corner, or the edge of the world
      nearest to it. */
  lemma BoxEdgesAreNearest(a: (real, real), b: (real, real))
    ensures var box := FromCorners(a, b);
            && Nearest(box.minLat, if a.0 <= b.0 then a.0 else b.0, -90.0, 90.0)
            && Nearest(box.maxLat, if a.0 <= b.0 then b.0 else a.0, -90.0, 90.0)
            && Nearest(box.minLon, if a.1 <= b.1 then a.1 else b.1, -180.0, 180.0)
            && Nearest(box.maxLon, if a.1 <= b.1 then b.1 else a.1, -180.0, 180.0)
  {}

  /** Corners in the world give the smallest box that holds them. */
  lemma BoxOfWorldlyCorners(a: (real, real), b: (real, real))
    requires WORLD.Contains(a.0, a.1) && WORLD.Contains(b.0, b.1)
    ensures var box := FromCorners(a, b);
            && box.Contains(a.0, a.1) && box.Contains(b.0, b.1)
            && forall o: BBox | o.Contains(a.0, a.1) && o.Contains(b.0, b.1) :: box.Inside(o)
  {}
}
