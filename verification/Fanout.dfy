/** The fan-out service: client filters, the subscriptions they open, and what those receive. */
module Fanout {
  import opened Prelude
  import opened Geo
  import opened Cover
  import opened Text
  import opened Sorting
  import opened Subjects
  import AisCodec

  const COVER_PRECISION := 3
  const MAX_CELLS_PER_CLIENT := 48

  datatype Subscription = Subscription(
    boundingBoxes: seq<seq<(real, real)>>, filtersShipMmsi: seq<string>, filterMessageTypes: seq<string>)

  datatype SubscriptionError = NoBoxes | NotTwoCorners

  /** The headers the filter reads; an absent or unparsable coordinate is `None`. */
  datatype Headers = Headers(lat: Option<real>, lon: Option<real>, mmsi: Option<string>, msgType: Option<string>)

  datatype ClientFilter = ClientFilter(boxes: seq<BBox>, mmsi: set<string>, types: set<string>) {
    predicate InSomeBox(lat: real, lon: real) {
      exists i | 0 <= i < |boxes| :: boxes[i].Contains(lat, lon)
    }

    predicate Matches(h: Headers) {
      && h.lat.Some? && h.lon.Some?
      && InSomeBox(h.lat.value, h.lon.value)
      && (mmsi == {} || (h.mmsi.Some? && h.mmsi.value in mmsi))
      && (types == {} || (h.msgType.Some? && h.msgType.value in types))
    }
  }

  method FromSubscription(sub: Subscription) returns (r: Result<ClientFilter, SubscriptionError>)
    ensures sub.boundingBoxes == [] <==> r == Err(NoBoxes)
    ensures r == Err(NotTwoCorners) <==>
            sub.boundingBoxes != [] && exists i | 0 <= i < |sub.boundingBoxes| :: |sub.boundingBoxes[i]| != 2
    ensures r.Ok? ==>
              && |r.value.boxes| == |sub.boundingBoxes|
              && forall i | 0 <= i < |sub.boundingBoxes| ::
                   r.value.boxes[i] == FromCorners(sub.boundingBoxes[i][0], sub.boundingBoxes[i][1])
    ensures r.Ok? ==> forall m :: m in r.value.mmsi <==> m in sub.filtersShipMmsi
    ensures r.Ok? ==> forall t :: t in r.value.types <==> t in sub.filterMessageTypes
  {
    if sub.boundingBoxes == [] {
      return Err(NoBoxes);
    }
    var boxes := [];
    for i := 0 to |sub.boundingBoxes|
      invariant |boxes| == i && forall j | 0 <= j < i :: |sub.boundingBoxes[j]| == 2
      invariant forall j | 0 <= j < i :: boxes[j] == FromCorners(sub.boundingBoxes[j][0], sub.boundingBoxes[j][1])
    {
      var corners := sub.boundingBoxes[i];
      if |corners| != 2 {
        return Err(NotTwoCorners);
      }
      boxes := boxes + [FromCorners(corners[0], corners[1])];
    }
    return Ok(ClientFilter(boxes, set m | m in sub.filtersShipMmsi, set t | t in sub.filterMessageTypes));
  }

  // ------------------------------------------------------------------- cover

  function BoxCover(box: BBox): seq<Hash> {
    Level(box, Stop(box, COVER_PRECISION, MAX_CELLS_PER_CLIENT))
  }

  function CoverUnion(boxes: seq<BBox>): seq<Hash> {
    if boxes == [] then [] else CoverUnion(boxes[..|boxes| - 1]) + BoxCover(boxes[|boxes| - 1])
  }

  /** The shortest members of `all`: `out` keeps only members, none extending another, and every
      member extends one that is kept. */
  ghost predicate ShadowFree(all: seq<string>, out: seq<string>) {
    Antichain(out) && Among(out, all) && Shadowed(all, out)
  }

  ghost predicate Among(out: seq<string>, all: seq<string>) {
    forall q | q in out :: q in all
  }

  ghost predicate Shadowed(all: seq<string>, out: seq<string>) {
    forall p | p in all :: exists q :: q in out && q <= p
  }

  lemma LexLeIsTotalOrder()
    ensures TotalOrder(LexLe)
  {
    forall a, b ensures LexLe(a, b) || LexLe(b, a) { LexLeTotal(a, b); }
    forall a, b | LexLe(a, b) && LexLe(b, a) ensures a == b { LexLeAntisymmetric(a, b); }
    forall a, b, c | LexLe(a, b) && LexLe(b, c) ensures LexLe(a, c) { LexLeTransitive(a, b, c); }
  }

  lemma KeepNew(all: seq<string>, out: seq<string>, p: string)
    requires ShadowFree(all, out)
    requires forall q | q in all :: LexLe(q, p) && q != p
    requires forall q | q in out :: !(q <= p)
    ensures ShadowFree(all + [p], out + [p])
  {
    assert Among(out + [p], all + [p]);
    assert Shadowed(all + [p], out + [p]) by { ShadowedGrows(all, out, p, p); }
    assert Antichain(out + [p]) by { hide Shadowed; AntichainGrows(all, out, p); }
  }

  lemma AntichainGrows(all: seq<string>, out: seq<string>, p: string)
    requires Antichain(out) && Among(out, all)
    requires forall q | q in all :: LexLe(q, p) && q != p
    requires forall q | q in out :: !(q <= p)
    ensures Antichain(out + [p])
  {
    forall i | 0 <= i < |out|
      ensures !(p <= out[i]) && !(out[i] <= p)
    {
      assert out[i] in out;
      if p <= out[i] {
        PrefixIsLexLe(p, out[i]);
        LexLeAntisymmetric(p, out[i]);
      }
    }
  }

  lemma ShadowedGrows(all: seq<string>, out: seq<string>, p: string, q: string)
    requires Shadowed(all, out) && q <= p
    ensures Shadowed(all + [p], out + [q])
    ensures q in out ==> Shadowed(all + [p], out)
  {
    forall h | h in all + [p]
      ensures exists r :: r in out + [q] && r <= h && (q in out ==> r in out)
    {
      if h in all {
        var r :| r in out && r <= h;
        assert r in out + [q];
      } else {
        assert q in out + [q] && q <= h;
      }
    }
  }

  lemma SkipShadowed(all: seq<string>, out: seq<string>, p: string, q: string)
    requires ShadowFree(all, out) && q in out && q <= p
    ensures ShadowFree(all + [p], out)
  {
    assert Among(out, all + [p]) by { hide Shadowed; }
    assert Shadowed(all + [p], out) by { hide Among; ShadowedGrows(all, out, p, q); }
  }

  /** Keep a prefix unless a kept one already covers it. Sorted input puts the shorter ones first. */
  method DropShadowed(prefixes: seq<string>) returns (out: seq<string>)
    requires StrictlySorted(LexLe, prefixes)
    ensures ShadowFree(prefixes, out)
  {
    hide ShadowFree;
    out := [];
    assert ShadowFree(prefixes[..0], out) by { NothingToShadow(); }
    for i := 0 to |prefixes|
      invariant ShadowFree(prefixes[..i], out)
    {
      var p := prefixes[i];
      assert prefixes[..i + 1] == prefixes[..i] + [p];
      if q :| q in out && q <= p {
        assert ShadowFree(prefixes[..i + 1], out) by { SkipShadowed(prefixes[..i], out, p, q); }
      } else {
        KeepNew(prefixes[..i], out, p);
        out := out + [p];
      }
    }
    assert prefixes[..|prefixes|] == prefixes;
  }

  lemma NothingToShadow()
    ensures ShadowFree([], [])
  {}

  method CoverBoxes(boxes: seq<BBox>) returns (out: seq<string>)
    ensures ShadowFree(CoverUnion(boxes), out)
  {
    var prefixes: seq<Hash> := [];
    for i := 0 to |boxes|
      invariant prefixes == CoverUnion(boxes[..i])
    {
      assert boxes[..i + 1][..i] == boxes[..i];
      var cells := CoverBox(boxes[i], COVER_PRECISION, MAX_CELLS_PER_CLIENT);
      prefixes := prefixes + cells;
    }
    assert boxes[..|boxes|] == boxes;
    out := ShortestOf(prefixes);
  }

  /** Sort, deduplicate, and drop what a shorter prefix covers. */
  method ShortestOf(prefixes: seq<string>) returns (out: seq<string>)
    ensures ShadowFree(prefixes, out)
  {
    LexLeIsTotalOrder();
    SortDedup(LexLe, prefixes);
    var sorted := Dedup(Sort(LexLe, prefixes));
    out := DropShadowed(sorted);
  }

  lemma {:induction false} CoverUnionMembers(boxes: seq<BBox>, h: Hash)
    ensures h in CoverUnion(boxes) <==> exists i :: 0 <= i < |boxes| && h in BoxCover(boxes[i])
  {
    hide BoxCover;
    if boxes != [] {
      CoverUnionMembers(boxes[..|boxes| - 1], h);
    }
  }

  // ----------------------------------------------------------------- headers

  /** Nearest integer, ties to even, as decimal formatting rounds. */
  function RoundHalfEven(y: real): int {
    var below := y.Floor;
    var rest := y - below as real;
    if rest < 0.5 || (rest == 0.5 && below % 2 == 0) then below else below + 1
  }

  /** A coordinate printed with six decimals and read back. */
  function Round6(x: real): real {
    RoundHalfEven(x * 1000000.0) as real / 1000000.0
  }

  /** Rounding to six decimals never crosses a multiple of 10^-6. */
  lemma Round6Monotone(x: real, m: int)
    ensures x <= m as real / 1000000.0 ==> Round6(x) <= m as real / 1000000.0
    ensures x >= m as real / 1000000.0 ==> Round6(x) >= m as real / 1000000.0
  {
    var y := x * 1000000.0;
    if x <= m as real / 1000000.0 {
      assert y <= m as real;
      assert RoundHalfEven(y) <= m;
    }
    if x >= m as real / 1000000.0 {
      assert y >= m as real;
      assert RoundHalfEven(y) >= m;
    }
  }

  /** An edge on the geohash grid is a multiple of 10^-6. */
  lemma GridEdgesAreMicrodegrees(b: BBox, lonUnits: nat, latUnits: nat)
    returns (minLat: int, maxLat: int, minLon: int, maxLon: int)
    requires OnGrid(b, lonUnits, latUnits)
    ensures b.minLat == minLat as real / 1000000.0 && b.maxLat == maxLat as real / 1000000.0
    ensures b.minLon == minLon as real / 1000000.0 && b.maxLon == maxLon as real / 1000000.0
  {
    minLat := 1406250 * (b.minLat / GRID).Floor;
    minLon := 1406250 * (b.minLon / GRID).Floor;
    maxLat := minLat + 1406250 * latUnits;
    maxLon := minLon + 1406250 * lonUnits;
  }

  /** The rounded coordinates stay within the closed cell of at most three characters. */
  lemma RoundingStaysInCoarseCell(h: Hash, lat: real, lon: real)
    requires |h| <= 3 && Bounds(h).Contains(lat, lon)
    ensures Bounds(h).Contains(Round6(lat), Round6(lon))
  {
    hide ZoneOf;
    CoarseCellsOnGrid(h);
    var minLat, maxLat, minLon, maxLon :=
      GridEdgesAreMicrodegrees(Bounds(h), [256, 32, 8, 1][|h|], [128, 32, 4, 1][|h|]);
    Round6Monotone(lat, minLat);
    Round6Monotone(lat, maxLat);
    Round6Monotone(lon, minLon);
    Round6Monotone(lon, maxLon);
  }

  // ---------------------------------------------------------------- delivery

  const GEOHASH_PRECISION := 4

  /** How many of the subscriptions a subject reaches. */
  function Receipts(prefixes: seq<string>, subject: string): nat {
    if prefixes == [] then 0 else
      Receipts(prefixes[1..], subject) + (if Matches(DecodedPattern(prefixes[0]), subject) then 1 else 0)
  }

  /** How many copies a client is sent: one per receiving subscription, if the headers pass. */
  function Copies(filter: ClientFilter, prefixes: seq<string>, subject: string, headers: Headers): nat {
    if filter.Matches(headers) then Receipts(prefixes, subject) else 0
  }

  lemma HashIsPlain(h: Hash)
    ensures Plain(h)
  {}

  lemma {:induction false} ReceiptsOfAntichain(prefixes: seq<string>, g: Hash)
    requires |g| == 4 && Antichain(prefixes)
    requires forall i | 0 <= i < |prefixes| :: IsHash(prefixes[i]) && |prefixes[i]| <= 4
    ensures Receipts(prefixes, Decoded(g)) == if exists i :: 0 <= i < |prefixes| && prefixes[i] <= g then 1 else 0
  {
    if prefixes != [] {
      var rest := prefixes[1..];
      ReceiptsOfAntichain(rest, g);
      HashIsPlain(prefixes[0]);
      HashIsPlain(g);
      PatternSelectsPrefix(prefixes[0], g);
      if prefixes[0] <= g {
        forall j | 0 <= j < |rest|
          ensures !(rest[j] <= g)
        {
          assert !(prefixes[0] <= prefixes[j + 1]) && !(prefixes[j + 1] <= prefixes[0]);
        }
      } else {
        assert forall i | 0 < i < |prefixes| :: prefixes[i] == rest[i - 1];
        assert forall j | 0 <= j < |rest| :: rest[j] == prefixes[j + 1];
      }
    }
  }

  /** The exact position or the one in the headers. */
  predicate Shows(lat: real, lon: real, x: real, y: real) {
    (x == lat && y == lon) || (x == Round6(lat) && y == Round6(lon))
  }

  lemma CoarseCellMeets(box: BBox, lat: real, lon: real, x: real, y: real, j: nat)
    requires WORLD.Contains(lat, lon) && Shows(lat, lon, x, y) && box.Contains(x, y) && j <= COVER_PRECISION
    ensures Bounds(Cut(Geohash(lat, lon, GEOHASH_PRECISION), j)).Intersects(box)
  {
    hide ZoneOf;
    GeohashPrefix(lat, lon, j, GEOHASH_PRECISION);
    BoundsContainPoint(lat, lon, j);
    RoundingStaysInCoarseCell(Geohash(lat, lon, j), lat, lon);
  }

  /** The box's own cover holds a prefix of the hash. */
  lemma BoxCoverHasPrefix(box: BBox, lat: real, lon: real, x: real, y: real) returns (p: Hash)
    requires WORLD.Contains(lat, lon) && Shows(lat, lon, x, y) && box.Contains(x, y)
    ensures p in BoxCover(box) && p <= Geohash(lat, lon, GEOHASH_PRECISION)
  {
    hide ZoneOf;
    hide Level;
    hide Shows;
    var g: Hash := Geohash(lat, lon, GEOHASH_PRECISION);
    var k := Stop(box, COVER_PRECISION, MAX_CELLS_PER_CLIENT);
    StopFromBounds(box, 0, COVER_PRECISION, MAX_CELLS_PER_CLIENT);
    forall j: nat | j <= k
      ensures Bounds(Cut(g, j)).Intersects(box)
    {
      CoarseCellMeets(box, lat, lon, x, y, j);
    }
    LevelCovers(box, k, g);
    var i :| 0 <= i < |Level(box, k)| && Level(box, k)[i] <= g;
    p := Level(box, k)[i];
  }

  lemma PrefixTransitive(a: string, b: string, c: string)
    requires a <= b && b <= c
    ensures a <= c
  {}

  /** Some kept prefix starts the hash of any position that lies in a box, before or after rounding. */
  lemma PositionIsCovered(boxes: seq<BBox>, out: seq<string>, lat: real, lon: real, x: real, y: real, b: nat)
    requires ShadowFree(CoverUnion(boxes), out) && WORLD.Contains(lat, lon) && Shows(lat, lon, x, y)
    requires b < |boxes| && boxes[b].Contains(x, y)
    ensures exists i :: 0 <= i < |out| && out[i] <= Geohash(lat, lon, GEOHASH_PRECISION)
  {
    hide Geohash;
    hide BoxCover;
    hide CoverUnion;
    hide Shows;
    var p := BoxCoverHasPrefix(boxes[b], lat, lon, x, y);
    CoverUnionMembers(boxes, p);
    var q :| q in out && q <= p;
    PrefixTransitive(q, p, Geohash(lat, lon, GEOHASH_PRECISION));
  }

  lemma CoverHashesAreShort(boxes: seq<BBox>, h: Hash)
    requires h in CoverUnion(boxes)
    ensures |h| <= COVER_PRECISION
  {
    CoverUnionMembers(boxes, h);
    var i :| 0 <= i < |boxes| && h in BoxCover(boxes[i]);
    StopFromBounds(boxes[i], 0, COVER_PRECISION, MAX_CELLS_PER_CLIENT);
    LevelMembers(boxes[i], Stop(boxes[i], COVER_PRECISION, MAX_CELLS_PER_CLIENT), h);
  }

  /** Exactly one of a client's subscriptions receives the subject of a position in one of its boxes,
      whether the exact or the rounded coordinates lie there; for any other position at most one does. */
  lemma ReceivedOnce(boxes: seq<BBox>, prefixes: seq<string>, lat: real, lon: real)
    requires ShadowFree(CoverUnion(boxes), prefixes) && WORLD.Contains(lat, lon)
    ensures var received := Receipts(prefixes, Decoded(Geohash(lat, lon, GEOHASH_PRECISION)));
            && received <= 1
            && forall x, y, b: nat | b < |boxes| && Shows(lat, lon, x, y) && boxes[b].Contains(x, y) :: received == 1
  {
    hide Geohash, Shows, CoverUnion;
    var union := CoverUnion(boxes);
    forall i | 0 <= i < |prefixes|
      ensures IsHash(prefixes[i]) && |prefixes[i]| <= 4
    {
      assert prefixes[i] in union;
      var j :| 0 <= j < |union| && union[j] == prefixes[i];
      CoverHashesAreShort(boxes, union[j]);
    }
    ReceiptsOfAntichain(prefixes, Geohash(lat, lon, GEOHASH_PRECISION));
    forall x, y, b: nat | b < |boxes| && Shows(lat, lon, x, y) && boxes[b].Contains(x, y)
      ensures Receipts(prefixes, Decoded(Geohash(lat, lon, GEOHASH_PRECISION))) == 1
    {
      PositionIsCovered(boxes, prefixes, lat, lon, x, y, b);
    }
  }

  /** Exactly-once delivery. A positioned message is published on the subject of the geohash of its
      exact position and carries that position rounded to six decimals. A client gets exactly one
      copy when its filter accepts the headers, and none otherwise. */
  lemma ExactlyOnce(filter: ClientFilter, prefixes: seq<string>, lat: real, lon: real, headers: Headers)
    requires ShadowFree(CoverUnion(filter.boxes), prefixes) && WORLD.Contains(lat, lon)
    requires headers.lat == Some(Round6(lat)) && headers.lon == Some(Round6(lon))
    ensures Copies(filter, prefixes, Decoded(Geohash(lat, lon, GEOHASH_PRECISION)), headers) ==
            if filter.Matches(headers) then 1 else 0
  {
    hide Geohash, Round6, CoverUnion, ShadowFree, Receipts;
    ReceivedOnce(filter.boxes, prefixes, lat, lon);
    if filter.Matches(headers) {
      var b :| 0 <= b < |filter.boxes| && filter.boxes[b].Contains(Round6(lat), Round6(lon));
      assert Shows(lat, lon, Round6(lat), Round6(lon));
    }
  }

  /** A latitude of one ten-thousandth of a minute, half a degree east, and a box that ends just north
      of it. */
  const HAIR_LAT := AisCodec.FromFine(1)
  const HAIR_LON := AisCodec.FromFine(300000)
  const HAIR_BOX := BBox(0.0, 0.0000017, 0.0, 1.0)

  lemma HairRounds()
    ensures WORLD.Contains(HAIR_LAT, HAIR_LON) && HAIR_BOX.Contains(HAIR_LAT, HAIR_LON)
    ensures Round6(HAIR_LAT) == 0.000002 && !HAIR_BOX.Contains(Round6(HAIR_LAT), Round6(HAIR_LON))
  {
    assert RoundHalfEven(HAIR_LAT * 1000000.0) == 2;
  }

  /** Lying in a box is not enough: rounding can carry a position, here one that a message can report,
      out of it, and then the message is received but held back. By `ExactlyOnce` it is sent exactly
      when the rounded position matches. */
  lemma RoundingCanLeaveABox(prefixes: seq<string>, headers: Headers)
    requires ShadowFree(CoverUnion([HAIR_BOX]), prefixes)
    requires headers.lat == Some(Round6(HAIR_LAT)) && headers.lon == Some(Round6(HAIR_LON))
    ensures HAIR_BOX.Contains(HAIR_LAT, HAIR_LON)
    ensures Receipts(prefixes, Decoded(Geohash(HAIR_LAT, HAIR_LON, GEOHASH_PRECISION))) == 1
    ensures Copies(ClientFilter([HAIR_BOX], {}, {}), prefixes,
                   Decoded(Geohash(HAIR_LAT, HAIR_LON, GEOHASH_PRECISION)), headers) == 0
  {
    hide Geohash, CoverUnion, ShadowFree, Receipts, Round6;
    HairRounds();
    ReceivedOnce([HAIR_BOX], prefixes, HAIR_LAT, HAIR_LON);
    assert Shows(HAIR_LAT, HAIR_LON, HAIR_LAT, HAIR_LON) && [HAIR_BOX][0].Contains(HAIR_LAT, HAIR_LON);
  }

  /** A message without coordinates is never sent, although a whole-world subscription receives it. */
  lemma NoPositionNeverSent(filter: ClientFilter, prefixes: seq<string>, subject: string, headers: Headers)
    requires headers.lat == None
    ensures Copies(filter, prefixes, subject, headers) == 0
    ensures Receipts([""], NO_POSITION) == 1
  {
    OnlyTheWorldPatternSelectsNoPosition("");
    assert Receipts([], NO_POSITION) == 0;
    assert [""][1..] == [];
  }

  /** Rounding to six decimals moves a coordinate by at most half a micro-degree, and a tie to the even
      neighbour. */
  lemma RoundedIsNearest(y: real)
    ensures y - 0.5 <= RoundHalfEven(y) as real <= y + 0.5
    ensures RoundHalfEven(y) as real == y + 0.5 || RoundHalfEven(y) as real == y - 0.5 ==> RoundHalfEven(y) % 2 == 0
  {}

  lemma RoundedIsClose(x: real)
    ensures x - 0.0000005 <= Round6(x) <= x + 0.0000005
  {
    RoundedIsNearest(x * 1000000.0);
  }

  /** A client is sent a message exactly when a box holds the coordinates in its headers, its vessel is
      among those listed, if any, and its type is among those listed, if any. */
  lemma SentOnlyWhatIsAskedFor(filter: ClientFilter, prefixes: seq<string>, lat: real, lon: real, headers: Headers)
    requires ShadowFree(CoverUnion(filter.boxes), prefixes) && WORLD.Contains(lat, lon)
    requires headers.lat == Some(Round6(lat)) && headers.lon == Some(Round6(lon))
    ensures Copies(filter, prefixes, Decoded(Geohash(lat, lon, GEOHASH_PRECISION)), headers) == 1 <==>
            && (exists i :: 0 <= i < |filter.boxes| && filter.boxes[i].Contains(Round6(lat), Round6(lon)))
            && (filter.mmsi != {} ==> exists m :: m in filter.mmsi && headers.mmsi == Some(m))
            && (filter.types != {} ==> exists t :: t in filter.types && headers.msgType == Some(t))
  {
    hide Geohash, Round6, CoverUnion, ShadowFree;
    ExactlyOnce(filter, prefixes, lat, lon, headers);
    hide Copies;
  }
}
