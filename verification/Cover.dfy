/** The budgeted refinement search that covers a bounding box with geohash prefixes. */
module Cover {
  import opened BitSeq
  import opened Geo

  type Hash = h: string | IsHash(h) witness ""

  datatype Cell = Cell(prefix: Hash, bounds: BBox, even: bool, done: bool)

  function CellAt(h: Hash, box: BBox): Cell {
    Cell(h, Bounds(h), ZoneOf(h).even, Bounds(h).Inside(box))
  }

  function ChildHash(h: Hash, digit: nat): (g: Hash)
    requires digit < 32
    ensures Bounds(g) == Child(ZoneOf(h), digit).bounds && ZoneOf(g) == Child(ZoneOf(h), digit)
  {
    IndexOfLetter(digit);
    assert (h + [Letter(digit)])[..|h|] == h;
    h + [Letter(digit)]
  }

  /** The 32 children of a cell, in alphabet order. */
  method Children(c: Cell) returns (out: seq<Cell>)
    requires ZoneOf(c.prefix) == Zone(c.bounds, c.even)
    ensures |out| == 32
    ensures forall i | 0 <= i < 32 ::
              var g := ChildHash(c.prefix, i);
              out[i] == Cell(g, Bounds(g), ZoneOf(g).even, false)
  {
    out := [];
    for i := 0 to 32
      invariant |out| == i
      invariant forall j | 0 <= j < i ::
                  var g := ChildHash(c.prefix, j);
                  out[j] == Cell(g, Bounds(g), ZoneOf(g).even, false)
    {
      var z := Zone(c.bounds, c.even);
      for k := 0 to 5
        invariant z == Descend(Zone(c.bounds, c.even), i, k)
      {
        z := Half(z, Shr(i, 4 - k) % 2 == 1);
      }
      out := out + [Cell(ChildHash(c.prefix, i), z.bounds, z.even, false)];
    }
  }

  // ------------------------------------------------------- refinement levels

  /** The children of `h` with digit below `n` that meet the box. */
  function MeetingChildren(h: Hash, box: BBox, n: nat): seq<Hash>
    requires n <= 32
  {
    if n == 0 then [] else
      MeetingChildren(h, box, n - 1) +
      (if Bounds(ChildHash(h, n - 1)).Intersects(box) then [ChildHash(h, n - 1)] else [])
  }

  function Expand(h: Hash, box: BBox): seq<Hash> {
    if Bounds(h).Inside(box) then [h] else MeetingChildren(h, box, 32)
  }

  function Refine(level: seq<Hash>, box: BBox): seq<Hash> {
    if level == [] then [] else Refine(level[..|level| - 1], box) + Expand(level[|level| - 1], box)
  }

  /** The cells after `k` refinements of the whole world. */
  function Level(box: BBox, k: nat): seq<Hash> {
    if k == 0 then [""] else Refine(Level(box, k - 1), box)
  }

  predicate Settled(level: seq<Hash>, box: BBox) {
    forall i | 0 <= i < |level| :: Bounds(level[i]).Inside(box)
  }

  /** Where the search starting at level `k` stops. */
  function StopFrom(box: BBox, k: nat, maxPrecision: nat, maxCells: nat): nat
    decreases maxPrecision - k
  {
    if k >= maxPrecision || Settled(Level(box, k), box) || |Level(box, k + 1)| > maxCells then k
    else StopFrom(box, k + 1, maxPrecision, maxCells)
  }

  function Stop(box: BBox, maxPrecision: nat, maxCells: nat): nat {
    StopFrom(box, 0, maxPrecision, maxCells)
  }

  lemma StopUnfolds(box: BBox, k: nat, maxPrecision: nat, maxCells: nat)
    ensures StopFrom(box, k, maxPrecision, maxCells) ==
            if k >= maxPrecision || Settled(Level(box, k), box) || |Level(box, k + 1)| > maxCells then k
            else StopFrom(box, k + 1, maxPrecision, maxCells)
  {}

  ghost predicate Mirrors(cells: seq<Cell>, level: seq<Hash>, box: BBox) {
    |cells| == |level| && forall i | 0 <= i < |cells| :: cells[i] == CellAt(level[i], box)
  }

  lemma MirrorsJoin(a: seq<Cell>, s: seq<Hash>, b: seq<Cell>, t: seq<Hash>, box: BBox)
    requires Mirrors(a, s, box) && Mirrors(b, t, box)
    ensures Mirrors(a + b, s + t, box)
  {}

  /** The children of one unfinished cell that meet the box, marked when they lie inside it. */
  method MeetingCells(cell: Cell, box: BBox) returns (kept: seq<Cell>)
    requires cell == CellAt(cell.prefix, box)
    ensures Mirrors(kept, MeetingChildren(cell.prefix, box, 32), box)
  {
    kept := [];
    var children := Children(cell);
    for d := 0 to 32
      invariant Mirrors(kept, MeetingChildren(cell.prefix, box, d), box)
    {
      var child := children[d];
      if child.bounds.Intersects(box) {
        kept := kept + [child.(done := child.bounds.Inside(box))];
      }
    }
  }

  method RefineCells(cells: seq<Cell>, box: BBox, ghost level: seq<Hash>) returns (next: seq<Cell>)
    requires Mirrors(cells, level, box)
    ensures Mirrors(next, Refine(level, box), box)
  {
    hide ZoneOf;
    next := [];
    for i := 0 to |cells|
      invariant Mirrors(next, Refine(level[..i], box), box)
    {
      assert level[..i + 1][..i] == level[..i];
      assert cells[i] == CellAt(level[i], box);
      if cells[i].done {
        MirrorsJoin(next, Refine(level[..i], box), [cells[i]], [level[i]], box);
        next := next + [cells[i]];
      } else {
        var kept := MeetingCells(cells[i], box);
        ghost var children := MeetingChildren(level[i], box, 32);
        MirrorsJoin(next, Refine(level[..i], box), kept, children, box);
        next := next + kept;
      }
    }
    assert level[..|level|] == level;
  }

  lemma RootMirrors(box: BBox)
    ensures Mirrors([Cell("", WORLD, true, WORLD.Inside(box))], [""], box)
  {
    assert CellAt("", box) == Cell("", WORLD, true, WORLD.Inside(box));
  }

  predicate Finished(cells: seq<Cell>) {
    forall i | 0 <= i < |cells| :: cells[i].done
  }

  lemma FinishedMeansSettled(cells: seq<Cell>, level: seq<Hash>, box: BBox)
    requires Mirrors(cells, level, box)
    ensures Finished(cells) <==> Settled(level, box)
  {
    assert forall i | 0 <= i < |cells| :: cells[i].done <==> Bounds(level[i]).Inside(box);
  }

  method Prefixes(cells: seq<Cell>, box: BBox, ghost level: seq<Hash>) returns (prefixes: seq<Hash>)
    requires Mirrors(cells, level, box)
    ensures prefixes == level
  {
    prefixes := [];
    for i := 0 to |cells|
      invariant prefixes == level[..i]
    {
      prefixes := prefixes + [cells[i].prefix];
    }
  }

  method CoverBox(box: BBox, maxPrecision: nat, maxCells: nat) returns (prefixes: seq<Hash>)
    ensures prefixes == Level(box, Stop(box, maxPrecision, maxCells))
  {
    hide ZoneOf;
    hide Refine;
    hide StopFrom;
    var cells := [Cell("", WORLD, true, WORLD.Inside(box))];
    ghost var level: seq<Hash> := [""];
    ghost var stop := Stop(box, maxPrecision, maxCells);
    var k := 0;
    RootMirrors(box);
    while k < maxPrecision
      invariant k <= maxPrecision && level == Level(box, k) && Mirrors(cells, level, box)
      invariant stop == StopFrom(box, k, maxPrecision, maxCells)
    {
      FinishedMeansSettled(cells, level, box);
      StopUnfolds(box, k, maxPrecision, maxCells);
      if Finished(cells) {
        break;
      }
      var next := RefineCells(cells, box, level);
      assert Refine(level, box) == Level(box, k + 1);
      if |next| > maxCells {
        break;
      }
      cells, level, k := next, Refine(level, box), k + 1;
    }
    StopUnfolds(box, k, maxPrecision, maxCells);
    prefixes := Prefixes(cells, box, level);
  }

  // ------------------------------------------------- what the levels contain

  function Cut(h: Hash, n: nat): Hash
    requires n <= |h|
  {
    h[..n]
  }

  /** The cells a refinement to depth `k` should keep: those that meet the box, that lie inside it
      unless they are at depth `k`, and none of whose ancestors already lies inside it. */
  ghost predicate InLevel(box: BBox, k: nat, h: Hash) {
    && |h| <= k
    && (h != "" ==> Bounds(h).Intersects(box))
    && (|h| < k ==> Bounds(h).Inside(box))
    && forall j: nat | j < |h| :: !Bounds(Cut(h, j)).Inside(box)
  }

  lemma {:induction false} MeetingChildrenMembers(h: Hash, box: BBox, n: nat, g: Hash)
    requires n <= 32
    ensures g in MeetingChildren(h, box, n) <==>
            |g| == |h| + 1 && Cut(g, |h|) == h && IndexOf(g[|h|]) < n && Bounds(g).Intersects(box)
  {
    if n > 0 {
      MeetingChildrenMembers(h, box, n - 1, g);
      IndexOfLetter(n - 1);
      if |g| == |h| + 1 && Cut(g, |h|) == h {
        assert g == h + [g[|h|]];
        assert g == ChildHash(h, n - 1) <==> IndexOf(g[|h|]) == n - 1;
      }
    }
  }

  lemma {:induction false} RefineMembers(level: seq<Hash>, box: BBox, g: Hash)
    ensures g in Refine(level, box) <==> exists h :: h in level && g in Expand(h, box)
  {
    hide ZoneOf;
    if level != [] {
      var rest, last := level[..|level| - 1], level[|level| - 1];
      RefineMembers(rest, box, g);
      assert level == rest + [last];
    }
  }

  lemma ExpandKeepsInLevel(box: BBox, k: nat, h: Hash, g: Hash)
    requires InLevel(box, k, h) && g in Expand(h, box)
    ensures InLevel(box, k + 1, g)
  {
    if !Bounds(h).Inside(box) {
      MeetingChildrenMembers(h, box, 32, g);
      assert forall j: nat | j < |h| :: Cut(g, j) == Cut(h, j);
    }
  }

  lemma InLevelComesFromParent(box: BBox, k: nat, g: Hash) returns (h: Hash)
    requires InLevel(box, k + 1, g)
    ensures InLevel(box, k, h) && g in Expand(h, box)
  {
    if |g| <= k {
      h := g;
    } else {
      h := Cut(g, k);
      PrefixContains(g, k);
      assert forall j: nat | j < k :: Cut(h, j) == Cut(g, j);
      MeetingChildrenMembers(h, box, 32, g);
    }
  }

  /** The level computed by refinement is exactly the one described by `InLevel`. */
  lemma {:induction false} LevelMembers(box: BBox, k: nat, g: Hash)
    ensures g in Level(box, k) <==> InLevel(box, k, g)
    decreases k
  {
    hide ZoneOf;
    hide Refine;
    hide Expand;
    if k > 0 {
      RefineMembers(Level(box, k - 1), box, g);
      if g in Level(box, k) {
        var h :| h in Level(box, k - 1) && g in Expand(h, box);
        LevelMembers(box, k - 1, h);
        ExpandKeepsInLevel(box, k - 1, h, g);
      }
      if InLevel(box, k, g) {
        var h := InLevelComesFromParent(box, k - 1, g);
        LevelMembers(box, k - 1, h);
      }
    }
  }

  // ----------------------------------------------------------- no redundancy

  /** No element is a prefix of another (so in particular none occurs twice). */
  ghost predicate Antichain(s: seq<string>) {
    forall i, j | 0 <= i < |s| && 0 <= j < |s| && s[i] <= s[j] :: i == j
  }

  ghost predicate Distinct(s: seq<string>) {
    forall i, j | 0 <= i < j < |s| :: s[i] != s[j]
  }

  lemma DistinctJoin(a: seq<string>, b: seq<string>)
    requires Distinct(a) && Distinct(b) && forall x | x in a :: x !in b
    ensures Distinct(a + b)
  {
    forall i, j | 0 <= i < j < |a + b|
      ensures (a + b)[i] != (a + b)[j]
    {
      if i < |a| <= j {
        assert a[i] in a && b[j - |a|] in b;
      }
    }
  }

  lemma {:induction false} MeetingChildrenDistinct(h: Hash, box: BBox, n: nat)
    requires n <= 32
    ensures Distinct(MeetingChildren(h, box, n))
  {
    hide ZoneOf;
    if n > 0 {
      MeetingChildrenDistinct(h, box, n - 1);
      var g := ChildHash(h, n - 1);
      MeetingChildrenMembers(h, box, n - 1, g);
      IndexOfLetter(n - 1);
    }
  }

  lemma ExpandExtends(h: Hash, box: BBox, g: Hash)
    requires g in Expand(h, box)
    ensures h <= g
  {
    MeetingChildrenMembers(h, box, 32, g);
  }

  lemma ExpansionsDisjoint(level: seq<Hash>, i: nat, j: nat, box: BBox, g: Hash)
    requires Antichain(level) && i < j < |level| && g in Expand(level[i], box)
    ensures g !in Expand(level[j], box)
  {
    ExpandExtends(level[i], box, g);
    assert !(level[i] <= level[j]) && !(level[j] <= level[i]);
    if g in Expand(level[j], box) {
      ExpandExtends(level[j], box, g);
      assert false;
    }
  }

  lemma AntichainRest(level: seq<string>)
    requires Antichain(level) && level != []
    ensures Antichain(level[..|level| - 1])
  {}

  lemma RefineEmpty(box: BBox)
    ensures Refine([], box) == [] && Distinct([])
  {}

  lemma ExpandDistinct(h: Hash, box: BBox)
    ensures Distinct(Expand(h, box))
  {
    hide ZoneOf, MeetingChildren;
    MeetingChildrenDistinct(h, box, 32);
  }

  lemma {:induction false} RefineDistinct(level: seq<Hash>, box: BBox)
    requires Antichain(level)
    ensures Distinct(Refine(level, box))
  {
    hide ZoneOf, Expand, Distinct, Antichain;
    RefineEmpty(box);
    if level != [] {
      var n := |level| - 1;
      var rest, last := level[..n], level[n];
      AntichainRest(level);
      RefineDistinct(rest, box);
      ExpandDistinct(last, box);
      forall g | g in Refine(rest, box)
        ensures g !in Expand(last, box)
      {
        RefineMembers(rest, box, g);
        var h :| h in rest && g in Expand(h, box);
        var i :| 0 <= i < n && rest[i] == h;
        ExpansionsDisjoint(level, i, n, box, g);
      }
      DistinctJoin(Refine(rest, box), Expand(last, box));
    }
  }

  /** No cell of a level contains another. */
  lemma {:induction false} LevelAntichain(box: BBox, k: nat)
    ensures Antichain(Level(box, k))
  {
    hide ZoneOf;
    hide Refine;
    if k > 0 {
      LevelAntichain(box, k - 1);
      var level := Level(box, k);
      RefineDistinct(Level(box, k - 1), box);
      forall i, j | 0 <= i < |level| && 0 <= j < |level| && level[i] <= level[j]
        ensures i == j
      {
        LevelMembers(box, k, level[i]);
        LevelMembers(box, k, level[j]);
        assert Cut(level[j], |level[i]|) == level[i];
        assert level[i] == level[j];
      }
    }
  }

  // ------------------------------------------------------------ completeness

  /** A hash all of whose first `k` ancestors meet the box has an ancestor in level `k`. */
  lemma LevelCovers(box: BBox, k: nat, g: Hash)
    requires k <= |g| && forall j: nat | j <= k :: Bounds(Cut(g, j)).Intersects(box)
    ensures exists i :: 0 <= i < |Level(box, k)| && Level(box, k)[i] <= g
  {
    hide ZoneOf;
    hide Level;
    var n := 0;
    while n < k && !Bounds(Cut(g, n)).Inside(box)
      invariant n <= k && forall j: nat | j < n :: !Bounds(Cut(g, j)).Inside(box)
    {
      n := n + 1;
    }
    var h := Cut(g, n);
    assert forall j: nat | j < n :: Cut(h, j) == Cut(g, j);
    LevelMembers(box, k, h);
    assert h in Level(box, k) && h <= g;
  }

  // -------------------------------------------------------------- optimality

  /** The closed cells of the 32 children cover their parent. */
  lemma ChildrenCoverParent(h: Hash, lat: real, lon: real) returns (digit: nat)
    requires Bounds(h).Contains(lat, lon)
    ensures digit < 32 && Bounds(ChildHash(h, digit)).Contains(lat, lon)
  {
    ZoneSolid(h);
    FollowContains(ZoneOf(h), lat, lon, 5);
    digit := Digit(ZoneOf(h), lat, lon);
    DescendOwns(ZoneOf(h), digit, 5, lat, lon);
  }

  /** A cell that meets a proper box has a child that meets it: the one around a common point. */
  lemma SomeChildMeets(h: Hash, box: BBox) returns (digit: nat)
    requires box.Proper() && Bounds(h).Intersects(box)
    ensures digit < 32 && Bounds(ChildHash(h, digit)).Intersects(box)
  {
    var b := Bounds(h);
    var lat, lon := Max(b.minLat, box.minLat), Max(b.minLon, box.minLon);
    ZoneSolid(h);
    digit := ChildrenCoverParent(h, lat, lon);
  }

  lemma {:induction false} FollowContains(z: Zone, lat: real, lon: real, k: nat)
    requires z.bounds.Contains(lat, lon)
    ensures Follow(z, lat, lon, k).bounds.Contains(lat, lon)
  {
    if k > 0 { FollowContains(z, lat, lon, k - 1); }
  }

  lemma {:induction false} RefineGrows(level: seq<Hash>, box: BBox)
    requires box.Proper() && forall i | 0 <= i < |level| :: Bounds(level[i]).Intersects(box)
    ensures |Refine(level, box)| >= |level|
  {
    hide ZoneOf;
    if level != [] {
      var last := level[|level| - 1];
      RefineGrows(level[..|level| - 1], box);
      if !Bounds(last).Inside(box) {
        var d := SomeChildMeets(last, box);
        IndexOfLetter(d);
        MeetingChildrenMembers(last, box, 32, ChildHash(last, d));
      }
    }
  }

  lemma {:induction false} RefineSettled(level: seq<Hash>, box: BBox)
    requires Settled(level, box)
    ensures Refine(level, box) == level
  {
    if level != [] {
      RefineSettled(level[..|level| - 1], box);
    }
  }

  lemma LevelMeets(box: BBox, k: nat)
    requires WORLD.Intersects(box)
    ensures forall i | 0 <= i < |Level(box, k)| :: Bounds(Level(box, k)[i]).Intersects(box)
  {
    forall i | 0 <= i < |Level(box, k)|
      ensures Bounds(Level(box, k)[i]).Intersects(box)
    {
      LevelMembers(box, k, Level(box, k)[i]);
    }
  }

  /** Successive levels never shrink. */
  lemma {:induction false} LevelsGrow(box: BBox, j: nat, k: nat)
    requires box.Proper() && WORLD.Intersects(box) && j <= k
    ensures |Level(box, j)| <= |Level(box, k)|
    decreases k
  {
    hide ZoneOf;
    hide Refine;
    if j < k {
      LevelsGrow(box, j, k - 1);
      LevelMeets(box, k - 1);
      RefineGrows(Level(box, k - 1), box);
    }
  }

  lemma {:induction false} SettledLevelsAgree(box: BBox, j: nat, k: nat)
    requires j <= k && Settled(Level(box, j), box)
    ensures Level(box, k) == Level(box, j)
    decreases k
  {
    hide ZoneOf;
    hide Refine;
    if j < k {
      SettledLevelsAgree(box, j, k - 1);
      RefineSettled(Level(box, k - 1), box);
    }
  }

  lemma {:induction false} StopFromBounds(box: BBox, k: nat, maxPrecision: nat, maxCells: nat)
    requires k <= maxPrecision && (k == 0 || |Level(box, k)| <= maxCells)
    ensures var s := StopFrom(box, k, maxPrecision, maxCells);
            && k <= s <= maxPrecision
            && (s == 0 || |Level(box, s)| <= maxCells)
            && (s == maxPrecision || Settled(Level(box, s), box) || |Level(box, s + 1)| > maxCells)
    decreases maxPrecision - k
  {
    hide ZoneOf;
    hide Level;
    hide StopFrom;
    StopUnfolds(box, k, maxPrecision, maxCells);
    if k < maxPrecision && !Settled(Level(box, k), box) && |Level(box, k + 1)| <= maxCells {
      StopFromBounds(box, k + 1, maxPrecision, maxCells);
    }
  }

  /** Stopping at the first overflow is optimal: the result fits a nonzero budget, and every finer
      level within the precision limit either is the same set of cells or does not fit. */
  lemma CoverIsFinestThatFits(box: BBox, maxPrecision: nat, maxCells: nat, k: nat)
    requires box.Proper() && WORLD.Intersects(box)
    ensures var s := Stop(box, maxPrecision, maxCells);
            && s <= maxPrecision
            && (maxCells >= 1 ==> |Level(box, s)| <= maxCells)
            && (s < k <= maxPrecision ==> Level(box, k) == Level(box, s) || |Level(box, k)| > maxCells)
  {
    hide ZoneOf;
    hide StopFrom;
    hide Refine;
    StopFromBounds(box, 0, maxPrecision, maxCells);
    var s := Stop(box, maxPrecision, maxCells);
    if s < k <= maxPrecision {
      if Settled(Level(box, s), box) {
        SettledLevelsAgree(box, s, k);
      } else {
        LevelsGrow(box, s + 1, k);
      }
    }
  }

  /** The budget holds exactly when it is nonzero: with `maxCells == 0` the world cell remains. */
  lemma ZeroBudgetStillCoversWithTheWorld(box: BBox, maxPrecision: nat)
    requires box.Proper() && WORLD.Intersects(box)
    ensures Level(box, Stop(box, maxPrecision, 0)) == [""]
  {
    StopFromBounds(box, 0, maxPrecision, 0);
    LevelsGrow(box, 0, Stop(box, maxPrecision, 0));
  }
}
