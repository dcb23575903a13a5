/** The table of static vessel data: a log of inserts of which the database shows, per vessel, the row
    with the greatest timestamp, and among equal timestamps the one inserted last. */
module StaticsTable {
  import opened AisTypes

  /** What a row says of a vessel; a text or number that was not reported is empty or 0. */
  datatype Columns = Columns(
    name: string, callSign: string, imo: nat, shipType: nat, destination: string, draught: real,
    dimension: Dimension)

  /** The timestamp is the number its digits spell, from the year to the millisecond. */
  datatype Static = Static(ts: nat, mmsi: nat, columns: Columns)

  function Put(v: map<nat, Static>, r: Static): map<nat, Static> {
    if r.mmsi in v && v[r.mmsi].ts > r.ts then v else v[r.mmsi := r]
  }

  function Visible(log: seq<Static>): map<nat, Static> {
    if log == [] then map[] else Put(Visible(log[..|log| - 1]), log[|log| - 1])
  }

  lemma VisibleGrows(log: seq<Static>, r: Static)
    ensures Visible(log + [r]) == Put(Visible(log), r)
  {
    assert (log + [r])[..|log|] == log;
  }

  /** Row `i` is a newest one of its vessel, and the last inserted of those. */
  ghost predicate Newest(log: seq<Static>, mmsi: nat, i: nat) {
    && i < |log| && log[i].mmsi == mmsi
    && (forall j | 0 <= j < i && log[j].mmsi == mmsi :: log[j].ts <= log[i].ts)
    && (forall j | i < j < |log| && log[j].mmsi == mmsi :: log[j].ts < log[i].ts)
  }

  /** A vessel shows once it has a row, and what shows is its newest row. */
  lemma {:induction false} VisibleIsNewest(log: seq<Static>, mmsi: nat) returns (i: nat)
    ensures mmsi in Visible(log) ==> Newest(log, mmsi, i) && Visible(log)[mmsi] == log[i]
    ensures mmsi !in Visible(log) ==> forall j | 0 <= j < |log| :: log[j].mmsi != mmsi
  {
    i := 0;
    if log != [] {
      var init, n := log[..|log| - 1], |log| - 1;
      i := VisibleIsNewest(init, mmsi);
      assert forall j | 0 <= j < n :: log[j] == init[j];
      if log[n].mmsi == mmsi && (mmsi !in Visible(init) || log[n].ts >= init[i].ts) {
        i := n;
      }
    }
  }

  /** A row in the log is never newer than what shows for its vessel. */
  lemma InsertedIsCovered(log: seq<Static>, r: Static)
    requires r in log
    ensures r.mmsi in Visible(log) && Visible(log)[r.mmsi].ts >= r.ts
  {
    hide Visible;
    var i := VisibleIsNewest(log, r.mmsi);
    var k :| 0 <= k < |log| && log[k] == r;
  }

  /** Rows of different vessels. */
  ghost predicate OnePerVessel(rows: seq<Static>) {
    forall i, j | 0 <= i < j < |rows| :: rows[i].mmsi != rows[j].mmsi
  }

  /** The row shows already, or a newer one does. */
  predicate Settled(log: seq<Static>, r: Static) {
    r.mmsi in Visible(log) && (Visible(log)[r.mmsi] == r || Visible(log)[r.mmsi].ts > r.ts)
  }

  lemma {:induction false} AppendShows(log: seq<Static>, rows: seq<Static>, mmsi: nat)
    requires OnePerVessel(rows)
    ensures (forall i | 0 <= i < |rows| :: rows[i].mmsi != mmsi) ==>
              (mmsi in Visible(log + rows) <==> mmsi in Visible(log)) &&
              (mmsi in Visible(log) ==> Visible(log + rows)[mmsi] == Visible(log)[mmsi])
    ensures forall i | 0 <= i < |rows| && rows[i].mmsi == mmsi ::
              mmsi in Visible(log + rows) &&
              Visible(log + rows)[mmsi] ==
                if mmsi in Visible(log) && Visible(log)[mmsi].ts > rows[i].ts then Visible(log)[mmsi] else rows[i]
  {
    if rows == [] {
      assert log + rows == log;
    } else {
      hide Visible;
      var init, r := rows[..|rows| - 1], rows[|rows| - 1];
      AppendShows(log, init, mmsi);
      assert log + rows == (log + init) + [r];
      VisibleGrows(log + init, r);
      assert forall i | 0 <= i < |init| :: rows[i] == init[i];
    }
  }

  /** Inserting a file's rows, for the first time or again, changes nothing that shows exactly when
      each of them shows already or is older than what does. */
  lemma InsertChangesNothingIff(log: seq<Static>, rows: seq<Static>)
    requires OnePerVessel(rows)
    ensures Visible(log + rows) == Visible(log) <==> forall r | r in rows :: Settled(log, r)
  {
    forall mmsi: nat { AppendShows(log, rows, mmsi); }
    hide Visible;
    if forall r | r in rows :: Settled(log, r) {
      forall mmsi: nat
        ensures mmsi in Visible(log + rows) <==> mmsi in Visible(log)
        ensures mmsi in Visible(log) ==> Visible(log + rows)[mmsi] == Visible(log)[mmsi]
      {
        if i :| 0 <= i < |rows| && rows[i].mmsi == mmsi {
          assert rows[i] in rows && Settled(log, rows[i]);
        }
      }
      assert Visible(log + rows) == Visible(log);
    }
    if Visible(log + rows) == Visible(log) {
      forall r | r in rows ensures Settled(log, r) {
        var i :| 0 <= i < |rows| && rows[i] == r;
      }
    }
  }

  /** A row inserted before is unsettled only by a tie: another row of the same vessel and timestamp
      shows in its place. */
  lemma UnsettledMeansTied(log: seq<Static>, r: Static)
    requires r in log
    ensures r.mmsi in Visible(log)
    ensures !Settled(log, r) <==> Visible(log)[r.mmsi].ts == r.ts && Visible(log)[r.mmsi] != r
  {
    InsertedIsCovered(log, r);
  }

  lemma NothingShows()
    ensures Visible([]) == map[]
  {}

  /** Such a tie: the vessel's later row gives way to the re-inserted one. */
  lemma TieIsOverwritten(ts: nat, mmsi: nat, was: Columns, now: Columns)
    requires was != now
    ensures var r, live := Static(ts, mmsi, was), Static(ts, mmsi, now);
            Visible([r, live]) == map[mmsi := live] && Visible([r, live, r]) == map[mmsi := r]
  {
    var r, live := Static(ts, mmsi, was), Static(ts, mmsi, now);
    NothingShows();
    hide Visible;
    VisibleGrows([], r);
    VisibleGrows([r], live);
    VisibleGrows([r, live], r);
    assert [] + [r] == [r] && [r] + [live] == [r, live] && [r, live] + [r] == [r, live, r];
  }

  /** What an extra early insert of `r` may leave behind until `r` is inserted again. */
  ghost predicate Trace(with: map<nat, Static>, without: map<nat, Static>, r: Static) {
    && (forall m | m != r.mmsi :: m in with <==> m in without)
    && (forall m | m != r.mmsi && m in with :: with[m] == without[m])
    && r.mmsi in with
    && (r.mmsi !in without || with[r.mmsi] != without[r.mmsi] ==>
          with[r.mmsi] == r && (r.mmsi in without ==> without[r.mmsi].ts <= r.ts))
  }

  lemma TraceStep(with: map<nat, Static>, without: map<nat, Static>, r: Static, next: Static)
    requires Trace(with, without, r)
    ensures Trace(Put(with, next), Put(without, next), r)
    ensures next == r ==> Put(with, r) == Put(without, r)
  {}

  lemma {:induction false} ExtraInsertTrace(x: seq<Static>, r: Static, y: seq<Static>)
    ensures Trace(Visible(x + [r] + y), Visible(x + y), r)
    decreases |y|
  {
    if y == [] {
      assert x + [r] + y == x + [r] && x + y == x;
      VisibleGrows(x, r);
      VisibleKeys(x);
    } else {
      hide Visible, Put, Trace;
      var init, last := y[..|y| - 1], y[|y| - 1];
      ExtraInsertTrace(x, r, init);
      TraceStep(Visible(x + [r] + init), Visible(x + init), r, last);
      assert x + [r] + y == (x + [r] + init) + [last] && x + y == (x + init) + [last];
      VisibleGrows(x + [r] + init, last);
      VisibleGrows(x + init, last);
    }
  }

  lemma {:induction false} VisibleKeys(log: seq<Static>)
    ensures forall m | m in Visible(log) :: Visible(log)[m].mmsi == m
  {
    if log != [] { VisibleKeys(log[..|log| - 1]); }
  }

  /** An insert that is made again later leaves no trace, whatever comes in between. */
  lemma {:induction false} EarlierInsertLeavesNoTrace(x: seq<Static>, r: Static, y: seq<Static>)
    requires r in y
    ensures Visible(x + [r] + y) == Visible(x + y)
    decreases |y|
  {
    var init, last := y[..|y| - 1], y[|y| - 1];
    assert x + [r] + y == (x + [r] + init) + [last] && x + y == (x + init) + [last];
    VisibleGrows(x + [r] + init, last);
    VisibleGrows(x + init, last);
    hide Visible, Put, Trace;
    if last == r {
      ExtraInsertTrace(x, r, init);
      TraceStep(Visible(x + [r] + init), Visible(x + init), r, r);
    } else {
      EarlierInsertLeavesNoTrace(x, r, init);
    }
  }

  /** So a failed attempt that stored any of a file's rows shows nowhere once the file is imported. */
  lemma {:induction false} RetriedImportLeavesNoTrace(x: seq<Static>, stored: seq<Static>, y: seq<Static>)
    requires forall r | r in stored :: r in y
    ensures Visible(x + stored + y) == Visible(x + y)
    decreases |stored|
  {
    if stored == [] {
      assert x + stored == x;
    } else {
      var r, rest := stored[0], stored[1..];
      assert x + stored + y == x + [r] + (rest + y);
      EarlierInsertLeavesNoTrace(x, r, rest + y);
      assert x + (rest + y) == x + rest + y;
      RetriedImportLeavesNoTrace(x, rest, y);
    }
  }

  /** What shows after more rows depends only on what showed before. */
  lemma {:induction false} AppendAlike(a: seq<Static>, b: seq<Static>, more: seq<Static>)
    requires Visible(a) == Visible(b)
    ensures Visible(a + more) == Visible(b + more)
    decreases |more|
  {
    if more == [] {
      assert a + more == a && b + more == b;
    } else {
      var init, last := more[..|more| - 1], more[|more| - 1];
      AppendAlike(a, b, init);
      assert a + more == (a + init) + [last] && b + more == (b + init) + [last];
      VisibleGrows(a + init, last);
      VisibleGrows(b + init, last);
    }
  }

  // ------------------------------------------------------------- vessel names

  function NamedRows(log: seq<Static>): seq<Static> {
    if log == [] then [] else
      NamedRows(log[..|log| - 1]) + (if log[|log| - 1].columns.name != "" then [log[|log| - 1]] else [])
  }

  /** The name the table shows; empty without a row. */
  function ShownName(log: seq<Static>, mmsi: nat): string {
    if mmsi in Visible(log) then Visible(log)[mmsi].columns.name else ""
  }

  /** The latest name ever reported; empty without one. */
  function LatestName(log: seq<Static>, mmsi: nat): string {
    if mmsi in Visible(NamedRows(log)) then Visible(NamedRows(log))[mmsi].columns.name else ""
  }

  /** A named row that shows is the newest of the named rows, and never older than one that is. */
  lemma {:induction false} ShownNamedRowIsLatest(log: seq<Static>, mmsi: nat)
    ensures mmsi in Visible(NamedRows(log)) ==>
              && mmsi in Visible(log) && Visible(NamedRows(log))[mmsi].columns.name != ""
              && Visible(log)[mmsi].ts >= Visible(NamedRows(log))[mmsi].ts
    ensures mmsi in Visible(log) && Visible(log)[mmsi].columns.name != "" ==>
              mmsi in Visible(NamedRows(log)) && Visible(NamedRows(log))[mmsi] == Visible(log)[mmsi]
  {
    if log != [] {
      var init, last := log[..|log| - 1], log[|log| - 1];
      ShownNamedRowIsLatest(init, mmsi);
      assert log == init + [last];
      VisibleGrows(init, last);
      VisibleGrows(NamedRows(init), last);
      assert NamedRows(init) + [] == NamedRows(init);
      hide Visible;
    }
  }

  /** The table shows a vessel's latest name exactly when the row it shows has a name, or no row ever
      had one. */
  lemma LatestNameShowsIff(log: seq<Static>, mmsi: nat)
    ensures ShownName(log, mmsi) == LatestName(log, mmsi) <==>
            (mmsi in Visible(log) && Visible(log)[mmsi].columns.name != "") || mmsi !in Visible(NamedRows(log))
  {
    ShownNamedRowIsLatest(log, mmsi);
  }

  /** A newest row without a name hides the vessel's name. */
  lemma UnnamedRowHides(log: seq<Static>, r: Static)
    requires r.columns.name == "" && (r.mmsi in Visible(log) ==> Visible(log)[r.mmsi].ts <= r.ts)
    ensures ShownName(log + [r], r.mmsi) == "" && LatestName(log + [r], r.mmsi) == LatestName(log, r.mmsi)
  {
    VisibleGrows(log, r);
    assert (log + [r])[..|log|] == log && NamedRows(log) + [] == NamedRows(log);
    hide Visible;
  }
}
