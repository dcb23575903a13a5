/** The importer's run: poll cycles over the database, any statement of which may fail, possibly having
    taken part of its effect, and any point of which may be the last before a restart. */
module ImportProtocol {
  import opened DmaImport
  import opened StaticsTable

  /** The rows of station `import:dma`, the log of static inserts, and the import records. */
  datatype Database = Database(positions: seq<Row>, statics: seq<Static>, records: seq<(string, nat)>)

  /** Between cycles; with files left to import; with the next file's day cleared; with `batches`
      of the downloaded file inserted; with everything inserted and only the record to write. */
  datatype Phase =
    | Idle
    | Planned(todo: seq<File>)
    | Deleted(file: File, todo: seq<File>)
    | Inserting(file: File, todo: seq<File>, lines: seq<Line>, batches: nat)
    | Inserted(file: File, todo: seq<File>, lines: seq<Line>)

  /** `truth` maps each recorded file to the contents downloaded in the attempt that recorded it. */
  datatype State = State(db: Database, phase: Phase, truth: map<string, seq<Line>>)

  const START := State(Database([], [], []), Idle, map[])

  datatype Event =
    | Poll(files: seq<File>, cutoff: int, maxFiles: nat)
    | Finish
    | DeleteOk
    | DeleteFails(left: seq<Row>)
    | Download(lines: seq<Line>)
    | InsertOk
    | InsertFails(stored: seq<Row>)
    | StaticsOk(statics: seq<Static>)
    | StaticsFail(statics: seq<Static>)
    | RecordOk
    | RecordFails(applied: bool)
    | Crash
    | Live(row: Static)

  function OnDate(rows: seq<Row>, date: nat): seq<Row> {
    if rows == [] then [] else
      OnDate(rows[..|rows| - 1], date) + (if rows[|rows| - 1].Date() == date then [rows[|rows| - 1]] else [])
  }

  function NotOnDate(rows: seq<Row>, date: nat): seq<Row> {
    if rows == [] then [] else
      NotOnDate(rows[..|rows| - 1], date) + (if rows[|rows| - 1].Date() == date then [] else [rows[|rows| - 1]])
  }

  /** The files `imported_files` reads back. */
  function DoneFiles(records: seq<(string, nat)>): set<string> {
    set i | 0 <= i < |records| :: records[i].0
  }

  ghost predicate Dated(rows: seq<Row>, date: nat) {
    forall i | 0 <= i < |rows| :: rows[i].Date() == date
  }

  /** The statics in some order, each once. */
  ghost predicate Lists(order: seq<Static>, statics: map<nat, Static>) {
    && OnePerVessel(order)
    && (forall r | r in order :: r.mmsi in statics && statics[r.mmsi] == r)
    && (forall mmsi | mmsi in statics :: statics[mmsi] in order)
  }

  /** A failed delete may have removed some of the day's rows, a failed insert may have stored any
      rows of its batch or any of the statics; a downloaded file's rows carry the file's date. `Live` is
      an insert of the archiver, which shares the table of statics. */
  ghost predicate Enabled(s: State, e: Event) {
    match e
    case Poll(files, _, _) => s.phase.Idle? && forall f | f in files :: WellNamed(f)
    case Finish => s.phase.Planned? && s.phase.todo == []
    case DeleteOk => s.phase.Planned? && s.phase.todo != []
    case DeleteFails(left) =>
      && s.phase.Planned? && s.phase.todo != []
      && forall d: nat | d != s.phase.todo[0].date :: OnDate(left, d) == OnDate(s.db.positions, d)
    case Download(lines) => s.phase.Deleted? && Dated(Rows(lines), s.phase.file.date)
    case InsertOk => s.phase.Inserting? && s.phase.batches <= |Rows(s.phase.lines)| / INSERT_BATCH
    case InsertFails(stored) =>
      && s.phase.Inserting? && s.phase.batches <= |Rows(s.phase.lines)| / INSERT_BATCH
      && forall r | r in stored :: r in Batch(Rows(s.phase.lines), s.phase.batches)
    case StaticsOk(order) =>
      && s.phase.Inserting? && s.phase.batches == |Rows(s.phase.lines)| / INSERT_BATCH + 1
      && Lists(order, Statics(s.phase.lines))
    case StaticsFail(stored) =>
      && s.phase.Inserting? && s.phase.batches == |Rows(s.phase.lines)| / INSERT_BATCH + 1
      && forall r | r in stored :: r.mmsi in Statics(s.phase.lines) && Statics(s.phase.lines)[r.mmsi] == r
    case RecordOk => s.phase.Inserted?
    case RecordFails(_) => s.phase.Inserted?
    case Crash => true
    case Live(_) => true
  }

  function Record(s: State): State
    requires s.phase.Inserted?
  {
    var name, lines := s.phase.file.name, s.phase.lines;
    s.(db := s.db.(records := s.db.records + [(name, |Rows(lines)|)]), truth := s.truth[name := lines])
  }

  function Next(s: State, e: Event): State
    requires Enabled(s, e)
  {
    match e
    case Poll(files, cutoff, maxFiles) =>
      s.(phase := Planned(PlanImports(files, cutoff, DoneFiles(s.db.records), maxFiles)))
    case Finish => s.(phase := Idle)
    case DeleteOk =>
      s.(db := s.db.(positions := NotOnDate(s.db.positions, s.phase.todo[0].date)),
         phase := Deleted(s.phase.todo[0], s.phase.todo[1..]))
    case DeleteFails(left) => s.(db := s.db.(positions := left), phase := Idle)
    case Download(lines) => s.(phase := Inserting(s.phase.file, s.phase.todo, lines, 0))
    case InsertOk =>
      s.(db := s.db.(positions := s.db.positions + Batch(Rows(s.phase.lines), s.phase.batches)),
         phase := s.phase.(batches := s.phase.batches + 1))
    case InsertFails(stored) => s.(db := s.db.(positions := s.db.positions + stored), phase := Idle)
    case StaticsOk(statics) =>
      s.(db := s.db.(statics := s.db.statics + statics), phase := Inserted(s.phase.file, s.phase.todo, s.phase.lines))
    case StaticsFail(statics) => s.(db := s.db.(statics := s.db.statics + statics), phase := Idle)
    case RecordOk => Record(s).(phase := Planned(s.phase.todo))
    case RecordFails(applied) => (if applied then Record(s) else s).(phase := Idle)
    case Crash => s.(phase := Idle)
    case Live(row) => s.(db := s.db.(statics := s.db.statics + [row]))
  }

  // ------------------------------------------------------------ rows by date

  lemma {:induction false} OnDateJoins(a: seq<Row>, b: seq<Row>, d: nat)
    ensures OnDate(a + b, d) == OnDate(a, d) + OnDate(b, d)
    decreases |b|
  {
    if b == [] {
      assert a + b == a;
    } else {
      OnDateJoins(a, b[..|b| - 1], d);
      assert (a + b)[..|a + b| - 1] == a + b[..|b| - 1];
    }
  }

  lemma {:induction false} OnDateAll(rows: seq<Row>, date: nat, d: nat)
    requires Dated(rows, date)
    ensures OnDate(rows, d) == if d == date then rows else []
  {
    if rows != [] { OnDateAll(rows[..|rows| - 1], date, d); }
  }

  lemma {:induction false} DeleteClears(rows: seq<Row>, date: nat, d: nat)
    ensures OnDate(NotOnDate(rows, date), d) == if d == date then [] else OnDate(rows, d)
  {
    if rows != [] {
      var init, last := rows[..|rows| - 1], rows[|rows| - 1];
      DeleteClears(init, date, d);
      OnDateJoins(NotOnDate(init, date), if last.Date() == date then [] else [last], d);
      assert last.Date() != date ==> [last][..0] == [];
    }
  }

  // -------------------------------------------------------------- invariant

  /** Every recorded file was recorded once, with its row count, and its day's rows are in `positions`
      exactly: each once, in order, and no others. All its statics were inserted. */
  ghost predicate RecordsHold(db: Database, truth: map<string, seq<Line>>) {
    && (forall i | 0 <= i < |db.records| ::
          var (name, count) := db.records[i]; name in truth && count == |Rows(truth[name])|)
    && (forall i, j | 0 <= i < j < |db.records| :: db.records[i].0 != db.records[j].0)
    && truth.Keys == DoneFiles(db.records)
    && (forall d: nat | d < 1_0000_0000 && NameOf(d) in truth :: OnDate(db.positions, d) == Rows(truth[NameOf(d)]))
    && (forall name | name in truth :: AllIn(Statics(truth[name]), db.statics))
  }

  ghost predicate AllIn(statics: map<nat, Static>, log: seq<Static>) {
    forall mmsi | mmsi in statics :: statics[mmsi] in log
  }

  /** Files still to do: well named, none recorded, none twice. */
  ghost predicate Pending(todo: seq<File>, truth: map<string, seq<Line>>) {
    && (forall i | 0 <= i < |todo| :: WellNamed(todo[i]) && todo[i].name !in truth)
    && (forall i, j | 0 <= i < j < |todo| :: todo[i].date != todo[j].date)
  }

  ghost predicate PhaseHolds(s: State) {
    match s.phase
    case Idle => true
    case Planned(todo) => Pending(todo, s.truth)
    case Deleted(file, todo) => Pending([file] + todo, s.truth) && OnDate(s.db.positions, file.date) == []
    case Inserting(file, todo, lines, n) =>
      && Pending([file] + todo, s.truth) && Dated(Rows(lines), file.date) && n <= |Rows(lines)| / INSERT_BATCH + 1
      && OnDate(s.db.positions, file.date) == Rows(lines)[..Upto(Rows(lines), n)]
    case Inserted(file, todo, lines) =>
      && Pending([file] + todo, s.truth) && Dated(Rows(lines), file.date)
      && OnDate(s.db.positions, file.date) == Rows(lines) && AllIn(Statics(lines), s.db.statics)
  }

  ghost predicate Inv(s: State) {
    RecordsHold(s.db, s.truth) && PhaseHolds(s)
  }

  /** Changes to one unrecorded day leave every recorded file's rows alone. */
  lemma OtherDaysUntouched(s: State, file: File, positions: seq<Row>)
    requires RecordsHold(s.db, s.truth) && WellNamed(file) && file.name !in s.truth
    requires forall d: nat | d != file.date :: OnDate(positions, d) == OnDate(s.db.positions, d)
    ensures RecordsHold(s.db.(positions := positions), s.truth)
  {}

  lemma PlanIsPending(s: State, files: seq<File>, cutoff: int, maxFiles: nat)
    requires RecordsHold(s.db, s.truth) && forall f | f in files :: WellNamed(f)
    ensures Pending(PlanImports(files, cutoff, DoneFiles(s.db.records), maxFiles), s.truth)
  {
    PlanTakesTheNewest(files, cutoff, DoneFiles(s.db.records), maxFiles);
    PlannedDatesDescend(files, cutoff, DoneFiles(s.db.records), maxFiles);
    hide PlanImports;
    var plan := PlanImports(files, cutoff, DoneFiles(s.db.records), maxFiles);
    forall i | 0 <= i < |plan| ensures WellNamed(plan[i]) && plan[i].name !in s.truth {
      assert plan[i] in plan;
    }
  }

  lemma DeleteKeepsInv(s: State, e: Event)
    requires Inv(s) && Enabled(s, e) && (e.DeleteOk? || e.DeleteFails?)
    ensures Inv(Next(s, e))
  {
    hide OnDate, NotOnDate, NameOf, Rows, Statics;
    var file := s.phase.todo[0];
    var positions := Next(s, e).db.positions;
    if e.DeleteOk? {
      forall d: nat { DeleteClears(s.db.positions, file.date, d); }
      assert [file] + s.phase.todo[1..] == s.phase.todo;
    }
    OtherDaysUntouched(s, file, positions);
  }

  lemma AppendToDay(s: State, file: File, rows: seq<Row>)
    requires RecordsHold(s.db, s.truth) && WellNamed(file) && file.name !in s.truth && Dated(rows, file.date)
    ensures RecordsHold(s.db.(positions := s.db.positions + rows), s.truth)
    ensures OnDate(s.db.positions + rows, file.date) == OnDate(s.db.positions, file.date) + rows
  {
    hide OnDate, NameOf, RecordsHold, Rows, Statics;
    forall d: nat
      ensures OnDate(s.db.positions + rows, d) == OnDate(s.db.positions, d) + (if d == file.date then rows else [])
    {
      OnDateJoins(s.db.positions, rows, d);
      OnDateAll(rows, file.date, d);
    }
    OtherDaysUntouched(s, file, s.db.positions + rows);
  }

  lemma InsertKeepsInv(s: State, e: Event)
    requires Inv(s) && Enabled(s, e) && (e.InsertOk? || e.InsertFails?)
    ensures Inv(Next(s, e))
  {
    hide OnDate, NameOf, RecordsHold, Rows, Statics;
    var file, rows, n := s.phase.file, Rows(s.phase.lines), s.phase.batches;
    assert WellNamed(([file] + s.phase.todo)[0]) && file.name !in s.truth;
    match e {
      case InsertOk =>
        AppendToDay(s, file, Batch(rows, n));
        assert rows[..Upto(rows, n)] + Batch(rows, n) == rows[..Upto(rows, n + 1)];
      case InsertFails(stored) =>
        forall i | 0 <= i < |stored| ensures stored[i].Date() == file.date { assert stored[i] in stored; }
        AppendToDay(s, file, stored);
    }
  }

  lemma StaticsKeepInv(s: State, e: Event)
    requires Inv(s) && Enabled(s, e) && (e.StaticsOk? || e.StaticsFail? || e.Live?)
    ensures Inv(Next(s, e))
  {
    hide OnDate, NameOf, Rows, Statics, OnePerVessel;
    if !e.Live? {
      var rows := Rows(s.phase.lines);
      assert rows[..Upto(rows, |rows| / INSERT_BATCH + 1)] == rows;
    }
  }

  lemma RecordKeepsRecords(s: State)
    requires Inv(s) && s.phase.Inserted?
    ensures RecordsHold(Record(s).db, Record(s).truth) && Pending(s.phase.todo, Record(s).truth)
    ensures s.phase.file.name !in s.truth
  {
    hide OnDate, NameOf, Rows, Statics;
    var file, todo, r := s.phase.file, s.phase.todo, Record(s);
    var whole := [file] + todo;
    assert whole[0] == file && forall i | 0 <= i < |todo| :: whole[i + 1] == todo[i];
    DoneGrows(s.db.records, (file.name, |Rows(s.phase.lines)|));
    forall d: nat | d < 1_0000_0000 && NameOf(d) in r.truth
      ensures OnDate(r.db.positions, d) == Rows(r.truth[NameOf(d)])
    {
      if NameOf(d) == file.name { NamesAreDistinct(d, file.date); }
    }
    forall i | 0 <= i < |todo| ensures todo[i].name != file.name {
      if todo[i].name == file.name { NamesAreDistinct(todo[i].date, file.date); }
    }
  }

  lemma DoneGrows(records: seq<(string, nat)>, r: (string, nat))
    ensures DoneFiles(records + [r]) == DoneFiles(records) + {r.0}
  {
    var all := records + [r];
    assert all[|records|] == r;
    forall n | n in DoneFiles(records) ensures n in DoneFiles(all) {
      var i :| 0 <= i < |records| && records[i].0 == n;
      assert all[i].0 == n;
    }
  }

  /** Every step keeps the invariant and never touches a recorded file again. */
  lemma StepKeepsInv(s: State, e: Event)
    requires Inv(s) && Enabled(s, e)
    ensures Inv(Next(s, e))
    ensures forall name | name in s.truth :: name in Next(s, e).truth && Next(s, e).truth[name] == s.truth[name]
  {
    hide OnDate, NotOnDate, NameOf, PlanImports, DoneFiles, Rows, Statics;
    match e {
      case Poll(files, cutoff, maxFiles) => PlanIsPending(s, files, cutoff, maxFiles);
      case DeleteOk => DeleteKeepsInv(s, e);
      case DeleteFails(_) => DeleteKeepsInv(s, e);
      case InsertOk => InsertKeepsInv(s, e);
      case InsertFails(_) => InsertKeepsInv(s, e);
      case StaticsOk(_) => StaticsKeepInv(s, e);
      case StaticsFail(_) => StaticsKeepInv(s, e);
      case Live(_) => StaticsKeepInv(s, e);
      case RecordOk => RecordKeepsRecords(s);
      case RecordFails(_) => RecordKeepsRecords(s);
      case Download(_) =>
      case Finish =>
      case Crash =>
    }
  }

  // ---------------------------------------------------------------- all runs

  ghost predicate Trace(es: seq<Event>)
    decreases |es|, 1
  {
    es == [] || (Trace(es[..|es| - 1]) && Enabled(Run(es[..|es| - 1]), es[|es| - 1]))
  }

  ghost function Run(es: seq<Event>): State
    requires Trace(es)
    decreases |es|, 2
  {
    if es == [] then START else Next(Run(es[..|es| - 1]), es[|es| - 1])
  }

  lemma {:induction false} EveryRunKeepsInv(es: seq<Event>)
    requires Trace(es)
    ensures Inv(Run(es))
    decreases |es|
  {
    if es != [] {
      EveryRunKeepsInv(es[..|es| - 1]);
      StepKeepsInv(Run(es[..|es| - 1]), es[|es| - 1]);
    }
  }

  /** Exactly-once import over every run of poll cycles, with crashes and failed or half-done
      statements anywhere: a recorded file is recorded once, its count is the number of its rows, and
      those rows and no others are in `positions` for its day. */
  lemma RecordedFilesAreImportedOnce(es: seq<Event>, date: nat)
    requires Trace(es) && date < 1_0000_0000 && NameOf(date) in DoneFiles(Run(es).db.records)
    ensures var s := Run(es);
            var rows := OnDate(s.db.positions, date);
            && s.truth.Keys == DoneFiles(s.db.records) && rows == Rows(s.truth[NameOf(date)])
            && exists i ::
                 && 0 <= i < |s.db.records| && s.db.records[i] == (NameOf(date), |rows|)
                 && forall j | 0 <= j < |s.db.records| && s.db.records[j].0 == NameOf(date) :: j == i
  {
    hide NameOf, Run, OnDate;
    EveryRunKeepsInv(es);
    var records := Run(es).db.records;
    var i :| 0 <= i < |records| && records[i].0 == NameOf(date);
    assert forall j | 0 <= j < |records| && records[j].0 == NameOf(date) :: j == i;
  }

  /** In every run each vessel a recorded file names shows static data at least as new as the file's. */
  lemma RecordedStaticsShow(es: seq<Event>, name: string, mmsi: nat)
    requires Trace(es) && name in Run(es).truth && mmsi in Statics(Run(es).truth[name])
    ensures var s := Run(es);
            && mmsi in Visible(s.db.statics)
            && Visible(s.db.statics)[mmsi].ts >= Statics(s.truth[name])[mmsi].ts
  {
    hide Run, Visible;
    EveryRunKeepsInv(es);
    InsertedIsCovered(Run(es).db.statics, Statics(Run(es).truth[name])[mmsi]);
  }

  /** Importing a file again after a failed attempt shows what it would show had the attempt stored no
      statics, whatever the archiver inserted meanwhile. */
  lemma RetryShowsNoTrace(lines: seq<Line>, before: seq<Static>, stored: seq<Static>, since: seq<Static>,
                          order: seq<Static>)
    requires Lists(order, Statics(lines))
    requires forall r | r in stored :: r.mmsi in Statics(lines) && Statics(lines)[r.mmsi] == r
    ensures Visible(before + stored + since + order) == Visible(before + since + order)
  {
    hide Visible;
    forall r | r in stored ensures r in since + order { assert r in order; }
    assert before + stored + since + order == before + stored + (since + order);
    assert before + since + order == before + (since + order);
    RetriedImportLeavesNoTrace(before, stored, since + order);
  }

  /** Importing a file a second time changes what shows exactly when one of its rows is tied: another
      row of the vessel with the same timestamp shows in its place. */
  lemma ReimportChangesNothingIff(lines: seq<Line>, log: seq<Static>, order: seq<Static>)
    requires Lists(order, Statics(lines)) && AllIn(Statics(lines), log)
    ensures forall mmsi | mmsi in Statics(lines) :: mmsi in Visible(log)
    ensures Visible(log + order) == Visible(log) <==>
            forall mmsi | mmsi in Statics(lines) && Visible(log)[mmsi].ts == Statics(lines)[mmsi].ts ::
              Visible(log)[mmsi] == Statics(lines)[mmsi]
  {
    InsertChangesNothingIff(log, order);
    var m := Statics(lines);
    hide Visible, Statics;
    forall mmsi | mmsi in m
      ensures mmsi in Visible(log)
      ensures Settled(log, m[mmsi]) <==> (Visible(log)[mmsi].ts == m[mmsi].ts ==> Visible(log)[mmsi] == m[mmsi])
    {
      UnsettledMeansTied(log, m[mmsi]);
    }
    hide Settled;
    assert (forall r | r in order :: Settled(log, r)) <==> (forall mmsi | mmsi in m :: Settled(log, m[mmsi]));
  }

  // --------------------------------------------- retried files over whole runs

  /** The static rows an event inserts. */
  function Inserts(e: Event): seq<Static> {
    match e
    case StaticsOk(order) => order
    case StaticsFail(stored) => stored
    case Live(row) => [row]
    case _ => []
  }

  /** The event inserts statics of the file, in full or in part. */
  predicate InsertsFor(s: State, e: Event, name: string) {
    (e.StaticsOk? || e.StaticsFail?) && s.phase.Inserting? && s.phase.file.name == name
  }

  /** Every download of a file gives the same contents. */
  ghost predicate SameContents(es: seq<Event>, contents: string -> seq<Line>)
    requires Trace(es)
    decreases |es|
  {
    es == [] ||
    var prior, e := es[..|es| - 1], es[|es| - 1];
    SameContents(prior, contents) && (e.Download? ==> e.lines == contents(Run(prior).phase.file.name))
  }

  /** The log of a run without the file's rows. */
  ghost function Without(es: seq<Event>, name: string): seq<Static>
    requires Trace(es)
    decreases |es|
  {
    if es == [] then [] else
      var prior, e := es[..|es| - 1], es[|es| - 1];
      Without(prior, name) + (if InsertsFor(Run(prior), e, name) then [] else Inserts(e))
  }

  /** The log of a run as if only the file's last complete insert had been made. */
  ghost function Once(es: seq<Event>, name: string): seq<Static>
    requires Trace(es)
    decreases |es|
  {
    if es == [] then [] else
      var prior, e := es[..|es| - 1], es[|es| - 1];
      if !InsertsFor(Run(prior), e, name) then Once(prior, name) + Inserts(e)
      else if e.StaticsOk? then Without(prior, name) + e.statics
      else Once(prior, name)
  }

  lemma LogGrows(s: State, e: Event)
    requires Enabled(s, e)
    ensures Next(s, e).db.statics == s.db.statics + Inserts(e)
  {
    hide OnDate, NotOnDate, Rows, Statics, Batch;
  }

  /** What is being inserted is the file's one contents. */
  lemma {:induction false} PhaseHasContents(es: seq<Event>, contents: string -> seq<Line>)
    requires Trace(es) && SameContents(es, contents)
    ensures var p := Run(es).phase; p.Inserting? || p.Inserted? ==> p.lines == contents(p.file.name)
    decreases |es|
  {
    hide OnDate, NotOnDate, Rows, Statics, Batch, PlanImports;
    if es != [] { PhaseHasContents(es[..|es| - 1], contents); }
  }

  /** Before a log that holds all of the file's rows, the earlier inserts of the file do not show. */
  lemma {:induction false} EarlierInsertsDoNotShow(
    es: seq<Event>, contents: string -> seq<Line>, name: string, later: seq<Static>)
    requires Trace(es) && SameContents(es, contents) && AllIn(Statics(contents(name)), later)
    ensures Visible(Run(es).db.statics + later) == Visible(Without(es, name) + later)
    decreases |es|
  {
    hide Visible, Statics, OnDate, Rows, NotOnDate, PlanImports;
    if es != [] {
      var prior, e := es[..|es| - 1], es[|es| - 1];
      var s, rows := Run(prior), Inserts(e);
      PhaseHasContents(prior, contents);
      LogGrows(s, e);
      if InsertsFor(s, e, name) {
        forall r | r in rows ensures r in later { assert Statics(contents(name))[r.mmsi] == r; }
        RetriedImportLeavesNoTrace(s.db.statics, rows, later);
        EarlierInsertsDoNotShow(prior, contents, name, later);
        assert Without(es, name) == Without(prior, name);
      } else {
        EarlierInsertsDoNotShow(prior, contents, name, rows + later);
        assert Run(es).db.statics + later == s.db.statics + (rows + later);
        assert Without(es, name) + later == Without(prior, name) + (rows + later);
      }
    }
  }

  /** The file's statics are complete: inserted and about to be recorded, or recorded. */
  predicate Complete(s: State, name: string) {
    name in s.truth || (s.phase.Inserted? && s.phase.file.name == name)
  }

  lemma CompleteComesFrom(s: State, e: Event, name: string)
    requires Inv(s) && Enabled(s, e) && Complete(Next(s, e), name)
    ensures Complete(s, name) || (e.StaticsOk? && InsertsFor(s, e, name))
    ensures Complete(s, name) ==> !InsertsFor(s, e, name)
  {
    hide OnDate, NotOnDate, Rows, Statics, Batch, PlanImports, NameOf, RecordsHold;
    if s.phase.Inserting? {
      assert ([s.phase.file] + s.phase.todo)[0].name !in s.truth;
    }
  }

  /** Crash safety of the statics, over every run in which a file's contents do not change: once a file
      is complete the table shows what it would show had no earlier attempt stored any of its rows. */
  lemma {:induction false} CompleteFilesShowAsIfInsertedOnce(
    es: seq<Event>, contents: string -> seq<Line>, name: string)
    requires Trace(es) && SameContents(es, contents)
    requires var s := Run(es); name in s.truth || (s.phase.Inserted? && s.phase.file.name == name)
    ensures Visible(Run(es).db.statics) == Visible(Once(es, name))
    decreases |es|
  {
    hide Visible, Statics, OnDate, Rows, NotOnDate, PlanImports, Inv;
    if es != [] {
      var prior, e := es[..|es| - 1], es[|es| - 1];
      var s := Run(prior);
      EveryRunKeepsInv(prior);
      CompleteComesFrom(s, e, name);
      LogGrows(s, e);
      if Complete(s, name) {
        CompleteFilesShowAsIfInsertedOnce(prior, contents, name);
        AppendAlike(s.db.statics, Once(prior, name), Inserts(e));
      } else {
        PhaseHasContents(prior, contents);
        EarlierInsertsDoNotShow(prior, contents, name, e.statics);
      }
    }
  }
}
