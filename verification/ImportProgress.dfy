/** What a cycle of the importer achieves when nothing fails: the whole plan, in its order. */
module ImportProgress {
  import opened DmaImport
  import StaticsTable
  import opened ImportProtocol

  /** The steps of a cycle that succeed, and the archiver's inserts beside them. */
  predicate Succeeds(e: Event) {
    e.DeleteOk? || e.Download? || e.InsertOk? || e.StaticsOk? || e.RecordOk? || e.Live?
  }

  /** The files a cycle still has to record. */
  function Left(p: Phase): seq<File> {
    match p
    case Idle => []
    case Planned(todo) => todo
    case Deleted(file, todo) => [file] + todo
    case Inserting(file, todo, _, _) => [file] + todo
    case Inserted(file, todo, _) => [file] + todo
  }

  function RecordNames(records: seq<(string, nat)>): seq<string> {
    seq(|records|, i requires 0 <= i < |records| => records[i].0)
  }

  function FileNames(files: seq<File>): seq<string> {
    seq(|files|, i requires 0 <= i < |files| => files[i].name)
  }

  /** The files recorded and those left: what a cycle that succeeds does not change. */
  function Account(s: State): seq<string> {
    RecordNames(s.db.records) + FileNames(Left(s.phase))
  }

  lemma SuccessKeepsAccount(s: State, e: Event)
    requires Enabled(s, e) && Succeeds(e)
    ensures Account(Next(s, e)) == Account(s) && (Next(s, e).phase.Idle? <==> s.phase.Idle?)
  {
    hide OnDate, NotOnDate, Rows, Statics, Batch, Lists;
    match e {
      case DeleteOk => assert [s.phase.todo[0]] + s.phase.todo[1..] == s.phase.todo;
      case RecordOk => RecordedMoves(s.db.records, |Rows(s.phase.lines)|, s.phase.file, s.phase.todo);
      case _ =>
    }
  }

  lemma RecordedMoves(records: seq<(string, nat)>, count: nat, file: File, todo: seq<File>)
    ensures RecordNames(records + [(file.name, count)]) + FileNames(todo) ==
            RecordNames(records) + FileNames([file] + todo)
  {
    var a, b := RecordNames(records + [(file.name, count)]), FileNames([file] + todo);
    assert a == RecordNames(records) + [file.name];
    assert b == [file.name] + FileNames(todo);
  }

  /** A run of steps that all succeed. */
  ghost predicate Smooth(s: State, es: seq<Event>)
    decreases |es|
  {
    es == [] || (Succeeds(es[0]) && Enabled(s, es[0]) && Smooth(Next(s, es[0]), es[1..]))
  }

  ghost function After(s: State, es: seq<Event>): State
    requires Smooth(s, es)
    decreases |es|
  {
    if es == [] then s else After(Next(s, es[0]), es[1..])
  }

  lemma {:induction false} SmoothKeepsAccount(s: State, es: seq<Event>)
    requires Smooth(s, es)
    ensures Account(After(s, es)) == Account(s)
    decreases |es|
  {
    hide Account, Enabled, Next;
    if es != [] {
      SuccessKeepsAccount(s, es[0]);
      SmoothKeepsAccount(Next(s, es[0]), es[1..]);
    }
  }

  /** A cycle without a failure or a crash ends with exactly the planned files newly recorded, each once
      and in the order of the plan. */
  lemma SmoothCycleImportsThePlan(s: State, files: seq<File>, cutoff: int, maxFiles: nat, es: seq<Event>)
    requires Enabled(s, Poll(files, cutoff, maxFiles))
    requires var polled := Next(s, Poll(files, cutoff, maxFiles));
             Smooth(polled, es) && Enabled(After(polled, es), Finish)
    ensures var t := Next(After(Next(s, Poll(files, cutoff, maxFiles)), es), Finish);
            && t.phase.Idle?
            && RecordNames(t.db.records) ==
               RecordNames(s.db.records) + FileNames(PlanImports(files, cutoff, DoneFiles(s.db.records), maxFiles))
  {
    hide PlanImports, DoneFiles, Smooth;
    var polled := Next(s, Poll(files, cutoff, maxFiles));
    SmoothKeepsAccount(polled, es);
    var u := After(polled, es);
    hide After;
    assert RecordNames(u.db.records) + [] == RecordNames(u.db.records);
    assert FileNames([]) == [];
  }

  // ---------------------------------------------------------------- progress

  /** The statics a file names can be listed. */
  lemma Listing(statics: map<nat, StaticsTable.Static>) returns (order: seq<StaticsTable.Static>)
    requires forall mmsi | mmsi in statics :: statics[mmsi].mmsi == mmsi
    ensures Lists(order, statics)
  {
    if statics == map[] {
      order := [];
    } else {
      var mmsi :| mmsi in statics;
      var rest := statics - {mmsi};
      var tail := Listing(rest);
      order := [statics[mmsi]] + tail;
      assert order[0] == statics[mmsi];
      forall k | k in statics ensures statics[k] in order {
        if k != mmsi { assert rest[k] in tail; }
      }
      forall i | 0 <= i < |tail| ensures tail[i].mmsi != mmsi { assert tail[i] in tail; }
    }
  }

  /** In every reachable state of a cycle some step can succeed, or the cycle can finish. */
  lemma CycleNeverStalls(es: seq<Event>) returns (e: Event)
    requires Trace(es) && !Run(es).phase.Idle?
    ensures Enabled(Run(es), e) && (e == Finish || (Succeeds(e) && !e.Live?))
  {
    EveryRunKeepsInv(es);
    hide Run, Lists, OnDate, NotOnDate, Statics;
    var s := Run(es);
    e := Finish;
    match s.phase {
      case Planned(todo) => if todo != [] { e := DeleteOk; }
      case Deleted(_, _) => e := Download([]);
      case Inserting(_, _, lines, n) =>
        if n <= |Rows(lines)| / INSERT_BATCH {
          e := InsertOk;
        } else {
          var order := Listing(Statics(lines));
          e := StaticsOk(order);
        }
      case Inserted(_, _, _) => e := RecordOk;
    }
  }

  /** How far the file at hand is from being recorded. */
  function Stage(p: Phase): nat {
    match p
    case Idle => 0
    case Planned(_) => 0
    case Deleted(_, _) => 3
    case Inserting(_, _, _, _) => 2
    case Inserted(_, _, _) => 1
  }

  function Unstarted(p: Phase): nat {
    match p
    case Planned(todo) => |todo|
    case Deleted(_, todo) => |todo|
    case Inserting(_, todo, _, _) => |todo|
    case Inserted(_, todo, _) => |todo|
    case Idle => 0
  }

  function BatchesLeft(p: Phase): int {
    match p
    case Inserting(_, _, lines, n) => |Rows(lines)| / INSERT_BATCH + 1 - n
    case _ => 0
  }

  /** Every step that succeeds, beside the archiver's, comes nearer to the end of the cycle: it starts a
      file, moves it on a stage, or inserts one of the batches left. */
  lemma EveryStepAdvances(es: seq<Event>, e: Event)
    requires Trace(es) && Enabled(Run(es), e) && Succeeds(e) && !e.Live?
    ensures var (p, q) := (Run(es).phase, Next(Run(es), e).phase);
            && BatchesLeft(p) >= 0 && BatchesLeft(q) >= 0 && Unstarted(q) <= Unstarted(p)
            && (Unstarted(q) == Unstarted(p) ==> Stage(q) <= Stage(p))
            && (Unstarted(q) == Unstarted(p) && Stage(q) == Stage(p) ==> BatchesLeft(q) < BatchesLeft(p))
  {
    EveryRunKeepsInv(es);
    hide Run, Lists, OnDate, NotOnDate, Statics;
  }

  // ---------------------------------------------------------------- failures

  /** The rows but those of one day that a partial delete removed. */
  function Remaining(rows: seq<Row>, date: nat, kept: Row -> bool): seq<Row> {
    if rows == [] then [] else
      var last := rows[|rows| - 1];
      Remaining(rows[..|rows| - 1], date, kept) + if last.Date() != date || kept(last) then [last] else []
  }

  lemma {:induction false} OtherDaysRemain(rows: seq<Row>, date: nat, kept: Row -> bool, d: nat)
    requires d != date
    ensures OnDate(Remaining(rows, date, kept), d) == OnDate(rows, d)
  {
    if rows != [] {
      var init, last := rows[..|rows| - 1], rows[|rows| - 1];
      OtherDaysRemain(init, date, kept, d);
      OnDateJoins(Remaining(init, date, kept), if last.Date() != date || kept(last) then [last] else [], d);
      assert [last][..0] == [];
    }
  }

  /** The run may end at any point, a delete may remove any part of the day, an insert may store any rows of
      its batch, in any number and order, and a record may be written although the write fails. */
  lemma AnyStatementMayFail(s: State, kept: Row -> bool, stored: seq<Row>)
    ensures Enabled(s, Crash)
    ensures s.phase.Planned? && s.phase.todo != [] ==>
              Enabled(s, DeleteFails(Remaining(s.db.positions, s.phase.todo[0].date, kept)))
    ensures s.phase.Inserting? && s.phase.batches <= |Rows(s.phase.lines)| / INSERT_BATCH &&
            (forall r | r in stored :: r in Batch(Rows(s.phase.lines), s.phase.batches)) ==>
              Enabled(s, InsertFails(stored))
    ensures s.phase.Inserted? ==>
              && Enabled(s, RecordFails(true)) && Enabled(s, RecordFails(false))
              && |Next(s, RecordFails(true)).db.records| == |s.db.records| + 1
              && Next(s, RecordFails(false)).db == s.db
  {
    hide Rows, Statics, OnDate, Remaining;
    if s.phase.Planned? && s.phase.todo != [] {
      var date := s.phase.todo[0].date;
      forall d: nat | d != date ensures OnDate(Remaining(s.db.positions, date, kept), d) == OnDate(s.db.positions, d) {
        OtherDaysRemain(s.db.positions, date, kept, d);
      }
    }
  }
}
