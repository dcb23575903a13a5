/** The importer of daily history dumps: which files a cycle takes, how a file's rows are batched, and
    the delete / insert / record protocol that survives a crash or a failed statement at any step. */
module DmaImport {
  import opened Prelude
  import opened Sorting
  import opened Text
  import opened StaticsTable
  import Nmea

  const INSERT_BATCH := 10_000

  /** A dump in the listing; the date is the number YYYYMMDD. */
  datatype File = File(date: nat, name: string)

  function Digits(n: nat, width: nat): string {
    if width == 0 then "" else Digits(n / 10, width - 1) + [Nmea.DigitChar(n % 10)]
  }

  /** The listing pairs each date with the file name it was read from. */
  function NameOf(date: nat): string {
    "aisdk-" + Digits(date / 10000, 4) + "-" + Digits(date / 100 % 100, 2) + "-" + Digits(date % 100, 2) + ".zip"
  }

  predicate WellNamed(f: File) {
    f.date < 1_0000_0000 && f.name == NameOf(f.date)
  }

  lemma {:induction false} DigitsLength(n: nat, width: nat)
    ensures |Digits(n, width)| == width
  {
    if width > 0 { DigitsLength(n / 10, width - 1); }
  }

  function Ten(width: nat): nat {
    if width == 0 then 1 else 10 * Ten(width - 1)
  }

  lemma {:induction false} DigitsTell(a: nat, b: nat, width: nat)
    requires a < Ten(width) && b < Ten(width) && Digits(a, width) == Digits(b, width)
    ensures a == b
  {
    if width > 0 {
      var x, y := Digits(a / 10, width - 1), Digits(b / 10, width - 1);
      DigitsLength(a / 10, width - 1);
      DigitsLength(b / 10, width - 1);
      assert Digits(a, width)[..width - 1] == x && Digits(b, width)[..width - 1] == y;
      assert Digits(a, width)[width - 1] == Nmea.DigitChar(a % 10);
      assert Digits(b, width)[width - 1] == Nmea.DigitChar(b % 10);
      DigitsTell(a / 10, b / 10, width - 1);
    }
  }

  lemma NameParts(date: nat)
    ensures var name := NameOf(date);
            && |name| == 20 && name[6..10] == Digits(date / 10000, 4)
            && name[11..13] == Digits(date / 100 % 100, 2) && name[14..16] == Digits(date % 100, 2)
  {
    hide Digits;
    DigitsLength(date / 10000, 4);
    DigitsLength(date / 100 % 100, 2);
    DigitsLength(date % 100, 2);
  }

  lemma TenSmall()
    ensures Ten(2) == 100 && Ten(4) == 10000
  {}

  lemma DateParts(date: nat)
    requires date < 1_0000_0000
    ensures date / 10000 < 10000 && date / 100 % 100 < 100 && date % 100 < 100
    ensures date == 10000 * (date / 10000) + 100 * (date / 100 % 100) + date % 100
  {
    var hundreds := date / 100;
    assert 10000 * (hundreds / 100) <= date < 10000 * (hundreds / 100 + 1);
    assert date / 10000 == hundreds / 100;
  }

  /** Two dates never share a file name. */
  lemma NamesAreDistinct(a: nat, b: nat)
    requires a < 1_0000_0000 && b < 1_0000_0000
    ensures NameOf(a) == NameOf(b) <==> a == b
  {
    hide NameOf, Digits, Ten;
    if NameOf(a) == NameOf(b) {
      NameParts(a);
      NameParts(b);
      TenSmall();
      DateParts(a);
      DateParts(b);
      DigitsTell(a / 10000, b / 10000, 4);
      DigitsTell(a / 100 % 100, b / 100 % 100, 2);
      DigitsTell(a % 100, b % 100, 2);
    }
  }

  // -------------------------------------------------------------- the plan

  predicate FileLe(a: File, b: File) {
    a.date < b.date || (a.date == b.date && LexLe(a.name, b.name))
  }

  predicate Eligible(f: File, cutoff: int, done: set<string>) {
    f.date >= cutoff && f.name !in done
  }

  function Reverse(s: seq<File>): (r: seq<File>)
    ensures |r| == |s| && forall i | 0 <= i < |s| :: r[i] == s[|s| - 1 - i]
  {
    if s == [] then [] else [s[|s| - 1]] + Reverse(s[..|s| - 1])
  }

  function Keep(s: seq<File>, cutoff: int, done: set<string>): seq<File> {
    if s == [] then [] else
      Keep(s[..|s| - 1], cutoff, done) + (if Eligible(s[|s| - 1], cutoff, done) then [s[|s| - 1]] else [])
  }

  /** What a cycle imports, in order; `maxFiles` 0 means no limit. */
  function PlanImports(files: seq<File>, cutoff: int, done: set<string>, maxFiles: nat): seq<File> {
    var kept := Keep(Reverse(Dedup(Sort(FileLe, files))), cutoff, done);
    if maxFiles == 0 || |kept| <= maxFiles then kept else kept[..maxFiles]
  }

  /** Strictly descending: newest first, nothing twice. */
  ghost predicate NewestFirst(s: seq<File>) {
    forall i, j | 0 <= i < j < |s| :: FileLe(s[j], s[i]) && s[i] != s[j]
  }

  lemma FileLeIsTotalOrder()
    ensures TotalOrder(FileLe)
  {
    forall a: File, b: File ensures FileLe(a, b) || FileLe(b, a) { LexLeTotal(a.name, b.name); }
    forall a: File, b: File | FileLe(a, b) && FileLe(b, a) ensures a == b { LexLeAntisymmetric(a.name, b.name); }
    forall a: File, b: File, c: File | FileLe(a, b) && FileLe(b, c) ensures FileLe(a, c) {
      if a.date == b.date == c.date { LexLeTransitive(a.name, b.name, c.name); }
    }
  }

  lemma {:induction false} KeepFilters(s: seq<File>, cutoff: int, done: set<string>)
    requires NewestFirst(s)
    ensures NewestFirst(Keep(s, cutoff, done))
    ensures forall f :: f in Keep(s, cutoff, done) <==> f in s && Eligible(f, cutoff, done)
  {
    if s != [] {
      var init, last := s[..|s| - 1], s[|s| - 1];
      KeepFilters(init, cutoff, done);
      var k := Keep(init, cutoff, done);
      forall i | 0 <= i < |k| ensures FileLe(last, k[i]) && k[i] != last {
        assert k[i] in init;
      }
      assert s == init + [last];
    }
  }

  /** A cycle takes eligible files of the listing, newest first, each once; it leaves an eligible file
      for a later cycle only when the limit is used up on files that are all newer. */
  lemma PlanTakesTheNewest(files: seq<File>, cutoff: int, done: set<string>, maxFiles: nat)
    ensures var plan := PlanImports(files, cutoff, done, maxFiles);
            && NewestFirst(plan)
            && (maxFiles > 0 ==> |plan| <= maxFiles)
            && (forall f | f in plan :: f in files && f.date >= cutoff && f.name !in done)
            && (forall f | f in files && f.date >= cutoff && f.name !in done && f !in plan ::
                  0 < maxFiles == |plan| && forall i | 0 <= i < |plan| :: FileLe(f, plan[i]))
  {
    FileLeIsTotalOrder();
    SortDedup(FileLe, files);
    hide FileLe;
    var sorted := Dedup(Sort(FileLe, files));
    var newest := Reverse(sorted);
    forall f ensures f in newest <==> f in files {
      if f in sorted {
        var i :| 0 <= i < |sorted| && sorted[i] == f;
        assert newest[|sorted| - 1 - i] == f;
      }
    }
    KeepFilters(newest, cutoff, done);
    var kept := Keep(newest, cutoff, done);
    forall f: File ensures f in kept <==> f in files && f.date >= cutoff && f.name !in done {
      assert f in kept <==> f in newest && Eligible(f, cutoff, done);
    }
  }

  lemma PlannedDatesDescend(files: seq<File>, cutoff: int, done: set<string>, maxFiles: nat)
    requires forall f | f in files :: WellNamed(f)
    ensures var plan := PlanImports(files, cutoff, done, maxFiles);
            forall i, j | 0 <= i < j < |plan| :: plan[i].date > plan[j].date
  {
    var plan := PlanImports(files, cutoff, done, maxFiles);
    PlanTakesTheNewest(files, cutoff, done, maxFiles);
    forall i, j | 0 <= i < j < |plan| ensures plan[i].date > plan[j].date {
      assert plan[i] in files && plan[j] in files;
      assert FileLe(plan[j], plan[i]) && plan[i] != plan[j];
    }
  }

  // ------------------------------------------------------------ one file's rows

  /** An imported position: its timestamp, to the millisecond, as a number that starts with YYYYMMDD,
      and its other columns. */
  datatype Row = Row(ts: nat, text: string) {
    function Date(): nat { ts / 1_000_000_000 }
  }

  /** The date is what the timestamp starts with, whatever the time of day. */
  lemma DateLeadsTheStamp(date: nat, time: nat, text: string)
    requires time < 1_000_000_000
    ensures Row(date * 1_000_000_000 + time, text).Date() == date
  {}

  /** A CSV record: skipped when a required column is missing or out of range; `named` holds the static
      columns of a record that names its vessel. */
  datatype Line = Skipped | Parsed(row: Row, mmsi: nat, named: Option<Columns>)

  function Rows(lines: seq<Line>): seq<Row> {
    if lines == [] then [] else
      var last := lines[|lines| - 1];
      Rows(lines[..|lines| - 1]) + (if last.Parsed? then [last.row] else [])
  }

  function StaticOf(line: Line): Static
    requires line.Parsed? && line.named.Some?
  {
    Static(line.row.ts, line.mmsi, line.named.value)
  }

  /** The first named record of each vessel. */
  function Statics(lines: seq<Line>): (m: map<nat, Static>)
    ensures forall mmsi | mmsi in m :: m[mmsi].mmsi == mmsi
  {
    if lines == [] then map[] else
      var m, last := Statics(lines[..|lines| - 1]), lines[|lines| - 1];
      if last.Parsed? && last.named.Some? && last.mmsi !in m then m[last.mmsi := StaticOf(last)] else m
  }

  function Upto(rows: seq<Row>, batches: nat): nat {
    if batches * INSERT_BATCH <= |rows| then batches * INSERT_BATCH else |rows|
  }

  function Batch(rows: seq<Row>, k: nat): seq<Row>
    requires k <= |rows| / INSERT_BATCH
  {
    rows[Upto(rows, k)..Upto(rows, k + 1)]
  }

  /** The rows of a file are those of its records, in order. */
  lemma {:induction false} RowsJoin(a: seq<Line>, b: seq<Line>)
    ensures Rows(a + b) == Rows(a) + Rows(b)
    decreases |b|
  {
    if b == [] {
      assert a + b == a;
    } else {
      RowsJoin(a, b[..|b| - 1]);
      assert (a + b)[..|a + b| - 1] == a + b[..|b| - 1];
    }
  }

  lemma RowsOfOne(line: Line)
    ensures Rows([line]) == if line.Parsed? then [line.row] else []
  {
    assert [line][..0] == [];
  }

  /** A record that names its vessel. */
  predicate NamesVessel(line: Line, mmsi: nat) {
    line.Parsed? && line.named.Some? && line.mmsi == mmsi
  }

  /** A vessel's static row comes from the first record that names it, and it has one if any does. */
  lemma {:induction false} StaticsComeFirst(lines: seq<Line>, mmsi: nat, i: nat)
    requires i < |lines| && NamesVessel(lines[i], mmsi)
    requires forall j | 0 <= j < i :: !NamesVessel(lines[j], mmsi)
    ensures mmsi in Statics(lines) && Statics(lines)[mmsi] == Static(lines[i].row.ts, mmsi, lines[i].named.value)
  {
    if i < |lines| - 1 {
      StaticsComeFirst(lines[..|lines| - 1], mmsi, i);
    } else {
      UnnamedHaveNone(lines[..i], mmsi);
    }
  }

  lemma {:induction false} UnnamedHaveNone(lines: seq<Line>, mmsi: nat)
    requires forall j | 0 <= j < |lines| :: !NamesVessel(lines[j], mmsi)
    ensures mmsi !in Statics(lines)
  {
    if lines != [] { UnnamedHaveNone(lines[..|lines| - 1], mmsi); }
  }

  /** Every batch but the last has 10000 rows, and the last has fewer. */
  lemma BatchesAreFull(rows: seq<Row>, k: nat)
    requires k <= |rows| / INSERT_BATCH
    ensures if k < |rows| / INSERT_BATCH then |Batch(rows, k)| == 10_000 else |Batch(rows, k)| < 10_000
  {}

  lemma BatchStable(rows: seq<Row>, more: seq<Row>, k: nat)
    requires (k + 1) * INSERT_BATCH <= |rows|
    ensures k <= |rows + more| / INSERT_BATCH && Batch(rows + more, k) == Batch(rows, k)
  {}

  /** The batches, one after the other, are the rows: none lost, repeated or reordered. */
  lemma {:induction false} BatchesJoin(rows: seq<Row>, n: nat)
    requires n <= |rows| / INSERT_BATCH + 1
    ensures Flatten(seq(n, k requires 0 <= k < n => Batch(rows, k))) == rows[..Upto(rows, n)]
  {
    var all := seq(n, k requires 0 <= k < n => Batch(rows, k));
    if n > 0 {
      var init := seq(n - 1, k requires 0 <= k < n - 1 => Batch(rows, k));
      BatchesJoin(rows, n - 1);
      assert all == init + [Batch(rows, n - 1)];
      FlattenAppend(init, [Batch(rows, n - 1)]);
      FlattenOne(Batch(rows, n - 1));
    }
  }

  lemma FlattenOne(b: seq<Row>)
    ensures Flatten([b]) == b
  {
    assert [b][1..] == [];
  }

  ghost predicate BatchesOf(rows: seq<Row>, batches: seq<seq<Row>>) {
    |batches| <= |rows| / INSERT_BATCH + 1 && forall k | 0 <= k < |batches| :: batches[k] == Batch(rows, k)
  }

  lemma NoBatches(rows: seq<Row>)
    ensures BatchesOf(rows, [])
  {}

  lemma BatchesStable(rows: seq<Row>, more: seq<Row>, batches: seq<seq<Row>>)
    requires BatchesOf(rows, batches) && |batches| * INSERT_BATCH <= |rows|
    ensures BatchesOf(rows + more, batches)
  {
    forall k | 0 <= k < |batches| ensures batches[k] == Batch(rows + more, k) { BatchStable(rows, more, k); }
  }

  /** What is buffered when a batch is inserted is the next batch. */
  lemma NextBatch(rows: seq<Row>, batches: seq<seq<Row>>)
    requires BatchesOf(rows, batches) && |batches| * INSERT_BATCH <= |rows| <= (|batches| + 1) * INSERT_BATCH
    ensures BatchesOf(rows, batches + [rows[|batches| * INSERT_BATCH..]])
  {
    assert Upto(rows, |batches|) == |batches| * INSERT_BATCH && Upto(rows, |batches| + 1) == |rows|;
  }

  /** Insert a file's rows in full batches and a possibly empty remainder, then the statics. Insert
      number `k` succeeds if `answers(k)`; an empty one always does. `batches` are those acknowledged. */
  method ImportCsv(lines: seq<Line>, answers: nat -> bool)
    returns (batches: seq<seq<Row>>, statics: map<nat, Static>, r: Result<nat, nat>)
    ensures BatchesOf(Rows(lines), batches)
    ensures r.Ok? ==> r.value == |Rows(lines)| && |batches| == |Rows(lines)| / INSERT_BATCH + 1
    ensures r.Ok? ==> statics == Statics(lines)
    ensures r.Err? ==> r.error == |batches| && !answers(r.error)
  {
    hide BatchesOf, Rows, Statics;
    var positions: seq<Row>, imported := [], 0;
    batches, statics := [], map[];
    NoLines(lines);
    NoBatches(Rows(lines[..0]));
    for i := 0 to |lines|
      invariant |batches| * INSERT_BATCH == imported <= |Rows(lines[..i])|
      invariant |positions| < INSERT_BATCH && Rows(lines[..i])[imported..] == positions
      invariant BatchesOf(Rows(lines[..i]), batches)
      invariant statics == Statics(lines[..i])
    {
      var line := lines[i];
      LinesGrow(lines, i);
      if line.Parsed? {
        BatchesStable(Rows(lines[..i]), [line.row], batches);
        assert Rows(lines[..i + 1])[imported..] == positions + [line.row];
        positions := positions + [line.row];
        if line.named.Some? && line.mmsi !in statics {
          statics := statics[line.mmsi := Static(line.row.ts, line.mmsi, line.named.value)];
        }
        if |positions| >= INSERT_BATCH {
          if !answers(|batches|) {
            RowsContinue(lines, i + 1, batches);
            return batches, statics, Err(|batches|);
          }
          NextBatch(Rows(lines[..i + 1]), batches);
          imported := imported + |positions|;
          batches := batches + [positions];
          positions := [];
        }
      }
    }
    assert lines[..|lines|] == lines;
    if positions != [] && !answers(|batches|) {
      return batches, statics, Err(|batches|);
    }
    NextBatch(Rows(lines), batches);
    imported := imported + |positions|;
    batches := batches + [positions];
    if statics != map[] && !answers(|batches|) {
      return batches, statics, Err(|batches|);
    }
    r := Ok(imported);
  }

  lemma NoLines(lines: seq<Line>)
    ensures Rows(lines[..0]) == [] && Statics(lines[..0]) == map[]
  {}

  lemma LinesGrow(lines: seq<Line>, i: nat)
    requires i < |lines|
    ensures Rows(lines[..i + 1]) == if lines[i].Parsed? then Rows(lines[..i]) + [lines[i].row] else Rows(lines[..i])
    ensures var m := Statics(lines[..i]);
            Statics(lines[..i + 1]) ==
              if lines[i].Parsed? && lines[i].named.Some? && lines[i].mmsi !in m
              then m[lines[i].mmsi := StaticOf(lines[i])] else m
  {
    assert lines[..i + 1][..i] == lines[..i];
  }

  lemma {:induction false} RowsContinue(lines: seq<Line>, i: nat, batches: seq<seq<Row>>)
    requires i <= |lines| && BatchesOf(Rows(lines[..i]), batches) && |batches| * INSERT_BATCH <= |Rows(lines[..i])|
    ensures BatchesOf(Rows(lines), batches)
    decreases |lines| - i
  {
    hide BatchesOf;
    if i < |lines| {
      LinesGrow(lines, i);
      if lines[i].Parsed? { BatchesStable(Rows(lines[..i]), [lines[i].row], batches); }
      RowsContinue(lines, i + 1, batches);
    } else {
      assert lines[..i] == lines;
    }
  }
}
