/** The archiver's buffered writer: rows gather in two vectors, a flush tries twice to insert both,
    and a failed flush keeps them up to a cap. Each insert's success is an input. */
module Archiver {
  const FLUSH_ROWS := 5000
  const MAX_BUFFER := 200_000

  /** What becomes of one insert: it is acknowledged, with every row stored, or the call fails, having
      stored any of the rows all the same (`stored` holds their places in the table's history). */
  datatype Reply = Acknowledged | Failed(stored: set<nat>)

  const LOST := Failed({})

  /** The replies to an attempt's two inserts. */
  datatype Answer = Answer(positions: Reply, statics: Reply)

  predicate Receives(reply: Reply, i: nat) {
    reply.Acknowledged? || i in reply.stored
  }

  // -------------------------------------------------------------- the history

  /** One vector's history: the rows ever collected, in order; for each row that has left the vector,
      whether it was counted as written; and how many copies of each row the table has received. */
  datatype History<T> = History(rows: seq<T>, gone: seq<bool>, copies: seq<nat>) {
    predicate Consistent() {
      |gone| <= |rows| == |copies|
    }

    function Buffered(): seq<T>
      requires Consistent()
    {
      rows[|gone|..]
    }

    function Collect(more: seq<T>): History<T>
      requires Consistent()
    {
      History(rows + more, gone, copies + seq(|more|, _ => 0))
    }

    /** Everything buffered is inserted, and received as the reply has it. */
    function Insert(reply: Reply): History<T>
      requires Consistent()
    {
      this.(copies := seq(|copies|, i requires 0 <= i < |copies| =>
              if |gone| <= i && Receives(reply, i) then copies[i] + 1 else copies[i]))
    }

    /** The oldest `n` buffered rows leave. */
    function Leave(n: nat, written: bool): History<T>
      requires Consistent() && n <= |rows| - |gone|
    {
      this.(gone := gone + seq(n, _ => written))
    }
  }

  datatype State<P, S> = State(positions: History<P>, statics: History<S>) {
    predicate Consistent() {
      positions.Consistent() && statics.Consistent()
    }

    function Size(): nat
      requires Consistent()
    {
      |positions.Buffered()| + |statics.Buffered()|
    }
  }

  function Written(gone: seq<bool>): nat {
    if gone == [] then 0 else Written(gone[..|gone| - 1]) + (if gone[|gone| - 1] then 1 else 0)
  }

  /** An insert of no rows succeeds without asking the database. */
  predicate BothOk<P, S>(s: State<P, S>, a: Answer)
    requires s.Consistent()
  {
    && (s.positions.Buffered() == [] || a.positions.Acknowledged?)
    && (s.statics.Buffered() == [] || a.statics.Acknowledged?)
  }

  function Attempt<P, S>(s: State<P, S>, a: Answer): (r: State<P, S>)
    requires s.Consistent()
    ensures r.Consistent() && r.positions.rows == s.positions.rows && r.statics.rows == s.statics.rows
  {
    var p, t := s.positions.Insert(a.positions), s.statics.Insert(a.statics);
    if BothOk(s, a) then State(p.Leave(|p.rows| - |p.gone|, true), t.Leave(|t.rows| - |t.gone|, true))
    else State(p, t)
  }

  /** How many rows are over the cap, and how many of them are positions. */
  function Excess<P, S>(s: State<P, S>): nat
    requires s.Consistent()
  {
    if s.Size() > MAX_BUFFER then s.Size() - MAX_BUFFER else 0
  }

  function Cut<P, S>(s: State<P, S>): (cut: nat)
    requires s.Consistent()
    ensures cut <= Excess(s) && cut <= |s.positions.Buffered()| && Excess(s) - cut <= |s.statics.Buffered()|
  {
    if Excess(s) <= |s.positions.Buffered()| then Excess(s) else |s.positions.Buffered()|
  }

  /** Over the cap, the excess leaves unwritten: the oldest positions first, then statics. */
  function Cap<P, S>(s: State<P, S>): (r: State<P, S>)
    requires s.Consistent()
    ensures r.Consistent() && r.Size() == if s.Size() > MAX_BUFFER then MAX_BUFFER else s.Size()
    ensures r.positions.Buffered() == [] || r.statics.Buffered() == s.statics.Buffered()
  {
    State(s.positions.Leave(Cut(s), false), s.statics.Leave(Excess(s) - Cut(s), false))
  }

  /** A flush: done at the first attempt that succeeds as a whole, capped after two that do not. */
  function FlushOf<P, S>(s: State<P, S>, first: Answer, second: Answer): (r: State<P, S>)
    requires s.Consistent()
    ensures r.Consistent()
  {
    if BothOk(s, first) then Attempt(s, first)
    else if BothOk(s, second) then Attempt(Attempt(s, first), second)
    else Cap(Attempt(Attempt(s, first), second))
  }

  lemma {:induction false} WrittenJoins(a: seq<bool>, n: nat, w: bool)
    ensures Written(a + seq(n, _ => w)) == Written(a) + (if w then n else 0)
    decreases n
  {
    var b := a + seq(n, _ => w);
    if n == 0 {
      assert b == a;
    } else {
      WrittenJoins(a, n - 1, w);
      assert b[..|b| - 1] == a + seq(n - 1, _ => w);
    }
  }

  lemma LeaveCounts<T>(h: History<T>, n: nat, written: bool)
    requires h.Consistent() && n <= |h.rows| - |h.gone|
    ensures var r := h.Leave(n, written);
            r.Consistent() && r.Buffered() == h.Buffered()[n..] &&
            Written(r.gone) == Written(h.gone) + (if written then n else 0)
  {
    WrittenJoins(h.gone, n, written);
  }

  /** A successful attempt counts and clears everything; a failed one changes no counter. */
  lemma AttemptCounts<P, S>(s: State<P, S>, a: Answer)
    requires s.Consistent()
    ensures var r := Attempt(s, a);
            if BothOk(s, a) then
              && r.positions.Buffered() == [] && r.statics.Buffered() == []
              && |r.positions.gone| + |r.statics.gone| == |s.positions.gone| + |s.statics.gone| + s.Size()
              && Written(r.positions.gone) + Written(r.statics.gone) ==
                 Written(s.positions.gone) + Written(s.statics.gone) + s.Size()
            else
              && r.positions.Buffered() == s.positions.Buffered() && r.statics.Buffered() == s.statics.Buffered()
              && r.positions.gone == s.positions.gone && r.statics.gone == s.statics.gone
  {
    var p, t := s.positions.Insert(a.positions), s.statics.Insert(a.statics);
    LeaveCounts(p, |p.rows| - |p.gone|, true);
    LeaveCounts(t, |t.rows| - |t.gone|, true);
  }

  /** The cap drops exactly the excess: first positions, oldest first, and statics only once no
      position is left. */
  lemma CapCounts<P, S>(s: State<P, S>)
    requires s.Consistent()
    ensures var r := Cap(s);
            && r.positions.Buffered() == s.positions.Buffered()[Cut(s)..]
            && r.statics.Buffered() == s.statics.Buffered()[Excess(s) - Cut(s)..]
            && |r.positions.gone| + |r.statics.gone| == |s.positions.gone| + |s.statics.gone| + Excess(s)
            && Written(r.positions.gone) == Written(s.positions.gone)
            && Written(r.statics.gone) == Written(s.statics.gone)
  {
    LeaveCounts(s.positions, Cut(s), false);
    LeaveCounts(s.statics, Excess(s) - Cut(s), false);
  }

  lemma FlushBounds<P, S>(s: State<P, S>, first: Answer, second: Answer)
    requires s.Consistent()
    ensures FlushOf(s, first, second).Size() <= MAX_BUFFER
    ensures BothOk(s, first) || BothOk(s, second) ==> FlushOf(s, first, second).Size() == 0
  {
    AttemptCounts(s, first);
    AttemptCounts(Attempt(s, first), second);
  }

  // ------------------------------------------------------------ written rows

  /** Every row counted as written was stored at least once. */
  ghost predicate Sound<P, S>(s: State<P, S>) {
    s.Consistent() && WrittenWereStored(s.positions) && WrittenWereStored(s.statics)
  }

  ghost predicate WrittenWereStored<T>(h: History<T>)
    requires h.Consistent()
  {
    forall i | 0 <= i < |h.gone| :: h.gone[i] ==> h.copies[i] >= 1
  }

  lemma AttemptKeepsSound<P, S>(s: State<P, S>, a: Answer)
    requires Sound(s)
    ensures Sound(Attempt(s, a))
  {}

  lemma FlushKeepsSound<P, S>(s: State<P, S>, first: Answer, second: Answer)
    requires Sound(s)
    ensures Sound(FlushOf(s, first, second))
  {
    AttemptKeepsSound(s, first);
    AttemptKeepsSound(Attempt(s, first), second);
  }

  lemma CollectKeepsSound<P, S>(s: State<P, S>, ps: seq<P>, ss: seq<S>)
    requires Sound(s)
    ensures Sound(State(s.positions.Collect(ps), s.statics.Collect(ss)))
    ensures s.positions.Collect(ps).Buffered() == s.positions.Buffered() + ps
    ensures s.statics.Collect(ss).Buffered() == s.statics.Buffered() + ss
  {}

  // ------------------------------------------------------------- the service

  class Writer<P(==), S(==)> {
    var positions: seq<P>
    var statics: seq<S>
    var written: nat
    var dropped: nat
    ghost var history: State<P, S>

    ghost predicate Valid()
      reads this
    {
      Sound(history) && Holds(history)
    }

    /** The vectors and counters are what the history says. */
    ghost predicate Holds(h: State<P, S>)
      requires h.Consistent()
      reads this
    {
      && positions == h.positions.Buffered() && statics == h.statics.Buffered()
      && written == Written(h.positions.gone) + Written(h.statics.gone)
      && written + dropped == |h.positions.gone| + |h.statics.gone|
    }

    /** Rows collected = rows written + rows dropped + rows buffered. */
    ghost predicate Conserved()
      reads this
    {
      |history.positions.rows| + |history.statics.rows| == written + dropped + |positions| + |statics|
    }

    constructor ()
      ensures Valid() && history == State(History([], [], []), History([], [], []))
    {
      positions, statics, written, dropped := [], [], 0, 0;
      history := State(History([], [], []), History([], [], []));
    }

    /** Insert both vectors; if both succeed, count them and clear them. */
    method TryInsert(answer: Answer) returns (done: bool)
      requires history.Consistent() && Holds(history)
      modifies this
      ensures history == Attempt(old(history), answer) && Holds(history)
      ensures done <==> BothOk(old(history), answer)
    {
      hide Attempt, Written;
      var posOk := positions == [] || answer.positions.Acknowledged?;
      var statOk := statics == [] || answer.statics.Acknowledged?;
      AttemptCounts(history, answer);
      history := Attempt(history, answer);
      done := posOk && statOk;
      if done {
        written := written + |positions| + |statics|;
        positions, statics := [], [];
      }
    }

    /** What a failed flush leaves is cut back to the cap. */
    method DropExcess()
      requires history.Consistent() && Holds(history)
      modifies this
      ensures history == Cap(old(history)) && Holds(history)
    {
      hide Cap, Written;
      CapCounts(history);
      var total := |positions| + |statics|;
      if total > MAX_BUFFER {
        var excess := total - MAX_BUFFER;
        var cut := if excess <= |positions| then excess else |positions|;
        positions := positions[cut..];
        var rest := excess - cut;
        statics := statics[if rest <= |statics| then rest else |statics|..];
        dropped := dropped + excess;
      }
      history := Cap(history);
    }

    method Flush(first: Answer, second: Answer)
      requires Valid()
      modifies this
      ensures Valid() && history == FlushOf(old(history), first, second)
      ensures Conserved()
      ensures |positions| + |statics| <= MAX_BUFFER
    {
      hide Attempt, Cap, Written, WrittenWereStored;
      FlushBounds(history, first, second);
      FlushKeepsSound(history, first, second);
      AttemptCounts(history, first);
      for attempt := 0 to 2
        invariant history.Consistent() && Holds(history)
        invariant attempt == 0 ==> history == old(history)
        invariant attempt >= 1 ==> !BothOk(old(history), first)
        invariant attempt == 1 ==> history == Attempt(old(history), first)
        invariant attempt == 2 ==>
          !BothOk(old(history), second) && history == Attempt(Attempt(old(history), first), second)
      {
        var done := TryInsert(if attempt == 0 then first else second);
        if done {
          return;
        }
      }
      DropExcess();
    }

    /** One iteration of the service loop on a message that yields these rows. */
    method Collect(ps: seq<P>, ss: seq<S>, first: Answer, second: Answer)
      requires Valid()
      modifies this
      ensures Valid() && history == Next(old(history), Message(ps, ss, first, second))
      ensures Conserved()
      ensures |positions| + |statics| <= MAX_BUFFER
    {
      CollectKeepsSound(history, ps, ss);
      positions := positions + ps;
      statics := statics + ss;
      history := State(history.positions.Collect(ps), history.statics.Collect(ss));
      if |positions| + |statics| >= FLUSH_ROWS {
        Flush(first, second);
      }
    }
  }

  // ----------------------------------------------------------------- all runs

  datatype Event<P, S> =
    | Message(ps: seq<P>, ss: seq<S>, first: Answer, second: Answer)
    | Tick(first: Answer, second: Answer)

  /** The state once the event's rows are collected, and whether the event flushes it. */
  function AtFlush<P, S>(s: State<P, S>, e: Event<P, S>): (t: State<P, S>)
    requires s.Consistent()
    ensures t.Consistent()
  {
    match e
    case Message(ps, ss, _, _) => State(s.positions.Collect(ps), s.statics.Collect(ss))
    case Tick(_, _) => s
  }

  predicate Flushes<P, S>(s: State<P, S>, e: Event<P, S>)
    requires s.Consistent()
  {
    e.Tick? || AtFlush(s, e).Size() >= FLUSH_ROWS
  }

  function Next<P, S>(s: State<P, S>, e: Event<P, S>): (r: State<P, S>)
    requires s.Consistent()
    ensures r.Consistent()
  {
    var t := AtFlush(s, e);
    if Flushes(s, e) then FlushOf(t, e.first, e.second) else t
  }

  function Run<P, S>(es: seq<Event<P, S>>): (r: State<P, S>)
    ensures r.Consistent()
  {
    if es == [] then State(History([], [], []), History([], [], []))
    else Next(Run(es[..|es| - 1]), es[|es| - 1])
  }

  /** Over any pattern of insert failures: after every loop iteration the buffer is within the cap,
      and every row counted as written was stored. */
  lemma {:induction false} EveryRunIsSafe<P, S>(es: seq<Event<P, S>>)
    ensures Sound(Run(es)) && Run(es).Size() <= MAX_BUFFER
  {
    if es != [] {
      var s, e := Run(es[..|es| - 1]), es[|es| - 1];
      EveryRunIsSafe(es[..|es| - 1]);
      if e.Message? { CollectKeepsSound(s, e.ps, e.ss); }
      FlushKeepsSound(AtFlush(s, e), e.first, e.second);
      FlushBounds(AtFlush(s, e), e.first, e.second);
    }
  }

  // ---------------------------------------------- how often each row is stored

  /** The two tables, each with its own history. */
  datatype Table = Positions | Statics

  function Gone<P, S>(s: State<P, S>, t: Table): seq<bool> {
    if t == Positions then s.positions.gone else s.statics.gone
  }

  function Copies<P, S>(s: State<P, S>, t: Table): seq<nat> {
    if t == Positions then s.positions.copies else s.statics.copies
  }

  /** The attempt stores row `i`, if it inserts it. */
  predicate Stores(a: Answer, t: Table, i: nat) {
    Receives(if t == Positions then a.positions else a.statics, i)
  }

  function One(b: bool): nat { if b then 1 else 0 }

  /** The row is in its vector. */
  predicate IsBuffered<P, S>(s: State<P, S>, t: Table, i: nat) {
    |Gone(s, t)| <= i < |Copies(s, t)|
  }

  /** The row has left its vector counted as written. */
  predicate IsWritten<P, S>(s: State<P, S>, t: Table, i: nat) {
    i < |Gone(s, t)| && Gone(s, t)[i]
  }

  /** The attempt stores the row although it fails as a whole, so that the row stays: the other table's
      insert failed, or the row's own did after storing it. */
  predicate Splits<P, S>(s: State<P, S>, a: Answer, t: Table, i: nat)
    requires s.Consistent()
  {
    Stores(a, t, i) && !BothOk(s, a)
  }

  /** How often the flush stores the row in vain. */
  function SplitAttempts<P, S>(s: State<P, S>, first: Answer, second: Answer, t: Table, i: nat): nat
    requires s.Consistent()
  {
    if BothOk(s, first) then 0 else One(Splits(s, first, t, i)) + One(Splits(s, second, t, i))
  }

  lemma AttemptCopies<P, S>(s: State<P, S>, a: Answer, t: Table)
    requires s.Consistent()
    ensures var r := Attempt(s, a);
            && |Copies(r, t)| == |Copies(s, t)| && Gone(s, t) <= Gone(r, t)
            && (forall i: nat | i < |Copies(s, t)| ::
                  Copies(r, t)[i] == Copies(s, t)[i] + One(IsBuffered(s, t, i) && Stores(a, t, i)))
            && (!BothOk(s, a) ==> Gone(r, t) == Gone(s, t))
            && (BothOk(s, a) ==> forall i: nat | IsBuffered(s, t, i) :: IsWritten(r, t, i) && Stores(a, t, i))
  {}

  lemma CapCopies<P, S>(s: State<P, S>, t: Table)
    requires s.Consistent()
    ensures var r := Cap(s);
            && Copies(r, t) == Copies(s, t) && Gone(s, t) <= Gone(r, t)
            && forall i: nat | IsBuffered(s, t, i) :: !IsWritten(r, t, i)
  {}

  /** A flush stores each buffered row once per attempt that stores it, the second attempt being made
      only if the first failed as a whole. */
  lemma FlushStores<P, S>(s: State<P, S>, first: Answer, second: Answer, t: Table, i: nat)
    requires s.Consistent() && IsBuffered(s, t, i)
    ensures var r := FlushOf(s, first, second);
            && |Copies(r, t)| == |Copies(s, t)|
            && Copies(r, t)[i] ==
               Copies(s, t)[i] + One(Stores(first, t, i)) + One(!BothOk(s, first) && Stores(second, t, i))
  {
    hide Attempt, Cap, Stores;
    var once := Attempt(s, first);
    var twice := Attempt(once, second);
    AttemptCopies(s, first, t);
    if !BothOk(s, first) {
      AttemptCopies(once, second, t);
      CapCopies(twice, t);
    }
  }

  /** One flush stores a row twice exactly when the first attempt stores it in vain and the second
      stores it too. */
  lemma StoredTwiceIff<P, S>(s: State<P, S>, first: Answer, second: Answer, t: Table, i: nat)
    requires s.Consistent() && IsBuffered(s, t, i)
    ensures |Copies(FlushOf(s, first, second), t)| == |Copies(s, t)|
    ensures Copies(FlushOf(s, first, second), t)[i] > Copies(s, t)[i] + 1 <==>
            Splits(s, first, t, i) && Stores(second, t, i)
  {
    FlushStores(s, first, second, t, i);
  }

  /** An attempt stores a buffered row in vain, or writes it. */
  lemma AttemptSplits<P, S>(s: State<P, S>, a: Answer, t: Table, i: nat)
    requires s.Consistent() && IsBuffered(s, t, i)
    ensures var r := Attempt(s, a);
            && |Copies(r, t)| == |Copies(s, t)|
            && Copies(r, t)[i] == Copies(s, t)[i] + One(Splits(s, a, t, i)) + One(BothOk(s, a))
            && (if BothOk(s, a) then IsWritten(r, t, i) else IsBuffered(r, t, i))
            && (!BothOk(s, a) ==> forall b :: BothOk(r, b) == BothOk(s, b))
  {
    AttemptCopies(s, a, t);
    AttemptCounts(s, a);
    hide Attempt, Stores;
  }

  /** A flush stores a buffered row once for every split attempt, and once more if it writes it. */
  lemma FlushCopies<P, S>(s: State<P, S>, first: Answer, second: Answer, t: Table, i: nat)
    requires s.Consistent() && IsBuffered(s, t, i)
    ensures var r := FlushOf(s, first, second);
            && |Copies(r, t)| == |Copies(s, t)|
            && Copies(r, t)[i] == Copies(s, t)[i] + SplitAttempts(s, first, second, t, i) + One(IsWritten(r, t, i))
  {
    hide Attempt, Cap, BothOk, Copies, Gone, Stores;
    var once := Attempt(s, first);
    AttemptSplits(s, first, t, i);
    if !BothOk(s, first) {
      AttemptSplits(once, second, t, i);
      CapCopies(Attempt(once, second), t);
    }
  }

  /** A flush changes nothing about the rows that had already left. */
  lemma FlushKeepsGone<P, S>(s: State<P, S>, first: Answer, second: Answer, t: Table, i: nat)
    requires s.Consistent() && i < |Copies(s, t)| && !IsBuffered(s, t, i)
    ensures var r := FlushOf(s, first, second);
            && |Copies(r, t)| == |Copies(s, t)| && Copies(r, t)[i] == Copies(s, t)[i]
            && (IsWritten(r, t, i) <==> IsWritten(s, t, i))
  {
    var once := Attempt(s, first);
    AttemptCopies(s, first, t);
    AttemptCopies(once, second, t);
    CapCopies(Attempt(once, second), t);
    hide Attempt, Cap, BothOk, Copies, Gone, Stores;
  }

  /** The split attempts row `i` goes through during one event. */
  function SplitsDuring<P, S>(prior: seq<Event<P, S>>, e: Event<P, S>, t: Table, i: nat): nat {
    var s := Run(prior);
    if Flushes(s, e) && IsBuffered(AtFlush(s, e), t, i)
    then SplitAttempts(AtFlush(s, e), e.first, e.second, t, i)
    else 0
  }

  /** And during a whole run. */
  function SplitsSoFar<P, S>(es: seq<Event<P, S>>, t: Table, i: nat): nat {
    if es == [] then 0 else
      SplitsSoFar(es[..|es| - 1], t, i) + SplitsDuring(es[..|es| - 1], es[|es| - 1], t, i)
  }

  lemma CollectCopies<P, S>(s: State<P, S>, e: Event<P, S>, t: Table)
    requires s.Consistent()
    ensures var r := AtFlush(s, e);
            && Gone(r, t) == Gone(s, t) && |Copies(s, t)| <= |Copies(r, t)|
            && forall i: nat | i < |Copies(r, t)| ::
                 Copies(r, t)[i] == if i < |Copies(s, t)| then Copies(s, t)[i] else 0
  {}

  lemma GoneWithinCopies<P, S>(s: State<P, S>, t: Table)
    requires s.Consistent()
    ensures |Gone(s, t)| <= |Copies(s, t)|
  {}

  /** In every run each row has been stored once per split attempt during its stay, plus once if it was
      written. */
  lemma {:induction false} EachRowsCopies<P, S>(es: seq<Event<P, S>>, t: Table, i: nat)
    ensures i >= |Copies(Run(es), t)| ==> SplitsSoFar(es, t, i) == 0
    ensures i < |Copies(Run(es), t)| ==>
              Copies(Run(es), t)[i] == SplitsSoFar(es, t, i) + One(IsWritten(Run(es), t, i))
  {
    if es != [] {
      var prior, e := es[..|es| - 1], es[|es| - 1];
      var s := Run(prior);
      EachRowsCopies(prior, t, i);
      CollectCopies(s, e, t);
      GoneWithinCopies(s, t);
      hide FlushOf, AtFlush, Flushes, SplitAttempts, Copies, Gone;
      if Flushes(s, e) {
        if IsBuffered(AtFlush(s, e), t, i) {
          FlushCopies(AtFlush(s, e), e.first, e.second, t, i);
        } else if i < |Copies(AtFlush(s, e), t)| {
          FlushKeepsGone(AtFlush(s, e), e.first, e.second, t, i);
        } else {
          FlushKeepsLength(AtFlush(s, e), e.first, e.second, t);
        }
      }
    }
  }

  lemma FlushKeepsLength<P, S>(s: State<P, S>, first: Answer, second: Answer, t: Table)
    requires s.Consistent()
    ensures |Copies(FlushOf(s, first, second), t)| == |Copies(s, t)|
  {
    hide Cap, Attempt;
    AttemptCopies(s, first, t);
    AttemptCopies(Attempt(s, first), second, t);
    CapCopies(Attempt(Attempt(s, first), second), t);
  }

  /** No attempt during the row's stay stored it and failed as a whole. */
  ghost predicate NeverSplit<P, S>(es: seq<Event<P, S>>, t: Table, i: nat) {
    forall k | 0 <= k < |es| :: SplitsDuring(es[..k], es[k], t, i) == 0
  }

  lemma {:induction false} NeverSplitIff<P, S>(es: seq<Event<P, S>>, t: Table, i: nat)
    ensures NeverSplit(es, t, i) <==> SplitsSoFar(es, t, i) == 0
  {
    hide SplitsDuring;
    if es != [] {
      var prior := es[..|es| - 1];
      NeverSplitIff(prior, t, i);
      assert forall k | 0 <= k < |prior| :: es[..k] == prior[..k] && es[k] == prior[k];
      if NeverSplit(es, t, i) {
        assert forall k | 0 <= k < |prior| ::
            SplitsDuring(prior[..k], prior[k], t, i) == SplitsDuring(es[..k], es[k], t, i);
      }
    }
  }

  /** Exactly-once storage, exactly: a row counted as written is stored once if and only if no attempt
      during its stay was split; a row counted as dropped is stored nevertheless if and only if one was. */
  lemma StoredOnceIff<P, S>(es: seq<Event<P, S>>, t: Table, i: nat)
    requires i < |Gone(Run(es), t)|
    ensures i < |Copies(Run(es), t)|
    ensures if Gone(Run(es), t)[i] then Copies(Run(es), t)[i] == 1 <==> NeverSplit(es, t, i)
            else Copies(Run(es), t)[i] == 0 <==> NeverSplit(es, t, i)
  {
    GoneWithinCopies(Run(es), t);
    EachRowsCopies(es, t, i);
    NeverSplitIff(es, t, i);
  }

  /** A retry that stores a row twice: at first only the statics' insert fails. */
  lemma RetryDuplicates<P, S>(p: P, t: S)
    ensures var s := State(History([p], [], [0]), History([t], [], [0]));
            s.Consistent() &&
            var r := FlushOf(s, Answer(Acknowledged, LOST), Answer(Acknowledged, Acknowledged));
            r.positions.copies == [2] && r.statics.copies == [1] && r.Size() == 0
  {
    var s := State(History([p], [], [0]), History([t], [], [0]));
    var first, second := Answer(Acknowledged, LOST), Answer(Acknowledged, Acknowledged);
    FlushBounds(s, first, second);
    FlushStores(s, first, second, Positions, 0);
    FlushStores(s, first, second, Statics, 0);
  }

  /** Another, with one table only: the first insert is stored, but its call times out. */
  lemma TimeoutDuplicates<P, S>(p: P)
    ensures var s: State<P, S> := State(History([p], [], [0]), History([], [], []));
            s.Consistent() &&
            var r := FlushOf(s, Answer(Failed({0}), LOST), Answer(Acknowledged, Acknowledged));
            r.positions.copies == [2] && r.Size() == 0
  {
    var s: State<P, S> := State(History([p], [], [0]), History([], [], []));
    var first, second := Answer(Failed({0}), LOST), Answer(Acknowledged, Acknowledged);
    FlushBounds(s, first, second);
    FlushStores(s, first, second, Positions, 0);
  }

  lemma GrowsByOne<P, S>(s: State<P, S>, p: P)
    requires s.Consistent()
    ensures var t := State(s.positions.Collect([p]), s.statics.Collect([]));
            t.Size() == s.Size() + 1 && t.positions.Buffered() != [] && t.statics.Buffered() == s.statics.Buffered()
  {}

  lemma CapDropsOldest<P, S>(s: State<P, S>)
    requires s.Consistent() && s.Size() > MAX_BUFFER && s.positions.Buffered() != []
    ensures var r, i := Cap(s), |s.positions.gone|;
            i < |r.positions.gone| && !r.positions.gone[i] && r.positions.copies == s.positions.copies
  {}

  /** From any full buffer holding a position, one more position and two failed attempts count the oldest
      position as dropped, although the first of them stored it. */
  lemma StoredThenDropped<P, S>(s: State<P, S>, p: P)
    requires s.Consistent() && s.Size() == MAX_BUFFER && s.positions.Buffered() != []
    ensures var i := |s.positions.gone|;
            var r := Next(s, Message([p], [], Answer(Failed({i}), LOST), Answer(LOST, LOST)));
            i < |r.positions.gone| && !r.positions.gone[i] && r.positions.copies[i] == s.positions.copies[i] + 1
  {
    var i := |s.positions.gone|;
    var e: Event<P, S> := Message([p], [], Answer(Failed({i}), LOST), Answer(LOST, LOST));
    var t := AtFlush(s, e);
    CollectCopies(s, e, Positions);
    GrowsByOne(s, p);
    assert !BothOk(t, e.first) && !BothOk(t, e.second);
    FlushStores(t, e.first, e.second, Positions, i);
    AttemptCounts(t, e.first);
    AttemptCounts(Attempt(t, e.first), e.second);
    hide Attempt, Cap;
    CapDropsOldest(Attempt(Attempt(t, e.first), e.second));
  }

  /** A tick always flushes: nothing stays buffered if either attempt succeeds as a whole. After a message
      as many rows as start a flush are buffered only if both attempts failed. */
  lemma FlushesHappen<P, S>(s: State<P, S>, e: Event<P, S>)
    requires s.Consistent()
    ensures e.Tick? && (BothOk(s, e.first) || BothOk(s, e.second)) ==> Next(s, e).Size() == 0
    ensures e.Message? && Next(s, e).Size() >= 5_000 ==>
              !BothOk(AtFlush(s, e), e.first) && !BothOk(AtFlush(s, e), e.second)
  {
    hide FlushOf, BothOk;
    FlushBounds(AtFlush(s, e), e.first, e.second);
  }
}
