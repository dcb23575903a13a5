/** The worker process: a reader that validates and queues lines, a writer that batches, sends and
    retries, and the counters both keep, as interleaved atomic steps over the queue protocol. */
module Worker {
  import opened Prelude
  import opened Nmea
  import opened Queueing

  const MAX_BATCH_LINES := 32
  const MAX_BATCH_BYTES := 1200

  const READER: nat := 0
  const WRITER: nat := 1

  /** Inside `ingest_line`: between lines, with a counted but unparsed line, with a pushed line still
      to be credited, or with a displaced line still to be counted as dropped. */
  datatype Reading = Waiting | Got(line: string) | CreditDue | CountingDrop

  /** Inside `ingest::run`: without a connection, connected between batches, filling a batch, filling
      it with a permit in hand, or sending. */
  datatype Writing =
    | Disconnected
    | Ready
    | Receiving(batch: seq<string>)
    | Taking(batch: seq<string>)
    | Sending(batch: seq<string>)

  datatype Worker = Worker(
    q: State, reading: Reading, writing: Writing, pending: Option<seq<string>>,
    linesIn: nat, invalid: nat, dropped: nat, forwarded: nat, sent: seq<string>)

  const INITIAL := Worker(START, Waiting, Disconnected, None, 0, 0, 0, 0, [])

  datatype Event =
    | Receive(line: string) | Reject | Enqueued | Credited | DropCounted
    | ConnectOk | ConnectFailed | Resume | StartBatch | PermitTaken | LineTaken | BatchDone
    | SendOk | SendFailed

  /** The batch loop asks for another line while it is within both limits. */
  predicate WantsMore(batch: seq<string>) {
    batch == [] || (|batch| < MAX_BATCH_LINES && Bytes(batch) < MAX_BATCH_BYTES)
  }

  predicate Enabled(w: Worker, e: Event) {
    match e
    case Receive(_) => w.reading == Waiting
    case Reject => w.reading.Got? && Parse(w.reading.line).Err?
    case Enqueued => w.reading.Got? && Parse(w.reading.line).Ok?
    case Credited => w.reading == CreditDue
    case DropCounted => w.reading == CountingDrop
    case ConnectOk => w.writing == Disconnected
    case ConnectFailed => w.writing == Disconnected
    case Resume => w.writing == Ready && w.pending.Some?
    case StartBatch => w.writing == Ready && w.pending.None?
    case PermitTaken => w.writing.Receiving? && WantsMore(w.writing.batch) && w.q.permits > 0
    case LineTaken => w.writing.Taking?
    case BatchDone => w.writing.Receiving? && w.writing.batch != [] && (!WantsMore(w.writing.batch) || w.q.permits == 0)
    case SendOk => w.writing.Sending?
    case SendFailed => w.writing.Sending?
  }

  /** The two threads' phases in the queue protocol. */
  predicate InStep(w: Worker) {
    && PhaseOf(w.q, READER) == (if w.reading == CreditDue then Crediting else Idle)
    && PhaseOf(w.q, WRITER) == (if w.writing.Taking? then Claimed else Idle)
  }

  function Next(w: Worker, e: Event, capacity: nat): Worker
    requires Enabled(w, e) && InStep(w)
  {
    match e
    case Receive(line) => w.(reading := Got(line), linesIn := w.linesIn + 1)
    case Reject => w.(reading := Waiting, invalid := w.invalid + 1)
    case Enqueued =>
      var full := |w.q.queue| >= capacity;
      w.(q := Queueing.Next(w.q, Push(READER, w.reading.line), capacity),
         reading := if full then CountingDrop else CreditDue)
    case Credited => w.(q := Queueing.Next(w.q, Credit(READER), capacity), reading := Waiting)
    case DropCounted => w.(reading := Waiting, dropped := w.dropped + 1)
    case ConnectOk => w.(writing := Ready)
    case ConnectFailed => w
    case Resume => w.(writing := Sending(w.pending.value), pending := None)
    case StartBatch => w.(writing := Receiving([]))
    case PermitTaken => w.(q := Queueing.Next(w.q, Acquire(WRITER), capacity), writing := Taking(w.writing.batch))
    case LineTaken =>
      if w.q.queue == [] then w.(q := Queueing.Next(w.q, Take(WRITER), capacity))
      else w.(q := Queueing.Next(w.q, Take(WRITER), capacity), writing := Receiving(w.writing.batch + [w.q.queue[0]]))
    case BatchDone => w.(writing := Sending(w.writing.batch))
    case SendOk =>
      w.(forwarded := w.forwarded + |w.writing.batch|, sent := w.sent + w.writing.batch, writing := Ready)
    case SendFailed => w.(pending := Some(w.writing.batch), writing := Disconnected)
  }

  // --------------------------------------------------------------- invariants

  /** Lines taken from the queue and not yet sent. */
  function InFlight(w: Worker): seq<string> {
    (match w.pending case Some(b) => b case None => []) +
    (match w.writing
     case Disconnected => []
     case Ready => []
     case Receiving(b) => b
     case Taking(b) => b
     case Sending(b) => b)
  }

  /** Lines counted in but in neither the queue nor a final counter: one being parsed, or one
      displaced from the queue and about to be counted. */
  function AtReader(w: Worker): nat {
    if w.reading.Got? || w.reading == CountingDrop then 1 else 0
  }

  function Taken(ds: seq<Departure>): seq<string> {
    if ds == [] then [] else
      Taken(ds[..|ds| - 1]) + (if ds[|ds| - 1].taken then [ds[|ds| - 1].line] else [])
  }

  function DropCount(ds: seq<Departure>): nat {
    if ds == [] then 0 else DropCount(ds[..|ds| - 1]) + (if ds[|ds| - 1].taken then 0 else 1)
  }

  /** A batch within the limits, except that its last line may cross the byte limit. */
  predicate BatchWithin(batch: seq<string>) {
    |batch| <= MAX_BATCH_LINES && (|batch| > 1 ==> Bytes(batch[..|batch| - 1]) < MAX_BATCH_BYTES)
  }

  ghost predicate WInv(w: Worker, capacity: nat) {
    && Inv(w.q, capacity) && InStep(w)
    && w.linesIn == w.invalid + |w.q.pushed| + (if w.reading.Got? then 1 else 0)
    && DropCount(w.q.departed) == w.dropped + (if w.reading == CountingDrop then 1 else 0)
    && w.sent + InFlight(w) == Taken(w.q.departed)
    && w.forwarded == |w.sent|
    && (w.pending.Some? ==> w.writing == Disconnected || w.writing == Ready)
    && BatchWithin(InFlight(w))
    && (w.writing.Taking? ==> WantsMore(w.writing.batch))
  }

  lemma {:induction false} DeparturesSplit(ds: seq<Departure>)
    ensures |Lines(ds)| == |ds| == |Taken(ds)| + DropCount(ds)
  {
    if ds != [] { DeparturesSplit(ds[..|ds| - 1]); }
  }

  lemma Depart(ds: seq<Departure>, d: Departure)
    ensures Taken(ds + [d]) == Taken(ds) + (if d.taken then [d.line] else [])
    ensures DropCount(ds + [d]) == DropCount(ds) + (if d.taken then 0 else 1)
  {
    assert (ds + [d])[..|ds|] == ds;
  }

  lemma BatchGrows(batch: seq<string>, line: string)
    requires BatchWithin(batch) && WantsMore(batch)
    ensures BatchWithin(batch + [line])
  {
    assert (batch + [line])[..|batch|] == batch;
  }

  lemma EnqueueKeeps(w: Worker, capacity: nat)
    requires capacity >= 1 && WInv(w, capacity) && Enabled(w, Enqueued)
    ensures WInv(Next(w, Enqueued, capacity), capacity)
  {
    hide Inv, Parse, Taken, DropCount, BatchWithin, Bytes;
    StepKeepsInv(w.q, Push(READER, w.reading.line), capacity);
    if |w.q.queue| >= capacity {
      Depart(w.q.departed, Departure(w.q.queue[0], false));
      assert Taken(w.q.departed) + [] == Taken(w.q.departed);
    } else {
      assert w.q.departed + [] == w.q.departed;
    }
  }

  /** The line a permit stands for moves from the queue to the end of the batch. */
  lemma TakenJoinsBatch(w: Worker, capacity: nat)
    requires capacity >= 1 && WInv(w, capacity) && w.writing.Taking?
    ensures w.q.queue != [] && Inv(Queueing.Next(w.q, Take(WRITER), capacity), capacity)
    ensures var after := w.q.departed + [Departure(w.q.queue[0], true)];
            && w.sent + (w.writing.batch + [w.q.queue[0]]) == Taken(after)
            && DropCount(after) == DropCount(w.q.departed)
    ensures BatchWithin(w.writing.batch + [w.q.queue[0]])
  {
    hide Inv, Taken, DropCount, BatchWithin, WantsMore;
    StepKeepsInv(w.q, Take(WRITER), capacity);
    ClaimHasALine(w.q, WRITER, capacity);
    Depart(w.q.departed, Departure(w.q.queue[0], true));
    assert InFlight(w) == w.writing.batch;
    BatchGrows(w.writing.batch, w.q.queue[0]);
  }

  /** Events of the writer that leave the queue alone move lines between its hands, none of them away. */
  lemma WriterKeeps(w: Worker, e: Event, capacity: nat)
    requires WInv(w, capacity) && Enabled(w, e)
    requires e.ConnectOk? || e.ConnectFailed? || e.Resume? || e.StartBatch? || e.BatchDone? || e.SendFailed?
    ensures WInv(Next(w, e, capacity), capacity)
  {
    hide Inv, Taken, DropCount, BatchWithin, WantsMore;
    assert InFlight(Next(w, e, capacity)) == InFlight(w);
  }

  lemma SendKeeps(w: Worker, capacity: nat)
    requires WInv(w, capacity) && w.writing.Sending?
    ensures WInv(Next(w, SendOk, capacity), capacity)
  {
    hide Inv, Taken, DropCount, WantsMore, Parse, Bytes;
    var next := Next(w, SendOk, capacity);
    assert InFlight(w) == w.writing.batch;
    assert InFlight(next) == [];
    assert next.sent + InFlight(next) == w.sent + InFlight(w);
  }

  lemma StepKeeps(w: Worker, e: Event, capacity: nat)
    requires capacity >= 1 && WInv(w, capacity) && Enabled(w, e)
    ensures WInv(Next(w, e, capacity), capacity)
  {
    hide Inv, Parse, Taken, DropCount, BatchWithin, WantsMore;
    match e {
      case Enqueued => EnqueueKeeps(w, capacity);
      case LineTaken =>
        TakenJoinsBatch(w, capacity);
        assert InFlight(Next(w, LineTaken, capacity)) == w.writing.batch + [w.q.queue[0]];
      case Credited => StepKeepsInv(w.q, Credit(READER), capacity);
      case PermitTaken => StepKeepsInv(w.q, Acquire(WRITER), capacity);
      case SendOk => SendKeeps(w, capacity);
      case Receive(_) =>
      case Reject =>
      case DropCounted =>
      case _ => WriterKeeps(w, e, capacity);
    }
  }

  // ---------------------------------------------------------------- all runs

  ghost predicate Trace(es: seq<Event>, capacity: nat)
    decreases |es|, 1
  {
    es == [] ||
    (Trace(es[..|es| - 1], capacity) &&
     var w := Run(es[..|es| - 1], capacity);
     InStep(w) && Enabled(w, es[|es| - 1]))
  }

  ghost function Run(es: seq<Event>, capacity: nat): Worker
    requires Trace(es, capacity)
    decreases |es|, 2
  {
    if es == [] then INITIAL else Next(Run(es[..|es| - 1], capacity), es[|es| - 1], capacity)
  }

  lemma {:induction false} EveryRunKeeps(es: seq<Event>, capacity: nat)
    requires capacity >= 1 && Trace(es, capacity)
    ensures WInv(Run(es, capacity), capacity)
    decreases |es|
  {
    if es != [] {
      EveryRunKeeps(es[..|es| - 1], capacity);
      StepKeeps(Run(es[..|es| - 1], capacity), es[|es| - 1], capacity);
    }
  }

  /** The lines received that the parser accepts, in the order they came. */
  function ValidLines(es: seq<Event>): seq<string> {
    if es == [] then [] else
      var e := es[|es| - 1];
      ValidLines(es[..|es| - 1]) + (if e.Receive? && Parse(e.line).Ok? then [e.line] else [])
  }

  /** The queue is offered exactly the valid lines, each once and in order; at most the one in the
      reader's hands is still to come. */
  lemma {:induction false} OnlyValidLinesAreQueued(es: seq<Event>, capacity: nat)
    requires capacity >= 1 && Trace(es, capacity)
    ensures var w := Run(es, capacity);
            ValidLines(es) ==
            w.q.pushed + (if w.reading.Got? && Parse(w.reading.line).Ok? then [w.reading.line] else [])
    decreases |es|
  {
    hide Parse;
    if es != [] {
      OnlyValidLinesAreQueued(es[..|es| - 1], capacity);
      assert ValidLines(es) + [] == ValidLines(es);
    }
  }

  /** `sub` can be obtained from `whole` by leaving lines out. */
  ghost predicate Subsequence(sub: seq<string>, whole: seq<string>) {
    if sub == [] then true
    else if whole == [] then false
    else if sub[|sub| - 1] == whole[|whole| - 1] && Subsequence(sub[..|sub| - 1], whole[..|whole| - 1]) then true
    else Subsequence(sub, whole[..|whole| - 1])
  }

  lemma {:induction false} TakenSubsequence(ds: seq<Departure>)
    ensures Subsequence(Taken(ds), Lines(ds))
  {
    if ds != [] {
      var rest, d := ds[..|ds| - 1], ds[|ds| - 1];
      TakenSubsequence(rest);
      assert Lines(ds)[..|Lines(ds)| - 1] == Lines(rest);
      if d.taken {
        assert Taken(ds)[..|Taken(ds)| - 1] == Taken(rest);
      } else {
        assert Taken(ds) == Taken(rest);
      }
    }
  }

  lemma {:induction false} SubsequencePrefix(a: seq<string>, b: seq<string>, whole: seq<string>)
    requires Subsequence(a + b, whole)
    ensures Subsequence(a, whole)
    decreases |whole|
  {
    if a != [] && whole != [] {
      var s, init := a + b, whole[..|whole| - 1];
      if s[|s| - 1] == whole[|whole| - 1] && Subsequence(s[..|s| - 1], init) {
        if b == [] {
          assert s == a;
        } else {
          assert s[..|s| - 1] == a + b[..|b| - 1];
          SubsequencePrefix(a, b[..|b| - 1], init);
        }
      } else {
        SubsequencePrefix(a, b, init);
      }
      SubsequenceGrows(a, init, whole[|whole| - 1]);
      assert whole == init + [whole[|whole| - 1]];
    }
  }

  lemma SubsequenceGrows(a: seq<string>, whole: seq<string>, last: string)
    ensures Subsequence(a, whole) ==> Subsequence(a, whole + [last])
  {
    assert (whole + [last])[..|whole|] == whole;
  }

  lemma {:induction false} SubsequenceExtends(a: seq<string>, whole: seq<string>, more: seq<string>)
    requires Subsequence(a, whole)
    ensures Subsequence(a, whole + more)
    decreases |more|
  {
    if more == [] {
      assert whole + more == whole;
    } else {
      var init := more[..|more| - 1];
      SubsequenceExtends(a, whole, init);
      SubsequenceGrows(a, whole + init, more[|more| - 1]);
      assert whole + more == whole + init + [more[|more| - 1]];
    }
  }

  /** Conservation at every step of every run, over any pattern of failures and reconnects: each line
      received is invalid, dropped, forwarded, queued, in flight or in the reader's hands. */
  lemma NothingIsLost(es: seq<Event>, capacity: nat)
    requires capacity >= 1 && Trace(es, capacity)
    ensures var w := Run(es, capacity);
            w.linesIn == w.invalid + w.dropped + w.forwarded + |w.q.queue| + |InFlight(w)| + AtReader(w)
  {
    EveryRunKeeps(es, capacity);
    var w := Run(es, capacity);
    DeparturesSplit(w.q.departed);
    assert |w.q.pushed| == |Lines(w.q.departed)| + |w.q.queue|;
    assert |Taken(w.q.departed)| == |w.sent| + |InFlight(w)|;
  }

  /** The lines sent successfully are an in-order subsequence of the valid lines received, and the
      batch in hand respects the limits. */
  lemma SentInOrder(es: seq<Event>, capacity: nat)
    requires capacity >= 1 && Trace(es, capacity)
    ensures var w := Run(es, capacity);
            Subsequence(w.sent, ValidLines(es)) && BatchWithin(InFlight(w)) && !w.q.panicked
  {
    EveryRunKeeps(es, capacity);
    var w := Run(es, capacity);
    TakenSubsequence(w.q.departed);
    SubsequencePrefix(w.sent, InFlight(w), Lines(w.q.departed));
    SubsequenceExtends(w.sent, Lines(w.q.departed), w.q.queue);
    OnlyValidLinesAreQueued(es, capacity);
    SubsequenceExtends(w.sent, w.q.pushed, ValidLines(es)[|w.q.pushed|..]);
    assert w.q.pushed + ValidLines(es)[|w.q.pushed|..] == ValidLines(es);
  }

  // ---------------------------------------------------------------- progress

  /** The events of the writer. */
  predicate OfWriter(e: Event) {
    !(e.Receive? || e.Reject? || e.Enqueued? || e.Credited? || e.DropCounted?)
  }

  predicate Fails(e: Event) {
    e.ConnectFailed? || e.SendFailed?
  }

  /** In every state the reader can go on with the line it has, or is ready for the next. */
  lemma ReaderGoesOn(w: Worker) returns (e: Event)
    ensures !OfWriter(e) && Enabled(w, e) && (w.reading == Waiting ==> e.Receive?)
  {
    hide Parse, Bytes;
    match w.reading {
      case Waiting => e := Receive("");
      case Got(line) => e := if Parse(line).Ok? then Enqueued else Reject;
      case CreditDue => e := Credited;
      case CountingDrop => e := DropCounted;
    }
  }

  /** The writer can go on unless it waits for a line with nothing in hand and no permit to take. */
  lemma WriterGoesOn(w: Worker) returns (e: Event)
    ensures (w.writing == Receiving([]) && w.q.permits == 0) || (OfWriter(e) && Enabled(w, e) && !Fails(e))
  {
    hide Parse, Bytes;
    match w.writing {
      case Disconnected => e := ConnectOk;
      case Ready => e := if w.pending.Some? then Resume else StartBatch;
      case Receiving(b) => e := if WantsMore(b) && w.q.permits > 0 then PermitTaken else BatchDone;
      case Taking(_) => e := LineTaken;
      case Sending(_) => e := SendOk;
    }
  }

  /** Only the reader and the writer use the queue, and no empty batch is sent or kept for a retry. */
  ghost predicate Shaped(w: Worker) {
    && (forall t | t in w.q.threads :: t == READER || t == WRITER)
    && w.writing != Sending([]) && w.pending != Some([])
  }

  lemma {:induction false} EveryRunIsShaped(es: seq<Event>, capacity: nat)
    requires Trace(es, capacity)
    ensures Shaped(Run(es, capacity))
    decreases |es|
  {
    hide Parse, WantsMore, Inv;
    if es != [] { EveryRunIsShaped(es[..|es| - 1], capacity); }
  }

  /** With both threads between their queue operations the permits are the queued lines. */
  lemma PermitsAreLines(w: Worker, capacity: nat)
    requires WInv(w, capacity) && Shaped(w) && w.reading == Waiting && !w.writing.Taking?
    ensures |w.q.queue| == w.q.permits
  {
    forall t: nat ensures PhaseOf(w.q, t) == Idle {}
    hide Parse, Taken, DropCount, BatchWithin, WantsMore;
    NoLostWakeup(w.q, capacity);
  }

  /** While the reader pauses the writer stops only when every valid line has been sent or dropped. */
  lemma StoppedMeansDelivered(es: seq<Event>, capacity: nat)
    requires capacity >= 1 && Trace(es, capacity) && Run(es, capacity).reading == Waiting
    requires forall e: Event | OfWriter(e) && !Fails(e) :: !Enabled(Run(es, capacity), e)
    ensures var w := Run(es, capacity);
            w.q.queue == [] && w.linesIn == w.invalid + w.dropped + w.forwarded
  {
    EveryRunKeeps(es, capacity);
    EveryRunIsShaped(es, capacity);
    NothingIsLost(es, capacity);
    var x := WriterGoesOn(Run(es, capacity));
    hide Run, Enabled, Shaped;
    var w := Run(es, capacity);
    PermitsAreLines(w, capacity);
    hide Inv, Parse, Taken, DropCount, BatchWithin, WantsMore;
  }

  function Stage(w: Writing): nat {
    match w
    case Disconnected => 4
    case Ready => 3
    case Receiving(_) => 2
    case Taking(_) => 1
    case Sending(_) => 0
  }

  /** From one state to the next something is sent, or taken from the queue, or the stage goes down. */
  ghost predicate Nearer(w: Worker, v: Worker) {
    var held, left := |w.q.queue| + |InFlight(w)|, |v.q.queue| + |InFlight(v)|;
    && v.forwarded - w.forwarded == held - left >= 0 && |v.q.queue| <= |w.q.queue|
    && (held == left && |v.q.queue| == |w.q.queue| ==> Stage(v.writing) < Stage(w.writing))
  }

  lemma StepComesNearer(w: Worker, e: Event, capacity: nat)
    requires Enabled(w, e) && OfWriter(e) && !Fails(e) && InStep(w)
    requires w.writing.Taking? ==> w.q.queue != []
    requires w.writing != Sending([]) && (w.pending.Some? ==> w.writing == Disconnected || w.writing == Ready)
    ensures Nearer(w, Next(w, e, capacity))
  {
    hide Parse, WantsMore;
  }

  /** And it does stop: each of its steps that does not fail sends a batch, takes a line from the queue, or
      is one of at most four on the way to the next such step. */
  lemma WriterAdvances(es: seq<Event>, e: Event, capacity: nat)
    requires capacity >= 1 && Trace(es, capacity)
    requires Enabled(Run(es, capacity), e) && OfWriter(e) && !Fails(e)
    ensures InStep(Run(es, capacity)) && Nearer(Run(es, capacity), Next(Run(es, capacity), e, capacity))
  {
    EveryRunKeeps(es, capacity);
    EveryRunIsShaped(es, capacity);
    var w := Run(es, capacity);
    assert WInv(w, capacity);
    hide Run, Parse, Taken, DropCount, BatchWithin, WantsMore, Nearer, Next, Inv, Lines;
    if w.writing.Taking? { ClaimHasALine(w.q, WRITER, capacity); }
    StepComesNearer(w, e, capacity);
  }

  /** A batch is closed only at 32 lines, at 1200 bytes, or when no further line can be had; and a line is
      added only below both limits. */
  lemma BatchesAreFull(w: Worker)
    ensures Enabled(w, BatchDone) ==>
              && w.writing.Receiving? && w.writing.batch != []
              && (|w.writing.batch| >= 32 || Bytes(w.writing.batch) >= 1200 || w.q.permits == 0)
    ensures Enabled(w, PermitTaken) ==>
              && w.writing.Receiving? && w.q.permits > 0
              && (w.writing.batch == [] || (|w.writing.batch| < 32 && Bytes(w.writing.batch) < 1200))
  {}
}
