/** The worker's bounded, drop-oldest line queue: the object as one thread sees it, and the protocol
    by which any number of threads keep its deque and its semaphore in step. */
module Queueing {
  import opened Prelude

  // ---------------------------------------------------------- one thread's view

  /** The bytes a batch takes on the wire, a newline after each line. */
  function Bytes(lines: seq<string>): nat {
    if lines == [] then 0 else Bytes(lines[..|lines| - 1]) + |lines[|lines| - 1]| + 1
  }

  /** A full queue drops its oldest line for the new one. */
  function Enqueue(queue: seq<string>, line: string, capacity: nat): seq<string> {
    if |queue| >= capacity then (if queue == [] then [] else queue[1..]) + [line] else queue + [line]
  }

  class LineQueue {
    var inner: seq<string>
    var permits: nat
    const capacity: nat

    /** Between calls of a single thread the permits count the lines. */
    ghost predicate Quiescent()
      reads this
    {
      capacity >= 1 && permits == |inner| <= capacity
    }

    constructor (capacity: nat)
      ensures this.capacity == capacity && inner == [] && permits == 0
      ensures capacity >= 1 ==> Quiescent()
    {
      this.capacity := capacity;
      inner, permits := [], 0;
    }

    method Push(line: string) returns (dropped: bool)
      requires Quiescent()
      modifies this
      ensures Quiescent() && inner == Enqueue(old(inner), line, capacity)
      ensures dropped <==> |old(inner)| == capacity
    {
      if |inner| >= capacity {
        inner := inner[1..];
        inner := inner + [line];
        dropped := true;
      } else {
        inner := inner + [line];
        permits := permits + 1;
        dropped := false;
      }
    }

    method TryPop() returns (r: Option<string>)
      requires Quiescent()
      modifies this
      ensures Quiescent()
      ensures if old(inner) == [] then r == None && inner == []
              else r == Some(old(inner)[0]) && inner == old(inner)[1..]
    {
      if permits == 0 {
        return None;
      }
      permits := permits - 1;
      r := Some(inner[0]);
      inner := inner[1..];
    }

    /** A batch is a nonempty prefix of the queue. It stops at the line limit, at the byte limit,
        or when nothing is queued; only its last line may cross the byte limit. */
    method RecvBatch(maxLines: nat, maxBytes: nat) returns (batch: seq<string>)
      requires Quiescent() && inner != []
      modifies this
      ensures Quiescent() && batch != [] && batch + inner == old(inner)
      ensures |batch| == 1 || |batch| <= maxLines
      ensures |batch| == 1 || Bytes(batch[..|batch| - 1]) < maxBytes
      ensures inner == [] || |batch| >= maxLines || Bytes(batch) >= maxBytes
    {
      var first := TryPop();
      batch := [first.value];
      var bytes := |first.value| + 1;
      assert batch[..0] == [] && Bytes(batch) == bytes;
      while |batch| < maxLines && bytes < maxBytes
        invariant Quiescent() && batch != [] && batch + inner == old(inner) && bytes == Bytes(batch)
        invariant |batch| == 1 || |batch| <= maxLines
        invariant |batch| == 1 || Bytes(batch[..|batch| - 1]) < maxBytes
        decreases |inner|
      {
        var next := TryPop();
        match next {
          case None =>
            return;
          case Some(line) =>
            bytes := bytes + |line| + 1;
            ghost var grown := batch + [line];
            assert grown[..|grown| - 1] == batch;
            batch := batch + [line];
        }
      }
    }
  }

  // ------------------------------------------------------------- the protocol

  /** Where a thread is: between operations, holding a line it has queued but not yet credited with
      a permit, or holding a permit whose line it has not yet taken. */
  datatype Phase = Idle | Crediting | Claimed

  /** A line that has left the queue, and whether a consumer took it. */
  datatype Departure = Departure(line: string, taken: bool)

  datatype State = State(
    queue: seq<string>, permits: nat, threads: map<nat, Phase>, panicked: bool,
    pushed: seq<string>, departed: seq<Departure>)

  const START := State([], 0, map[], false, [], [])

  /** The atomic steps of thread `t`: the locked part of push, add_permits, acquire-and-forget, and
      the locked part of pop. */
  datatype Action = Push(t: nat, line: string) | Credit(t: nat) | Acquire(t: nat) | Take(t: nat)

  function PhaseOf(s: State, t: nat): Phase {
    if t in s.threads then s.threads[t] else Idle
  }

  predicate Enabled(s: State, a: Action) {
    match a
    case Push(t, _) => PhaseOf(s, t) == Idle
    case Credit(t) => PhaseOf(s, t) == Crediting
    case Acquire(t) => PhaseOf(s, t) == Idle && s.permits > 0
    case Take(t) => PhaseOf(s, t) == Claimed
  }

  function Next(s: State, a: Action, capacity: nat): State
    requires Enabled(s, a)
  {
    match a
    case Push(t, line) =>
      var full := |s.queue| >= capacity;
      s.(queue := Enqueue(s.queue, line, capacity),
         pushed := s.pushed + [line],
         departed := s.departed + (if full && s.queue != [] then [Departure(s.queue[0], false)] else []),
         threads := s.threads[t := if full then Idle else Crediting])
    case Credit(t) => s.(permits := s.permits + 1, threads := s.threads[t := Idle])
    case Acquire(t) => s.(permits := s.permits - 1, threads := s.threads[t := Claimed])
    case Take(t) =>
      if s.queue == [] then s.(panicked := true)
      else s.(queue := s.queue[1..], departed := s.departed + [Departure(s.queue[0], true)],
              threads := s.threads[t := Idle])
  }

  function In(threads: map<nat, Phase>, phase: Phase): set<nat> {
    set t | t in threads && threads[t] == phase
  }

  function Lines(ds: seq<Departure>): seq<string> {
    if ds == [] then [] else Lines(ds[..|ds| - 1]) + [ds[|ds| - 1].line]
  }

  /** Lines queued = permits free + permits taken whose line is still queued + lines not yet
      credited; nothing overflows; what left plus what is queued is what was pushed, in order. */
  ghost predicate Inv(s: State, capacity: nat) {
    && |s.queue| == s.permits + |In(s.threads, Claimed)| + |In(s.threads, Crediting)|
    && |s.queue| <= capacity
    && Lines(s.departed) + s.queue == s.pushed
    && !s.panicked
  }

  lemma SizesDifferByOne(before: set<nat>, after: set<nat>, t: nat)
    requires before - {t} == after - {t}
    ensures |after| == |before| - (if t in before then 1 else 0) + (if t in after then 1 else 0)
  {
    var rest := before - {t};
    assert before == rest + (if t in before then {t} else {});
    assert after == rest + (if t in after then {t} else {});
  }

  lemma MoveOne(threads: map<nat, Phase>, t: nat, to: Phase, p: Phase)
    ensures |In(threads[t := to], p)| ==
            |In(threads, p)| - (if t in threads && threads[t] == p then 1 else 0) + (if to == p then 1 else 0)
  {
    SizesDifferByOne(In(threads, p), In(threads[t := to], p), t);
  }

  /** Moving one thread changes the two counts by what it left and what it entered. */
  lemma MoveThread(threads: map<nat, Phase>, t: nat, to: Phase)
    ensures var from := if t in threads then threads[t] else Idle;
            && |In(threads[t := to], Claimed)| ==
               |In(threads, Claimed)| - (if from == Claimed then 1 else 0) + (if to == Claimed then 1 else 0)
            && |In(threads[t := to], Crediting)| ==
               |In(threads, Crediting)| - (if from == Crediting then 1 else 0) + (if to == Crediting then 1 else 0)
  {
    MoveOne(threads, t, to, Claimed);
    MoveOne(threads, t, to, Crediting);
  }

  lemma LinesJoin(ds: seq<Departure>, d: Departure)
    ensures Lines(ds + [d]) == Lines(ds) + [d.line]
  {
    assert (ds + [d])[..|ds|] == ds;
  }

  /** Moving the oldest line out, or a new one in, keeps the order of all lines. */
  lemma OrderKept(left: seq<string>, queue: seq<string>, line: string)
    ensures queue != [] ==> left + [queue[0]] + queue[1..] == left + queue
    ensures queue != [] ==> left + [queue[0]] + (queue[1..] + [line]) == left + queue + [line]
    ensures left + (queue + [line]) == left + queue + [line]
  {}

  lemma PushKeepsInv(s: State, t: nat, line: string, capacity: nat)
    requires capacity >= 1 && Inv(s, capacity) && Enabled(s, Push(t, line))
    ensures Inv(Next(s, Push(t, line), capacity), capacity)
  {
    hide In, Lines;
    OrderKept(Lines(s.departed), s.queue, line);
    MoveThread(s.threads, t, if |s.queue| >= capacity then Idle else Crediting);
    if |s.queue| >= capacity {
      LinesJoin(s.departed, Departure(s.queue[0], false));
    } else {
      assert s.departed + [] == s.departed;
    }
  }

  /** A claimed permit stands for a line that is still queued. */
  lemma ClaimHasALine(s: State, t: nat, capacity: nat)
    requires Inv(s, capacity) && PhaseOf(s, t) == Claimed
    ensures s.queue != []
  {
    assert t in In(s.threads, Claimed);
  }

  /** Every step of every thread keeps the invariant, if the queue can hold a line at all. */
  lemma StepKeepsInv(s: State, a: Action, capacity: nat)
    requires capacity >= 1 && Inv(s, capacity) && Enabled(s, a)
    ensures Inv(Next(s, a, capacity), capacity)
  {
    hide In, Lines;
    match a {
      case Push(t, line) => PushKeepsInv(s, t, line, capacity);
      case Credit(t) => MoveThread(s.threads, t, Idle);
      case Acquire(t) => MoveThread(s.threads, t, Claimed);
      case Take(t) =>
        ClaimHasALine(s, t, capacity);
        MoveThread(s.threads, t, Idle);
        OrderKept(Lines(s.departed), s.queue, "");
        LinesJoin(s.departed, Departure(s.queue[0], true));
    }
  }

  /** To take from an empty queue is what would make the `expect` fire. */
  lemma EmptyTakePanics(s: State, t: nat, capacity: nat)
    requires Enabled(s, Take(t)) && s.queue == []
    ensures Next(s, Take(t), capacity).panicked
  {}

  /** A schedule: each action is enabled when its turn comes. */
  ghost predicate Schedule(acts: seq<Action>, capacity: nat)
    decreases |acts|, 1
  {
    acts == [] ||
    (Schedule(acts[..|acts| - 1], capacity) &&
     Enabled(Run(acts[..|acts| - 1], capacity), acts[|acts| - 1]))
  }

  ghost function Run(acts: seq<Action>, capacity: nat): State
    requires Schedule(acts, capacity)
    decreases |acts|, 2
  {
    if acts == [] then START else Next(Run(acts[..|acts| - 1], capacity), acts[|acts| - 1], capacity)
  }

  /** In every interleaving the `expect` never fires, the capacity holds, the reported length never
      overstates, and no line is lost, duplicated or reordered. */
  lemma {:induction false} EveryScheduleIsSafe(acts: seq<Action>, capacity: nat)
    requires capacity >= 1 && Schedule(acts, capacity)
    ensures Inv(Run(acts, capacity), capacity)
    ensures Run(acts, capacity).permits <= |Run(acts, capacity).queue|
    ensures forall t: nat | Enabled(Run(acts, capacity), Take(t)) :: Run(acts, capacity).queue != []
    decreases |acts|
  {
    forall t: nat | Inv(Run(acts, capacity), capacity) && PhaseOf(Run(acts, capacity), t) == Claimed
      ensures Run(acts, capacity).queue != []
    {
      ClaimHasALine(Run(acts, capacity), t, capacity);
    }
    if acts != [] {
      EveryScheduleIsSafe(acts[..|acts| - 1], capacity);
      StepKeepsInv(Run(acts[..|acts| - 1], capacity), acts[|acts| - 1], capacity);
    }
  }

  /** No wakeup is lost: queued lines without a free permit are in the hands of a thread that is in
      the middle of an operation; with all threads idle the permits count the lines. */
  lemma NoLostWakeup(s: State, capacity: nat)
    requires Inv(s, capacity)
    ensures s.queue != [] && s.permits == 0 ==> exists t :: PhaseOf(s, t) != Idle
    ensures (forall t :: PhaseOf(s, t) == Idle) ==> s.permits == |s.queue|
  {
    if forall t :: PhaseOf(s, t) == Idle {
      assert forall t | t in s.threads :: s.threads[t] == PhaseOf(s, t);
      assert In(s.threads, Claimed) == {} && In(s.threads, Crediting) == {};
    }
  }

  /** A capacity of 0 breaks the count: the first pushed line stays queued with no permit, held by
      no thread, so no consumer is ever woken for it. */
  lemma ZeroCapacityStrandsALine(t: nat, line: string)
    ensures Schedule([Push(t, line)], 0)
    ensures var s := Run([Push(t, line)], 0);
            && s.queue == [line] && s.permits == 0 && (forall u :: PhaseOf(s, u) == Idle) && !Inv(s, 0)
  {
    var acts := [Push(t, line)];
    assert acts[..0] == [] && acts[0] == Push(t, line);
    assert Run(acts[..0], 0) == START;
  }

  /** A queued line never waits without cause: some thread can go on with it, or every idle thread can
      claim one. And an idle thread can always push. */
  lemma QueuedLinesMove(s: State, t: nat, line: string, capacity: nat)
    requires Inv(s, capacity) && PhaseOf(s, t) == Idle
    ensures Enabled(s, Push(t, line))
    ensures s.queue != [] ==>
              Enabled(s, Acquire(t)) || exists u: nat :: Enabled(s, Credit(u)) || Enabled(s, Take(u))
  {
    if s.queue != [] && s.permits == 0 {
      if u :| u in In(s.threads, Claimed) {
        assert Enabled(s, Take(u));
      } else {
        assert In(s.threads, Claimed) == {};
        var u :| u in In(s.threads, Crediting);
        assert Enabled(s, Credit(u));
      }
    }
  }
}
