/** The pipeline's sliding-window duplicate detector. Keys are the 64-bit payload hashes; times are
    monotone clock readings. */
module Dedupe {
  import opened Prelude

  datatype Call = Call(key: nat, at: nat)

  predicate Heard(seen: map<nat, nat>, c: Call, ttl: nat) {
    c.key in seen && Since(c.at, seen[c.key]) <= ttl
  }

  /** The specification: the time each key was last accepted, never forgotten. */
  function Remembered(calls: seq<Call>, ttl: nat): map<nat, nat> {
    if calls == [] then map[] else
      var m, c := Remembered(calls[..|calls| - 1], ttl), calls[|calls| - 1];
      if Heard(m, c, ttl) then m else m[c.key := c.at]
  }

  predicate Accepted(calls: seq<Call>, ttl: nat, i: nat)
    requires i < |calls|
  {
    !Heard(Remembered(calls[..i], ttl), calls[i], ttl)
  }

  predicate Monotone(start: nat, calls: seq<Call>) {
    && (forall i | 0 <= i < |calls| :: start <= calls[i].at)
    && (forall i, j | 0 <= i < j < |calls| :: calls[i].at <= calls[j].at)
  }

  function Latest(start: nat, calls: seq<Call>): nat {
    if calls == [] then start else calls[|calls| - 1].at
  }

  // ------------------------------------------------------------ the algorithm

  class Window {
    const ttl: nat
    const start: nat
    var seen: map<nat, nat>
    var lastSweep: nat
    ghost var calls: seq<Call>

    /** The swept map is the never-swept one less entries that had expired at the last sweep. */
    ghost predicate Valid()
      reads this
    {
      Sound(start, calls, seen, lastSweep, ttl)
    }

    constructor (ttl: nat, now: nat)
      ensures Valid() && this.ttl == ttl && start == now && calls == []
    {
      this.ttl, start := ttl, now;
      seen, lastSweep, calls := map[], now, [];
    }

    /** On monotone time the swept window answers as a map that is never swept. It holds no entry
        of age 2 * ttl or more. */
    method Seen(key: nat, now: nat) returns (duplicate: bool)
      requires Valid() && now >= Latest(start, calls)
      modifies this
      ensures Valid() && calls == old(calls) + [Call(key, now)]
      ensures duplicate == Heard(Remembered(old(calls), ttl), Call(key, now), ttl)
      ensures ttl > 0 ==> forall k | k in seen :: now - seen[k] < 2 * ttl
    {
      Sweep(now);
      CallKeepsSound(start, calls, seen, lastSweep, ttl, Call(key, now));
      hide Sound, Remembered;
      if key in seen && Since(now, seen[key]) <= ttl {
        duplicate := true;
      } else {
        seen := seen[key := now];
        duplicate := false;
      }
      calls := calls + [Call(key, now)];
    }

    method Sweep(now: nat)
      requires Valid() && now >= Latest(start, calls)
      modifies `seen, `lastSweep
      ensures SweptBy(start, calls, seen, lastSweep, ttl, now)
      ensures Since(now, old(lastSweep)) < ttl ==> seen == old(seen) && lastSweep == old(lastSweep)
      ensures Since(now, old(lastSweep)) >= ttl ==>
                && lastSweep == now
                && forall k :: k in seen <==> k in old(seen) && now - old(seen)[k] <= ttl
    {
      if Since(now, lastSweep) < ttl {
        return;
      }
      seen := map k | k in seen && Since(now, seen[k]) <= ttl :: seen[k];
      lastSweep := now;
    }
  }

  ghost predicate Sound(start: nat, calls: seq<Call>, seen: map<nat, nat>, lastSweep: nat, ttl: nat) {
    && Monotone(start, calls)
    && start <= lastSweep <= Latest(start, calls)
    && Since(Latest(start, calls), lastSweep) <= ttl
    && Swept(seen, Remembered(calls, ttl), lastSweep, ttl)
    && (forall k | k in seen :: seen[k] <= Latest(start, calls))
  }

  /** Ready for a call at `now`: the last sweep is less than `ttl` ago, or just now. */
  ghost predicate SweptBy(start: nat, calls: seq<Call>, seen: map<nat, nat>, lastSweep: nat, ttl: nat, now: nat) {
    && Monotone(start, calls) && Latest(start, calls) <= now
    && start <= lastSweep <= now && (ttl > 0 ==> now - lastSweep < ttl) && (ttl == 0 ==> now == lastSweep)
    && Swept(seen, Remembered(calls, ttl), lastSweep, ttl)
    && (forall k | k in seen :: seen[k] <= now)
  }

  lemma CallKeepsSound(start: nat, calls: seq<Call>, seen: map<nat, nat>, lastSweep: nat, ttl: nat, c: Call)
    requires SweptBy(start, calls, seen, lastSweep, ttl, c.at)
    ensures Heard(seen, c, ttl) <==> Heard(Remembered(calls, ttl), c, ttl)
    ensures Sound(start, calls + [c], if Heard(seen, c, ttl) then seen else seen[c.key := c.at], lastSweep, ttl)
    ensures ttl > 0 ==> forall k | k in seen :: c.at - seen[k] < 2 * ttl
  {
    hide Swept, Remembered, Monotone;
    CallKeepsSwept(seen, Remembered(calls, ttl), lastSweep, ttl, c);
    MonotoneGrows(start, calls, c);
    RememberedGrows(calls, c, ttl);
  }

  ghost predicate Swept(seen: map<nat, nat>, whole: map<nat, nat>, lastSweep: nat, ttl: nat) {
    && (forall k | k in seen :: k in whole && seen[k] == whole[k] && Since(lastSweep, seen[k]) <= ttl)
    && (forall k | k in whole && k !in seen :: Since(lastSweep, whole[k]) > ttl)
  }

  lemma CallKeepsSwept(seen: map<nat, nat>, whole: map<nat, nat>, lastSweep: nat, ttl: nat, c: Call)
    requires Swept(seen, whole, lastSweep, ttl) && lastSweep <= c.at
    ensures Heard(seen, c, ttl) <==> Heard(whole, c, ttl)
    ensures Swept(seen[c.key := c.at], whole[c.key := c.at], lastSweep, ttl)
    ensures ttl > 0 && c.at - lastSweep < ttl ==> forall k | k in seen :: c.at - seen[k] < 2 * ttl
  {}

  lemma RememberedGrows(calls: seq<Call>, c: Call, ttl: nat)
    ensures var m := Remembered(calls, ttl);
            Remembered(calls + [c], ttl) == if Heard(m, c, ttl) then m else m[c.key := c.at]
  {
    assert (calls + [c])[..|calls|] == calls;
  }

  lemma MonotoneGrows(start: nat, calls: seq<Call>, c: Call)
    requires Monotone(start, calls) && c.at >= Latest(start, calls)
    ensures Monotone(start, calls + [c]) && Latest(start, calls + [c]) == c.at
  {}

  // --------------------------------------------------------- what it promises

  /** A remembered time is that of the key's last accepted call. */
  lemma {:induction false} RememberedIsLastAccepted(calls: seq<Call>, ttl: nat, key: nat) returns (i: nat)
    ensures key in Remembered(calls, ttl) ==>
              && i < |calls| && calls[i] == Call(key, Remembered(calls, ttl)[key]) && Accepted(calls, ttl, i)
              && forall j | i < j < |calls| && calls[j].key == key :: !Accepted(calls, ttl, j)
    ensures key !in Remembered(calls, ttl) ==> forall j | 0 <= j < |calls| :: calls[j].key != key
  {
    i := 0;
    if calls != [] {
      var init, last := calls[..|calls| - 1], |calls| - 1;
      i := RememberedIsLastAccepted(init, ttl, key);
      forall j: nat | j < last
        ensures init[..j] == calls[..j] && (Accepted(init, ttl, j) <==> Accepted(calls, ttl, j))
      {
        assert init[..j] == calls[..j];
      }
      if calls[last].key == key && Accepted(calls, ttl, last) {
        i := last;
      }
    }
  }

  /** A call is rejected exactly when an accepted call with its key lies within the preceding `ttl`. */
  lemma RejectedIffRecentlyAccepted(start: nat, calls: seq<Call>, ttl: nat, j: nat)
    requires Monotone(start, calls) && j < |calls|
    ensures !Accepted(calls, ttl, j) <==>
            exists i: nat ::
              i < j && calls[i].key == calls[j].key && Accepted(calls, ttl, i) && calls[j].at - calls[i].at <= ttl
  {
    hide Remembered;
    var before, key := calls[..j], calls[j].key;
    var i := RememberedIsLastAccepted(before, ttl, key);
    forall k: nat | k < j
      ensures Accepted(before, ttl, k) <==> Accepted(calls, ttl, k)
    {
      assert before[..k] == calls[..k];
    }
    if exists k: nat :: k < j && calls[k].key == key && Accepted(calls, ttl, k) && calls[j].at - calls[k].at <= ttl {
      var k: nat :| k < j && calls[k].key == key && Accepted(calls, ttl, k) && calls[j].at - calls[k].at <= ttl;
      assert before[k].key == key && Accepted(before, ttl, k);
      assert k <= i;
    }
  }

  /** Copies let through under one key are more than `ttl` apart. */
  lemma AcceptedCopiesAreFarApart(start: nat, calls: seq<Call>, ttl: nat, i: nat, j: nat)
    requires Monotone(start, calls) && i < j < |calls| && calls[i].key == calls[j].key
    requires Accepted(calls, ttl, i) && Accepted(calls, ttl, j)
    ensures calls[j].at - calls[i].at > ttl
  {
    RejectedIffRecentlyAccepted(start, calls, ttl, j);
  }
}
