/** The reconnect loop: exponential backoff, its bound, and what resets the counter. */
module Reconnect {
  import opened Prelude

  datatype Settings = Settings(maxAttempts: int, initialDelay: real, maxDelay: real)

  /** The range `Settings.validate` accepts. */
  predicate Accepted(c: Settings) {
    c.maxAttempts >= -1 && 0.0 <= c.initialDelay <= c.maxDelay
  }

  /** `AlreadyReady` is `connect` returning before it does anything. */
  datatype Outcome = Connects | AlreadyReady | Fails | Raises

  /**
   * What the environment does to one attempt: the session is closed during the
   * wait, or `connect` has this outcome; `snapshot`: an order snapshot completed
   * inside the connect.
   */
  datatype Attempt = Attempt(closed: bool, outcome: Outcome, snapshot: bool)

  datatype End = Connected | Closed | Exhausted | Unfinished

  datatype Trace = Trace(delays: seq<real>, connects: nat, attempts: nat, end: End)

  function Pow2(n: nat): nat {
    if n == 0 then 1 else 2 * Pow2(n - 1)
  }

  /** x times 2 to the n. */
  function Doubled(x: real, n: nat): real {
    if n == 0 then x else 2.0 * Doubled(x, n - 1)
  }

  function Min(a: real, b: real): real {
    if a <= b then a else b
  }

  /** The delay before attempt number k. */
  function Delay(c: Settings, k: nat): real {
    Min(Doubled(c.initialDelay, if k < 1 then 0 else k - 1), c.maxDelay)
  }

  predicate MayTry(c: Settings, attempts: nat) {
    c.maxAttempts < 0 || attempts < c.maxAttempts
  }

  function CountAfter(attempts: nat, a: Attempt): nat {
    if a.outcome.Connects? || a.snapshot then 0 else attempts + 1
  }

  /** The loop started at a counter value; it is unfinished when the script ends first. */
  function Loop(c: Settings, attempts: nat, script: seq<Attempt>): Trace
    decreases |script|
  {
    if !MayTry(c, attempts) then Trace([], 0, attempts, Exhausted)
    else if script == [] then Trace([], 0, attempts, Unfinished)
    else
      var a := script[0];
      var delay := Delay(c, attempts + 1);
      if a.closed then Trace([delay], 0, attempts + 1, Closed)
      else if a.outcome.Connects? || a.outcome.AlreadyReady? then Trace([delay], 1, CountAfter(attempts, a), Connected)
      else
        var rest := Loop(c, CountAfter(attempts, a), script[1..]);
        After([delay], 1, rest)
  }

  /** Some attempts already made, then the rest. */
  function After(delays: seq<real>, connects: nat, rest: Trace): Trace {
    Trace(delays + rest.delays, connects + rest.connects, rest.attempts, rest.end)
  }

  lemma AfterTwice(delays: seq<real>, connects: nat, delay: real, rest: Trace)
    ensures After(delays, connects, After([delay], 1, rest)) == After(delays + [delay], connects + 1, rest)
  {
  }

  class Reconnector {
    const settings: Settings
    var reconnectAttempts: nat

    constructor (settings: Settings)
      ensures this.settings == settings && reconnectAttempts == 0
    {
      this.settings, reconnectAttempts := settings, 0;
    }

    /** `connect` as far as the counter is concerned. */
    method Connect(a: Attempt) returns (ok: bool)
      modifies this
      ensures ok <==> a.outcome.Connects? || a.outcome.AlreadyReady?
      ensures reconnectAttempts == if a.outcome.Connects? || a.snapshot then 0 else old(reconnectAttempts)
    {
      if a.snapshot {
        reconnectAttempts := 0;
      }
      if a.outcome.Connects? {
        reconnectAttempts := 0;
      }
      return a.outcome.Connects? || a.outcome.AlreadyReady?;
    }

    method ReconnectLoop(script: seq<Attempt>) returns (trace: Trace)
      modifies this
      ensures trace == Loop(settings, old(reconnectAttempts), script)
      ensures reconnectAttempts == trace.attempts
    {
      var delays: seq<real> := [];
      var connects, i := 0, 0;
      while settings.maxAttempts < 0 || reconnectAttempts < settings.maxAttempts
        invariant 0 <= i <= |script| && connects >= 0
        invariant Loop(settings, old(reconnectAttempts), script) ==
                  After(delays, connects, Loop(settings, reconnectAttempts, script[i..]))
        decreases |script| - i
      {
        if i == |script| {
          return Trace(delays, connects, reconnectAttempts, Unfinished);
        }
        var a := script[i];
        ghost var before, rest := reconnectAttempts, Loop(settings, reconnectAttempts, script[i..]);
        assert script[i..][0] == a && script[i..][1..] == script[i + 1..];
        reconnectAttempts := reconnectAttempts + 1;
        var delay := Delay(settings, reconnectAttempts);
        delays := delays + [delay];
        if a.closed {
          assert rest == Trace([delay], 0, reconnectAttempts, Closed);
          return Trace(delays, connects, reconnectAttempts, Closed);
        }
        var ok := Connect(a);
        connects := connects + 1;
        if ok {
          assert rest == Trace([delay], 1, reconnectAttempts, Connected);
          return Trace(delays, connects, reconnectAttempts, Connected);
        }
        assert rest == After([delay], 1, Loop(settings, reconnectAttempts, script[i + 1..]));
        AfterTwice(delays[..|delays| - 1], connects - 1, delay, Loop(settings, reconnectAttempts, script[i + 1..]));
        i := i + 1;
      }
      return Trace(delays, connects, reconnectAttempts, Exhausted);
    }
  }

  // ---- Delays ----

  lemma TwiceProduct(x: real, p: real, q: real, d: real)
    requires d == x * p && q == 2.0 * p
    ensures 2.0 * d == x * q
  {
    assert x * (2.0 * p) == 2.0 * (x * p);
  }

  lemma PowerDoubles(n: nat)
    requires n > 0
    ensures Pow2(n) as real == 2.0 * Pow2(n - 1) as real
  {
  }

  lemma {:induction false} DoubledIsPower(x: real, n: nat)
    ensures Doubled(x, n) == x * Pow2(n) as real
  {
    if n > 0 {
      DoubledIsPower(x, n - 1);
      PowerDoubles(n);
      TwiceProduct(x, Pow2(n - 1) as real, Pow2(n) as real, Doubled(x, n - 1));
    }
  }

  lemma {:induction false} DoubledPositive(x: real, n: nat)
    requires 0.0 <= x
    ensures 0.0 <= Doubled(x, n)
  {
    if n > 0 { DoubledPositive(x, n - 1); }
  }

  lemma DelayFromAttempt(c: Settings, k: nat)
    requires k >= 1
    ensures Delay(c, k) == Min(Doubled(c.initialDelay, k - 1), c.maxDelay)
  {
  }

  /** The delay before attempt k in closed form. */
  lemma DelayFormula(c: Settings, k: nat, planned: real)
    requires k >= 1 && planned == c.initialDelay * Pow2(k - 1) as real
    ensures Delay(c, k) == Min(planned, c.maxDelay)
  {
    DoubledIsPower(c.initialDelay, k - 1);
    DelayFromAttempt(c, k);
  }

  /** Delays never shrink from one attempt to the next and never exceed the configured maximum. */
  lemma DelaysGrow(c: Settings, k: nat)
    requires Accepted(c) && k >= 1
    ensures 0.0 <= Delay(c, k) <= Delay(c, k + 1) <= c.maxDelay
  {
    DoubledPositive(c.initialDelay, k - 1);
  }

  /** No failing connect of the script completes an order snapshot. */
  predicate Steady(script: seq<Attempt>) {
    forall i :: 0 <= i < |script| && (script[i].outcome.Fails? || script[i].outcome.Raises?) ==> !script[i].snapshot
  }

  function Sum(delays: seq<real>): real {
    if delays == [] then 0.0 else delays[0] + Sum(delays[1..])
  }

  /**
   * The planned delays are those of consecutive attempt numbers, for every
   * script in which no failing connect completes an order snapshot.
   */
  lemma {:induction false} DelaysAreConsecutive(c: Settings, attempts: nat, script: seq<Attempt>, i: nat)
    requires Steady(script) && i < |Loop(c, attempts, script).delays|
    ensures Loop(c, attempts, script).delays[i] == Delay(c, attempts + 1 + i)
    decreases |script|
  {
    if i > 0 {
      DelaysAreConsecutive(c, attempts + 1, script[1..], i - 1);
    }
  }

  /** x added up n times. */
  function Times(n: nat, x: real): real {
    if n == 0 then 0.0 else x + Times(n - 1, x)
  }

  lemma {:induction false} TimesIsProduct(n: nat, x: real)
    ensures Times(n, x) == n as real * x
  {
    if n > 0 {
      TimesIsProduct(n - 1, x);
      var r := (n - 1) as real;
      assert n as real == r + 1.0;
      assert (r + 1.0) * x == r * x + x;
    }
  }

  lemma {:induction false} SumBound(delays: seq<real>, n: nat, x: real)
    requires |delays| <= n && 0.0 <= x && forall i :: 0 <= i < |delays| ==> delays[i] <= x
    ensures Sum(delays) <= Times(n, x)
    decreases n
  {
    if delays != [] {
      SumBound(delays[1..], n - 1, x);
    } else if n > 0 {
      SumBound(delays, n - 1, x);
    }
  }

  /**
   * With finitely many attempts allowed the loop plans at most as many as are
   * left, connects no more often, and has ended once the environment has given
   * that many answers.
   */
  lemma {:induction false} AttemptsLeft(c: Settings, attempts: nat, script: seq<Attempt>)
    requires c.maxAttempts >= 0 && attempts <= c.maxAttempts && Steady(script)
    ensures var t, left := Loop(c, attempts, script), c.maxAttempts - attempts;
            && t.connects <= |t.delays| <= left
            && (|script| >= left ==> !t.end.Unfinished?)
    decreases |script|
  {
    if MayTry(c, attempts) && script != [] && !script[0].closed
      && (script[0].outcome.Fails? || script[0].outcome.Raises?)
    {
      AttemptsLeft(c, attempts + 1, script[1..]);
    }
  }

  lemma DelayCapped(c: Settings, k: nat)
    ensures Delay(c, k) <= c.maxDelay
  {
  }

  lemma {:induction false} DelaysCapped(c: Settings, attempts: nat, script: seq<Attempt>, i: nat)
    requires i < |Loop(c, attempts, script).delays|
    ensures Loop(c, attempts, script).delays[i] <= c.maxDelay
    decreases |script|
  {
    if i == 0 {
      DelayCapped(c, attempts + 1);
    } else {
      DelaysCapped(c, CountAfter(attempts, script[0]), script[1..], i - 1);
    }
  }

  lemma LoopDelays(c: Settings, attempts: nat, script: seq<Attempt>, delays: seq<real>, left: nat)
    requires c.maxAttempts >= 0 && attempts <= c.maxAttempts && Steady(script)
    requires delays == Loop(c, attempts, script).delays && left == c.maxAttempts - attempts
    ensures |delays| <= left && forall i :: 0 <= i < |delays| ==> delays[i] <= c.maxDelay
  {
    AttemptsLeft(c, attempts, script);
    forall i | 0 <= i < |delays| ensures delays[i] <= c.maxDelay {
      DelaysCapped(c, attempts, script, i);
    }
  }

  /** Such a loop waits, in total, at most the longest delay for each attempt left. */
  lemma BackoffBound(c: Settings, attempts: nat, script: seq<Attempt>, delays: seq<real>, left: nat)
    requires Accepted(c) && c.maxAttempts >= 0 && attempts <= c.maxAttempts && Steady(script)
    requires delays == Loop(c, attempts, script).delays && left == c.maxAttempts - attempts
    ensures Sum(delays) <= Times(left, c.maxDelay)
  {
    LoopDelays(c, attempts, script, delays, left);
    SumBound(delays, left, c.maxDelay);
  }

  /** An exhausted loop leaves the counter at the limit, and then the next loop does not try at all. */
  lemma {:induction false} ExhaustionIsSticky(c: Settings, attempts: nat, script: seq<Attempt>, next: seq<Attempt>)
    requires c.maxAttempts >= 0 && attempts <= c.maxAttempts && Loop(c, attempts, script).end.Exhausted?
    ensures Loop(c, attempts, script).attempts == c.maxAttempts
    ensures Loop(c, c.maxAttempts, next) == Trace([], 0, c.maxAttempts, Exhausted)
    decreases |script|
  {
    if MayTry(c, attempts) {
      ExhaustionIsSticky(c, CountAfter(attempts, script[0]), script[1..], next);
    }
  }

  // ---- The condition is exact ----

  /** A loop that has not ended goes on from its counter. */
  lemma {:induction false} LoopGoesOn(c: Settings, attempts: nat, script: seq<Attempt>, more: seq<Attempt>)
    requires Loop(c, attempts, script).end.Unfinished?
    ensures MayTry(c, Loop(c, attempts, script).attempts)
    ensures Loop(c, attempts, script + more).connects ==
              |script| + Loop(c, Loop(c, attempts, script).attempts, more).connects
    decreases |script|
  {
    if script == [] {
      assert script + more == more;
    } else {
      assert (script + more)[0] == script[0] && (script + more)[1..] == script[1..] + more;
      LoopGoesOn(c, CountAfter(attempts, script[0]), script[1..], more);
    }
  }

  /** Once a failing connect completed an order snapshot the counter is behind the attempts made. */
  lemma {:induction false} CounterFallsBehind(c: Settings, attempts: nat, script: seq<Attempt>)
    requires Loop(c, attempts, script).end.Unfinished?
    ensures Loop(c, attempts, script).attempts <= attempts + |script|
    ensures !Steady(script) ==> Loop(c, attempts, script).attempts < |script|
    decreases |script|
  {
    if script != [] {
      CounterFallsBehind(c, CountAfter(attempts, script[0]), script[1..]);
    }
  }

  function Failures(n: nat): (script: seq<Attempt>)
    ensures |script| == n && forall i :: 0 <= i < n ==> script[i] == Attempt(false, Fails, false)
  {
    if n == 0 then [] else [Attempt(false, Fails, false)] + Failures(n - 1)
  }

  /** Plain failures use up every attempt left. */
  lemma {:induction false} FailuresExhaust(c: Settings, attempts: nat)
    requires c.maxAttempts >= 0 && attempts <= c.maxAttempts
    ensures Loop(c, attempts, Failures(c.maxAttempts - attempts)).connects == c.maxAttempts - attempts
    decreases c.maxAttempts - attempts
  {
    if attempts < c.maxAttempts {
      FailuresExhaust(c, attempts + 1);
    }
  }

  /**
   * A loop that is still trying stays within the attempts it had at the start,
   * whatever steady answers follow, exactly when no connect so far completed an
   * order snapshot and then failed.
   */
  lemma BoundExactly(c: Settings, attempts: nat, script: seq<Attempt>)
    requires c.maxAttempts >= 0 && attempts <= c.maxAttempts && Loop(c, attempts, script).end.Unfinished?
    ensures Steady(script) <==>
              forall more :: Steady(more) ==> Loop(c, attempts, script + more).connects <= c.maxAttempts - attempts
  {
    if Steady(script) {
      forall more | Steady(more) ensures Loop(c, attempts, script + more).connects <= c.maxAttempts - attempts {
        AttemptsLeft(c, attempts, script + more);
      }
    } else {
      var count := Loop(c, attempts, script).attempts;
      LoopGoesOn(c, attempts, script, []);
      var more := Failures(c.maxAttempts - count);
      LoopGoesOn(c, attempts, script, more);
      CounterFallsBehind(c, attempts, script);
      FailuresExhaust(c, count);
      assert Steady(more);
    }
  }

  /** Snapshots inside every failing connect keep the loop trying for ever. */
  lemma {:induction false} SnapshotsDefeatBound(c: Settings, n: nat) returns (script: seq<Attempt>)
    requires c.maxAttempts >= 1
    ensures |script| == n && forall i :: 0 <= i < n ==> script[i] == Attempt(false, Fails, true)
    ensures Loop(c, 0, script).connects == n && Loop(c, 0, script).end.Unfinished?
  {
    if n == 0 {
      script := [];
    } else {
      var rest := SnapshotsDefeatBound(c, n - 1);
      script := [Attempt(false, Fails, true)] + rest;
      assert script[1..] == rest;
    }
  }

  // ---- What every loop leaves, in terms of what happened to it ----

  /** The attempt ended neither the loop nor the session. */
  predicate GoesOn(a: Attempt) {
    !a.closed && (a.outcome.Fails? || a.outcome.Raises?)
  }

  /** How many attempts were made since the latest order snapshot, or with `from` earlier ones since the start. */
  function SinceSnapshot(script: seq<Attempt>, from: nat): nat {
    if script == [] then from
    else if script[|script| - 1].snapshot then 0
    else SinceSnapshot(script[..|script| - 1], from) + 1
  }

  lemma {:induction false} SinceFirst(script: seq<Attempt>, from: nat)
    requires script != []
    ensures SinceSnapshot(script, from) == SinceSnapshot(script[1..], if script[0].snapshot then 0 else from + 1)
  {
    var n := |script| - 1;
    if n > 0 {
      SinceFirst(script[..n], from);
      assert script[..n][1..] == script[1..][..n - 1] && script[1..][n - 1] == script[n];
    }
  }

  /**
   * How a loop ends: each delay belongs to one attempt, all but the last of them
   * went on; a closed session ends it after the wait without a connect, success
   * and finding the session ready end it after the connect, and otherwise it
   * ends when the counter reaches the limit or the script is over.
   */
  lemma {:induction false} LoopEnds(c: Settings, attempts: nat, script: seq<Attempt>)
    ensures var t := Loop(c, attempts, script);
            var n := |t.delays|;
            && n <= |script|
            && (forall i :: 0 <= i < n - 1 ==> GoesOn(script[i]))
            && (t.end.Closed? <==> n > 0 && script[n - 1].closed)
            && (t.end.Connected? <==>
                  n > 0 && !script[n - 1].closed
                  && (script[n - 1].outcome.Connects? || script[n - 1].outcome.AlreadyReady?))
            && t.connects == (if t.end.Closed? then n - 1 else n)
            && (t.end.Unfinished? ==> n == |script| && MayTry(c, t.attempts))
            && (t.end.Exhausted? ==> !MayTry(c, t.attempts))
    decreases |script|
  {
    if MayTry(c, attempts) && script != [] && GoesOn(script[0]) {
      LoopEnds(c, CountAfter(attempts, script[0]), script[1..]);
      var t := Loop(c, attempts, script);
      forall i | 0 <= i < |t.delays| - 1 ensures GoesOn(script[i]) {
        if i > 0 { assert script[i] == script[1..][i - 1]; }
      }
    }
  }

  /** The counter a loop leaves: zero after success, otherwise the attempts made since the latest snapshot. */
  lemma {:induction false} LoopCounts(c: Settings, attempts: nat, script: seq<Attempt>)
    ensures var t := Loop(c, attempts, script);
            var n := |t.delays|;
            && n <= |script|
            && (t.end.Exhausted? || t.end.Unfinished? ==> t.attempts == SinceSnapshot(script[..n], attempts))
            && (t.end.Closed? ==> n > 0 && t.attempts == SinceSnapshot(script[..n - 1], attempts) + 1)
            && (t.end.Connected? ==>
                  && n > 0
                  && t.attempts == if script[n - 1].outcome.Connects? then 0 else SinceSnapshot(script[..n], attempts))
    decreases |script|
  {
    if MayTry(c, attempts) && script != [] {
      var n := |Loop(c, attempts, script).delays|;
      if GoesOn(script[0]) {
        LoopCounts(c, CountAfter(attempts, script[0]), script[1..]);
        assert script[..n][1..] == script[1..][..n - 1];
        SinceFirst(script[..n], attempts);
        if n > 1 {
          assert script[n - 1] == script[1..][n - 2] && script[..n - 1][1..] == script[1..][..n - 2];
          SinceFirst(script[..n - 1], attempts);
        }
      } else {
        assert script[..1][..0] == [];
        assert SinceSnapshot(script[..1], attempts) == if script[0].snapshot then 0 else attempts + 1;
      }
    }
  }
}
