/** Reconnecting the stream: when `poll` may open a connection and what `done`
    remembers of one that ended. Time is in milliseconds. */
module Streaming {
  import opened FlagSchema
  import opened Bits

  const SERVER_TIMEOUT := 300000.0
  /** The largest random number; `RAND_MAX` of the platform where it is not Windows. */
  const RAND_MAX := 0x7fff_ffff

  /** The longest wait before an attempt. */
  function Ceiling(attempts: nat): (r: real)
    ensures 0.0 < r <= 30000.0
  {
    var backoff := 500.0 * Power(attempts) as real;
    if backoff > 30000.0 then 30000.0 else backoff
  }

  /** From the sixth attempt on the ceiling is the cap, and before it doubles. */
  lemma CeilingGrows(n: nat)
    ensures Ceiling(n) == 30000.0 <==> n >= 6
    ensures n < 5 ==> Ceiling(n + 1) == 2.0 * Ceiling(n)
  {
    assert Power(6) == 64 && Power(5) == 32;
    if n >= 6 {
      PowerAtLeast(6, n);
    } else {
      PowerAtLeast(n, 5);
      assert Power(n + 1) == 2 * Power(n);
      if n < 5 {
        PowerAtLeast(n + 1, 5);
      }
    }
  }

  lemma {:induction false} PowerAtLeast(m: nat, n: nat)
    requires m <= n
    ensures Power(n) >= Power(m)
    decreases n
  {
    if m < n {
      PowerAtLeast(m, n - 1);
    }
  }

  /** Whether a wait is one the schedule allows before an attempt. */
  predicate WaitFits(attempts: nat, delay: real) {
    if attempts == 1 then delay == 1000.0
    else Ceiling(attempts) / 2.0 <= delay <= Ceiling(attempts)
  }

  /** The waits in milliseconds. */
  lemma WaitsAre(attempts: nat, delay: real)
    ensures WaitFits(attempts, delay)
       <==> match attempts
            case 0 => 250.0 <= delay <= 500.0
            case 1 => delay == 1000.0
            case 2 => 1000.0 <= delay <= 2000.0
            case 3 => 2000.0 <= delay <= 4000.0
            case 4 => 4000.0 <= delay <= 8000.0
            case 5 => 8000.0 <= delay <= 16000.0
            case _ => 15000.0 <= delay <= 30000.0
  {
    CeilingGrows(attempts);
    assert Power(0) == 1 && Power(2) == 4 && Power(3) == 8 && Power(4) == 16 && Power(5) == 32;
  }

  /** `LDi_normalize` of a random number onto a range that starts at none. */
  function Normalize(rng: nat, width: real): (r: real)
    requires rng <= RAND_MAX && width >= 0.0
    ensures 0.0 <= r <= width && r * 2147483647.0 == rng as real * width
  {
    var r := rng as real * width / RAND_MAX as real;
    ScaledWithin(rng as real, RAND_MAX as real, width);
    r
  }

  lemma ScaledWithin(a: real, b: real, width: real)
    requires 0.0 <= a <= b && b > 0.0 && width >= 0.0
    ensures 0.0 <= a * width / b <= width
  {
    assert 0.0 <= a * width <= b * width;
    assert b * width / b == width;
  }

  /** An opening: when, after how many failures in a row, and the wait that led to it. */
  datatype Opening = Opening(at: real, attempts: nat, since: real, delay: real)

  /** The wait was of the right length and is over, to the millisecond. */
  ghost predicate Waited(o: Opening) {
    o.attempts > 0 ==> WaitFits(o.attempts, o.delay) && o.since <= o.at && o.at >= Truncate(o.since + o.delay) as real
  }

  predicate Permanent(code: int) {
    400 <= code < 500 && code != 400 && code != 408 && code != 429
  }

  class Stream {
    var active: bool
    var attempts: nat
    var waitUntil: nat
    var startedOn: nat
    var permanentFailure: bool
    var lastRead: real
    /** Every connection opened, how many have ended, and the wait being served. */
    ghost var opens: seq<Opening>
    ghost var closes: nat
    ghost var since: real
    ghost var delay: real
    /** How many had been opened when the failure became permanent. */
    ghost var opensAtFailure: nat

    constructor ()
      ensures Valid() && !active && attempts == 0 && !permanentFailure && opens == []
    {
      active, attempts, waitUntil, startedOn, permanentFailure, lastRead := false, 0, 0, 0, false, 0.0;
      opens, closes, since, delay, opensAtFailure := [], 0, 0.0, 0.0, 0;
    }

    /** At most one connection is open; every one was opened after its wait; none
        since the failure became permanent. */
    ghost predicate Valid()
      reads this
    {
      && |opens| == closes + (if active then 1 else 0)
      && (forall i :: 0 <= i < |opens| ==> Waited(opens[i]))
      && (permanentFailure ==> !active && |opens| == opensAtFailure)
      && (waitUntil != 0 ==>
            && !active && attempts > 0 && WaitFits(attempts, delay)
            && waitUntil == Truncate(since + delay))
    }

    /** Nothing failed before, or the wait scheduled is over. */
    predicate WaitOver(now: real)
      reads this
    {
      attempts == 0 || (waitUntil != 0 && now >= waitUntil as real)
    }

    /** `LDi_streamWriteCallback`: the stream is not silent. */
    method Read(now: real)
      requires Valid()
      modifies this`lastRead
      ensures Valid() && lastRead == now
    {
      lastRead := now;
    }

    /** `done`: a stream that ran for a minute clears the count of failures. */
    method Done(code: int, now: real)
      requires Valid() && active && now >= 0.0
      modifies this`active, this`attempts, this`permanentFailure, this`closes, this`opensAtFailure
      ensures Valid() && !active && closes == old(closes) + 1
      ensures attempts == if code == 200 && now >= (startedOn + 60000) as real then 0 else old(attempts) + 1
      ensures permanentFailure <==> 401 <= code <= 499 && code != 408 && code != 429
    {
      active, closes := false, closes + 1;
      if code != 200 && Permanent(code) {
        permanentFailure, opensAtFailure := true, |opens|;
      }
      if code == 200 && now >= (startedOn + 60000) as real {
        attempts := 0;
      } else {
        attempts := attempts + 1;
      }
    }

    /** `poll`: `enabled` is the configuration, `removed` whether a silent stream's
        handle could be freed, `prepared` whether the request could be set up. */
    method Poll(now: real, rng: nat, enabled: bool, removed: bool, prepared: bool) returns (started: bool)
      requires Valid() && 0.0 <= now && rng <= RAND_MAX && since <= now
      modifies this
      ensures Valid()
      ensures started ==> active && !old(active) && attempts == old(attempts)
      ensures started ==> opens == old(opens) + [Opening(now, attempts, since, delay)]
      ensures !started ==> opens == old(opens)
      ensures since == old(since) || since == now
      ensures old(permanentFailure) ==> permanentFailure && !started && !active
      ensures started == (enabled && prepared && old(!permanentFailure && !active && WaitOver(now)))
      ensures enabled && old(active) ==> active == !(removed && old(lastRead) + 300000.0 <= now)
      ensures !enabled && old(active) ==> active
    {
      started := false;
      if !enabled || permanentFailure {
        return;
      }
      if active {
        if lastRead + SERVER_TIMEOUT <= now && removed {
          Done(0, now);
        }
        return;
      }
      if attempts != 0 {
        if waitUntil == 0 {
          Schedule(now, rng);
          return;
        }
        if now < waitUntil as real {
          return;
        }
        waitUntil := 0;
        startedOn := Truncate(now);
      }
      if prepared {
        opens := opens + [Opening(now, attempts, since, delay)];
        active, lastRead := true, now;
        started := true;
      }
    }

    /** The wait before the next attempt: a second before the first, then between half
        and all of the ceiling. */
    method Schedule(now: real, rng: nat)
      requires Valid() && 0.0 <= now && rng <= RAND_MAX && attempts != 0 && waitUntil == 0 && !active
      modifies this`waitUntil, this`since, this`delay
      ensures Valid() && waitUntil != 0 && since == now && WaitFits(attempts, delay)
      ensures waitUntil == Truncate(now + delay)
      ensures attempts != 1 ==>
        var half := Ceiling(attempts) / 2.0;
        (delay - half) * 2147483647.0 == rng as real * half
    {
      if attempts == 1 {
        since, delay := now, 1000.0;
        waitUntil := Truncate(now + 1000.0);
        return;
      }
      var backoff := Ceiling(attempts);
      backoff := backoff / 2.0;
      backoff := backoff + Normalize(rng, backoff);
      CeilingAtLeast(attempts);
      since, delay := now, backoff;
      waitUntil := Truncate(now + backoff);
    }
  }

  datatype Step =
    | Polled(rng: nat, enabled: bool, removed: bool, prepared: bool)
    | Ended(code: int)
    | Heard

  predicate StepsOk(steps: seq<(Step, real)>, start: real) {
    && 0.0 <= start
    && (forall i :: 0 <= i < |steps| ==> start <= steps[i].1 && (steps[i].0.Polled? ==> steps[i].0.rng <= RAND_MAX))
    && (forall i, j :: 0 <= i < j < |steps| ==> steps[i].1 <= steps[j].1)
  }

  /** Any run of polls, ends and reads at any times, what is not due left out: at every point
      at most one connection is open and every one opened after a failure waited as
      scheduled; once the failure is permanent none is opened any more. */
  method Run(s: Stream, steps: seq<(Step, real)>, start: real)
    requires s.Valid() && StepsOk(steps, start) && s.since <= start
    modifies s
    ensures s.Valid() && old(s.opens) <= s.opens
    ensures old(s.permanentFailure) ==> s.permanentFailure && s.opens == old(s.opens)
  {
    ghost var clock := start;
    for i := 0 to |steps|
      invariant s.Valid() && s.since <= clock && 0.0 <= clock && old(s.opens) <= s.opens
      invariant i < |steps| ==> clock <= steps[i].1
      invariant old(s.permanentFailure) ==> s.permanentFailure && s.opens == old(s.opens)
    {
      var now := steps[i].1;
      match steps[i].0 {
        case Polled(rng, enabled, removed, prepared) =>
          var started := s.Poll(now, rng, enabled, removed, prepared);
        case Ended(code) =>
          if s.active {
            s.Done(code, now);
          }
        case Heard =>
          s.Read(now);
      }
      clock := now;
    }
  }

  lemma CeilingAtLeast(n: nat)
    ensures n >= 1 ==> Ceiling(n) >= 1000.0
  {
    if n >= 1 {
      PowerAtLeast(1, n);
    }
  }
}
