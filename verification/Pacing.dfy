/**
 * Deadline pacing of the producer: each batch is started against a deadline that advances by
 * the configured frequency, and is reset to the clock when a batch runs late.
 */
module Pacing {

  /** Clock readings by batch: when it starts, the reading after it, and the second reading
      taken when it turned out late. */
  datatype Clock = Clock(start: nat -> real, finish: nat -> real, reset: nat -> real)

  /** One update of `next_deadline`. */
  function Advance(deadline: real, f: real, finish: real, reset: real): real {
    if deadline + f - finish > 0.0 then deadline + f else reset
  }

  function Deadline(c: Clock, t0: real, f: real, k: nat): real {
    if k == 0 then t0 else Advance(Deadline(c, t0, f, k - 1), f, c.finish(k - 1), c.reset(k - 1))
  }

  predicate OnTime(c: Clock, t0: real, f: real, k: nat) {
    c.finish(k) < Deadline(c, t0, f, k) + f
  }

  predicate FairAt(c: Clock, t0: real, f: real, k: nat) {
    && c.start(k) <= c.finish(k)
    && var sleepFor := Deadline(c, t0, f, k) + f - c.finish(k);
       if sleepFor > 0.0 then c.finish(k) + sleepFor <= c.start(k + 1)
       else c.finish(k) <= c.reset(k) <= c.start(k + 1)
  }

  /** The clock never runs backwards and a sleep is never shorter than asked. */
  ghost predicate Fair(c: Clock, t0: real, f: real) {
    && t0 <= c.start(0)
    && forall k: nat :: FairAt(c, t0, f, k)
  }

  /** A deadline moves forward by at least the frequency. */
  lemma DeadlineStep(c: Clock, t0: real, f: real, k: nat)
    requires f >= 0.0 && Fair(c, t0, f)
    ensures Deadline(c, t0, f, k) + f <= Deadline(c, t0, f, k + 1) <= c.start(k + 1)
  {
    assert FairAt(c, t0, f, k);
  }

  /** Main: the k-th batch starts no earlier than k frequencies after the first deadline. */
  lemma {:induction false} StartsNoEarlier(c: Clock, t0: real, f: real, k: nat)
    requires f >= 0.0 && Fair(c, t0, f)
    ensures t0 + k as real * f <= Deadline(c, t0, f, k) <= c.start(k)
  {
    if k > 0 {
      StartsNoEarlier(c, t0, f, k - 1);
      DeadlineStep(c, t0, f, k - 1);
      assert k as real * f == (k - 1) as real * f + f;
    }
  }

  lemma {:induction false} BoundedCard(s: set<nat>, n: nat)
    requires forall k | k in s :: k < n
    ensures |s| <= n
  {
    if n == 0 {
      assert forall k: nat :: k !in s;
      assert s == {};
    } else {
      BoundedCard(s - {n - 1}, n - 1);
    }
  }

  lemma MulLess(a: real, b: real, c: real)
    requires a < b && c > 0.0
    ensures a * c < b * c
  {
    assert (b - a) * c > 0.0;
  }

  lemma QuotientBound(k: nat, f: real, span: real)
    requires f > 0.0 && k as real * f <= span
    ensures k as real <= span / f
  {
    var q, x := span / f, k as real;
    assert q * f == span;
    if x > q { MulLess(q, x, f); }
  }

  /** Main: by any time t at most floor((t - t0) / f) + 1 batches have started. */
  lemma RateIsBounded(c: Clock, t0: real, f: real, t: real, started: set<nat>)
    requires f > 0.0 && Fair(c, t0, f) && t0 <= t
    requires forall k | k in started :: c.start(k) <= t
    ensures |started| <= ((t - t0) / f).Floor + 1
  {
    var q := (t - t0) / f;
    QuotientBound(0, f, t - t0);
    forall k | k in started ensures k < q.Floor + 1 {
      StartsNoEarlier(c, t0, f, k);
      QuotientBound(k, f, t - t0);
    }
    BoundedCard(started, q.Floor + 1);
  }

  lemma OneMoreFrequency(n: nat, f: real)
    ensures (n + 1) as real * f == n as real * f + f
  {
  }

  /** Main: from any point on, as long as batches finish on time the deadlines are exact
      multiples of the frequency: nothing drifts. */
  lemma {:induction false} OnTimeIsExact(c: Clock, t0: real, f: real, i: nat, k: nat)
    requires i <= k
    requires forall j | i <= j < k :: OnTime(c, t0, f, j)
    ensures Deadline(c, t0, f, k) == Deadline(c, t0, f, i) + (k - i) as real * f
    decreases k - i
  {
    if i < k {
      OnTimeIsExact(c, t0, f, i, k - 1);
      assert OnTime(c, t0, f, k - 1);
      OneMoreFrequency(k - 1 - i, f);
    }
  }

  /** After a late batch the next deadline is the second clock reading. */
  lemma LateIsReset(c: Clock, t0: real, f: real, i: nat)
    requires Fair(c, t0, f) && !OnTime(c, t0, f, i)
    ensures c.finish(i) <= c.reset(i) == Deadline(c, t0, f, i + 1)
  {
    assert FairAt(c, t0, f, i);
  }

  /** Main: a late batch drops all debt. The schedule restarts from the clock read after it,
      and later on-time batches follow that new schedule exactly. */
  lemma LateBatchRestarts(c: Clock, t0: real, f: real, i: nat, k: nat)
    requires f >= 0.0 && Fair(c, t0, f) && i < k
    requires !OnTime(c, t0, f, i)
    requires forall j | i < j < k :: OnTime(c, t0, f, j)
    ensures Deadline(c, t0, f, k) == c.reset(i) + (k - (i + 1)) as real * f
    ensures c.finish(i) <= c.reset(i)
  {
    LateIsReset(c, t0, f, i);
    OnTimeIsExact(c, t0, f, i + 1, k);
  }
}
