/**
 * The producer's counted loop: batches of records, a bounded retry on a full buffer, a cutoff
 * after too many consecutive failures, and deadline pacing between batches.
 */
module ProducerLoop {
  import opened Pacing

  const MAX_CONSECUTIVE_FAILURES: nat := 100
  const MAX_RETRIES: nat := 5

  datatype Try = Sent | BufferFull | Failed

  /** One record: it could not be rendered, serialised or keyed, or it is offered to the
      producer, whose successive answers are `tries`. */
  datatype Record = Unusable | Offered(tries: nat -> Try)

  /** Some try within the limit succeeds and every earlier one only found the buffer full. */
  ghost predicate Delivers(tries: nat -> Try) {
    exists j: nat :: j <= 5 && tries(j).Sent? && forall i: nat | i < j :: tries(i).BufferFull?
  }

  ghost predicate Succeeds(r: Record) { r.Offered? && Delivers(r.tries) }

  /** Main: a record that finds the buffer full up to five times and is then accepted is produced; one
      that finds it full six times, or meets another error before, is not. */
  lemma DeliveredWithinSix(tries: nat -> Try, n: nat)
    requires (forall i: nat | i < n :: tries(i).BufferFull?) && !tries(n).BufferFull?
    ensures Delivers(tries) <==> n <= 5 && tries(n).Sent?
  {
    if Delivers(tries) {
      var j: nat :| j <= 5 && tries(j).Sent? && forall i: nat | i < j :: tries(i).BufferFull?;
      assert j == n;
    }
  }

  /** Offer one record, retrying while the buffer is full. */
  method Offer(tries: nat -> Try) returns (produced: bool, calls: nat)
    ensures produced <==> Delivers(tries)
    ensures 1 <= calls <= 6
    ensures forall i: nat | i < calls - 1 :: tries(i).BufferFull?
    ensures tries(calls - 1).BufferFull? <==> !produced && calls == 6 && forall i: nat | i <= 5 :: tries(i).BufferFull?
  {
    produced, calls := false, 0;
    while calls <= MAX_RETRIES
      invariant calls <= MAX_RETRIES + 1
      invariant !produced
      invariant forall i: nat | i < calls :: tries(i).BufferFull?
    {
      calls := calls + 1;
      match tries(calls - 1) {
        case Sent =>
          produced := true;
          return;
        case BufferFull =>
        case Failed =>
          return;
      }
    }
  }

  /** The records that succeed among the first n. */
  ghost function Successes(env: nat -> Record, n: nat): nat {
    if n == 0 then 0 else Successes(env, n - 1) + if Succeeds(env(n - 1)) then 1 else 0
  }

  /** The length of the run of failures that ends at n. */
  ghost function Trailing(env: nat -> Record, n: nat): nat {
    if n == 0 || Succeeds(env(n - 1)) then 0 else Trailing(env, n - 1) + 1
  }

  /** One more attempt against the budget of failures allowed per success. */
  lemma BudgetStep(attempts: nat, count: nat, failures: nat, batch: nat)
    requires batch >= 1
    requires attempts <= count * (99 + batch) + failures
    requires failures <= 98 + batch
    ensures attempts + 1 <= (count + 1) * (99 + batch)
    ensures attempts + 1 <= count * (99 + batch) + failures + 1
  {
    assert (count + 1) * (99 + batch) == count * (99 + batch) + 99 + batch;
  }

  lemma MulLe(a: nat, b: nat, c: nat)
    requires a <= b
    ensures a * c <= b * c
  {
  }

  lemma BudgetTotal(attempts: nat, count: nat, failures: nat, batch: nat, total: nat)
    requires attempts <= count * (99 + batch) + failures
    requires (count == total && failures == 0) || (count < total && failures <= 99 + batch)
    ensures attempts <= total * (99 + batch)
  {
    if count < total {
      assert (count + 1) * (99 + batch) <= total * (99 + batch) by { MulLe(count + 1, total, 99 + batch); }
      assert (count + 1) * (99 + batch) == count * (99 + batch) + 99 + batch;
    }
  }

  /** One batch: stop early once the target is reached. */
  method ProduceBatch(env: nat -> Record, total: nat, batch: nat, attempts0: nat, count0: nat, failures0: nat)
    returns (attempts: nat, count: nat, failures: nat)
    requires batch >= 1 && count0 < total && failures0 < MAX_CONSECUTIVE_FAILURES
    requires count0 == Successes(env, attempts0) && failures0 == Trailing(env, attempts0)
    requires attempts0 <= count0 * (99 + batch) + failures0
    ensures attempts0 < attempts <= attempts0 + batch
    ensures count0 <= count <= total
    ensures count == Successes(env, attempts) && failures == Trailing(env, attempts)
    ensures Successes(env, attempts - 1) < total
    ensures attempts <= count * (99 + batch) + failures
    ensures failures <= 99 + batch
    ensures count == count0 ==> failures == failures0 + (attempts - attempts0)
    ensures count < total ==> attempts == attempts0 + batch
    ensures count == total ==> failures == 0
  {
    attempts, count, failures := attempts0, count0, failures0;
    var i := 0;
    while i < batch && count < total
      invariant 0 <= i <= batch && attempts == attempts0 + i
      invariant count0 <= count <= total
      invariant i == 0 ==> count < total
      invariant count == Successes(env, attempts) && failures == Trailing(env, attempts)
      invariant i > 0 ==> Successes(env, attempts - 1) < total
      invariant attempts <= count * (99 + batch) + failures
      invariant failures <= 99 + i
      invariant count == count0 ==> failures == failures0 + i
      invariant count == total ==> failures == 0
    {
      BudgetStep(attempts, count, failures, batch);
      var produced := false;
      if env(attempts).Offered? {
        var calls;
        produced, calls := Offer(env(attempts).tries);
      }
      attempts := attempts + 1;
      if produced {
        count, failures := count + 1, 0;
      } else {
        failures := failures + 1;
      }
      i := i + 1;
    }
  }

  /**
   * The counted loop (a positive record target). It always terminates, within
   * total * (99 + batch) record attempts; it stops with the target met or after at least
   * 100 consecutive failures; and its counters are exactly what the attempts say.
   */
  method ProduceCounted(env: nat -> Record, total: nat, batch: nat, clock: Clock, frequency: real, t0: real)
    returns (attempts: nat, count: nat, failures: nat, paced: nat, nextDeadline: real)
    requires total > 0 && batch >= 1
    ensures count <= total
    ensures count < total ==> failures >= 100 && Trailing(env, attempts) >= 100
    ensures (forall n: nat :: Trailing(env, n) < 100) ==> count == total
    ensures attempts <= total * (99 + batch)
    ensures count == Successes(env, attempts) && failures == Trailing(env, attempts)
    ensures attempts > 0 && Successes(env, attempts - 1) < total
    ensures nextDeadline == Deadline(clock, t0, frequency, paced)
    ensures paced * batch < attempts <= (paced + 1) * batch
    ensures forall k: nat | k <= paced :: Trailing(env, k * batch) < 100
  {
    attempts, count, failures, paced := 0, 0, 0, 0;
    nextDeadline := t0;
    while count < total
      invariant count <= total
      invariant count < total ==> failures < MAX_CONSECUTIVE_FAILURES && attempts == paced * batch
      invariant count == Successes(env, attempts) && failures == Trailing(env, attempts)
      invariant attempts <= count * (99 + batch) + failures
      invariant count == total ==> failures == 0 && attempts > 0 && Successes(env, attempts - 1) < total
      invariant count == total ==> paced * batch < attempts <= (paced + 1) * batch
      invariant nextDeadline == Deadline(clock, t0, frequency, paced)
      invariant forall k: nat | k <= paced :: Trailing(env, k * batch) < MAX_CONSECUTIVE_FAILURES
      decreases total - count, MAX_CONSECUTIVE_FAILURES - failures
    {
      attempts, count, failures := ProduceBatch(env, total, batch, attempts, count, failures);
      assert (paced + 1) * batch == paced * batch + batch;
      if failures >= MAX_CONSECUTIVE_FAILURES {
        BudgetTotal(attempts, count, failures, batch, total);
        return;
      }
      if count < total {
        nextDeadline := nextDeadline + frequency;
        var sleepFor := nextDeadline - clock.finish(paced);
        if sleepFor <= 0.0 {
          nextDeadline := clock.reset(paced);
        }
        paced := paced + 1;
      }
    }
    BudgetTotal(attempts, count, failures, batch, total);
  }

  /** Without failures, the loop makes exactly as many attempts as the target. */
  lemma {:induction false} NoFailuresNoWaste(env: nat -> Record, n: nat)
    ensures (forall i: nat | i < n :: Succeeds(env(i))) <==> Successes(env, n) == n
    ensures Successes(env, n) <= n
  {
    if n > 0 { NoFailuresNoWaste(env, n - 1); }
  }
}
