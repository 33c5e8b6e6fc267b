/** `wazo_webhookd/plugins/subscription/celery_tasks.py`: one hook, attempted until it succeeds, fails for
    good, or has used its attempts; the delays in between, and the log rows written. */
module Hooks {
  import opened Rows

  /** How `hook.run` ends: normally, or with one of the exceptions the task tells apart. */
  datatype Outcome = Succeeded | Retryable | Expected | Unexpected

  datatype Status = Success | Failure | Error

  /** What one execution of the task logs, and the countdown of the retry it asks for. */
  datatype Attempt = Attempt(number: nat, status: Status, countdown: Option<int>)

  function Pow(b: real, n: nat): real {
    if n == 0 then 1.0 else b * Pow(b, n - 1)
  }

  /** Python's `int()` on a float: towards zero. */
  function Truncate(x: real): int {
    if x >= 0.0 then x.Floor else -((-x).Floor)
  }

  function Attempted(retries: nat, limit: int, base: real, outcome: Outcome): Attempt {
    match outcome
    case Retryable =>
      if retries + 1 >= limit then Attempt(retries + 1, Error, None)
      else Attempt(retries + 1, Failure, Some(Truncate(Pow(base, retries))))
    case Succeeded => Attempt(retries + 1, Success, None)
    case _ => Attempt(retries + 1, Error, None)
  }

  /** All attempts of a hook: Celery runs the task again as often as it asks for. */
  function Attempts(retries: nat, limit: int, base: real, outcomes: nat -> Outcome): seq<Attempt>
    decreases limit - retries
  {
    var a := Attempted(retries, limit, base, outcomes(retries));
    if a.countdown.None? then [a] else [a] + Attempts(retries + 1, limit, base, outcomes)
  }

  datatype Log = Log(subscription: string, status: Status, maxAttempts: int)

  type Key = (string, nat)

  datatype Insertion = Inserted | ForeignKeyViolation | UniqueViolation

  /** The subscription and log tables, with their primary and foreign keys. */
  datatype Tables = Tables(subscriptions: set<string>, logs: map<Key, Log>)

  function Insert(t: Tables, key: Key, log: Log): (Tables, Insertion) {
    if key in t.logs then (t, UniqueViolation)
    else if log.subscription !in t.subscriptions then (t, ForeignKeyViolation)
    else (t.(logs := t.logs[key := log]), Inserted)
  }

  /** Removing a subscription removes its logs. */
  function Cascade(t: Tables, subscription: string): Tables {
    Tables(t.subscriptions - {subscription}, map k | k in t.logs && t.logs[k].subscription != subscription :: t.logs[k])
  }

  class LogStore {
    var tables: Tables

    constructor (tables: Tables)
      ensures this.tables == tables
    {
      this.tables := tables;
    }

    /** `create_hook_log`: a missing subscription is only a warning, any other violation is raised. */
    method CreateHookLog(hook: string, subscription: string, status: Status, attempts: nat, maxAttempts: int)
      returns (raised: bool)
      modifies this
      ensures var (after, insertion) := Insert(old(tables), (hook, attempts), Log(subscription, status, maxAttempts));
              tables == after && raised == (insertion == UniqueViolation)
    {
      var (after, insertion) := Insert(tables, (hook, attempts), Log(subscription, status, maxAttempts));
      match insertion {
        case Inserted => tables := after; raised := false;
        case ForeignKeyViolation => raised := false;
        case UniqueViolation => raised := true;
      }
    }
  }

  class HookTask {
    const store: LogStore
    var maxRetries: int
    /** The request being executed, as Celery delivers it. */
    var retries: nat

    constructor (store: LogStore, retries: nat)
      ensures this.store == store && this.retries == retries
    {
      this.store, this.retries, this.maxRetries := store, retries, 3;
    }

    /** One execution; the countdown is what `task.retry` is called with, which it never is past `max_retries`. */
    method HookRunner(hook: string, subscription: string, limit: int, base: real, outcome: Outcome)
      returns (countdown: Option<int>, raised: bool)
      modifies this`maxRetries, store
      ensures maxRetries == limit - 1
      ensures var a := Attempted(retries, limit, base, outcome);
              var (after, insertion) := Insert(old(store.tables), (hook, a.number), Log(subscription, a.status, limit));
              && store.tables == after && raised == (insertion == UniqueViolation)
              && countdown == (if raised then None else a.countdown)
      ensures countdown.Some? ==> retries + 1 <= maxRetries
    {
      maxRetries := limit - 1;
      countdown := None;
      match outcome {
        case Retryable =>
          var status := if retries + 1 >= limit then Error else Failure;
          raised := store.CreateHookLog(hook, subscription, status, retries + 1, limit);
          if raised || retries + 1 >= limit { return; }
          countdown := Some(Truncate(Pow(base, retries)));
        case Succeeded =>
          raised := store.CreateHookLog(hook, subscription, Success, retries + 1, limit);
        case _ =>
          raised := store.CreateHookLog(hook, subscription, Error, retries + 1, limit);
      }
    }
  }

  // ----- the shape of a whole run

  /** An attempt that failed, with `retries` before it, and is to be followed by another. */
  ghost predicate FailedAt(a: Attempt, retries: nat, base: real, outcomes: nat -> Outcome) {
    outcomes(retries) == Retryable && a == Attempt(retries + 1, Failure, Some(Truncate(Pow(base, retries))))
  }

  ghost predicate EndedAt(a: Attempt, retries: nat, outcomes: nat -> Outcome) {
    a == Attempt(retries + 1, if outcomes(retries) == Succeeded then Success else Error, None)
  }

  lemma {:induction false} RunShapeFrom(retries: nat, limit: int, base: real, outcomes: nat -> Outcome)
    ensures var t := Attempts(retries, limit, base, outcomes);
            && |t| >= 1 && (retries + |t| <= limit || |t| == 1)
            && (forall i :: 0 <= i < |t| - 1 ==> FailedAt(t[i], retries + i, base, outcomes))
            && EndedAt(t[|t| - 1], retries + |t| - 1, outcomes)
            && (outcomes(retries + |t| - 1) != Retryable || retries + |t| >= limit)
    decreases limit - retries
  {
    var a := Attempted(retries, limit, base, outcomes(retries));
    if a.countdown.Some? {
      RunShapeFrom(retries + 1, limit, base, outcomes);
      var t, rest := Attempts(retries, limit, base, outcomes), Attempts(retries + 1, limit, base, outcomes);
      forall i | 0 <= i < |t| - 1 ensures FailedAt(t[i], retries + i, base, outcomes) {
        if i > 0 {
          assert t[i] == rest[i - 1] && FailedAt(rest[i - 1], retries + 1 + (i - 1), base, outcomes);
        }
      }
    }
  }

  /** Every run ends, after as many attempts as come before the first outcome that is not retryable, that one
      included, or after `limit` attempts. They are logged 1, 2, ..., n: failures, then one success or error. */
  lemma RunShape(limit: int, base: real, outcomes: nat -> Outcome)
    ensures var t := Attempts(0, limit, base, outcomes);
            && 1 <= |t| && (limit >= 1 ==> |t| <= limit)
            && (forall i :: 0 <= i < |t| - 1 ==> FailedAt(t[i], i, base, outcomes))
            && EndedAt(t[|t| - 1], |t| - 1, outcomes)
            && (outcomes(|t| - 1) != Retryable || |t| >= limit)
  {
    RunShapeFrom(0, limit, base, outcomes);
    var t := Attempts(0, limit, base, outcomes);
    forall i | 0 <= i < |t| - 1 ensures FailedAt(t[i], i, base, outcomes) {
      assert FailedAt(t[i], 0 + i, base, outcomes);
    }
  }

  // ----- delays

  /** The time waited before the last of the attempts. */
  function TotalDelay(t: seq<Attempt>): int {
    if t == [] then 0
    else TotalDelay(t[..|t| - 1]) + if t[|t| - 1].countdown.Some? then t[|t| - 1].countdown.value else 0
  }

  lemma {:induction false} PowGrows(b: real, n: nat)
    requires b >= 1.0
    ensures Pow(b, n) >= 1.0
  {
    if n > 0 {
      PowGrows(b, n - 1);
      assert b * Pow(b, n - 1) >= 1.0 * Pow(b, n - 1);
    }
  }

  function IntPow(b: int, n: nat): int {
    if n == 0 then 1 else b * IntPow(b, n - 1)
  }

  lemma RealProduct(a: int, b: int)
    ensures (a as real) * (b as real) == (a * b) as real
  {
  }

  lemma {:induction false} PowIsIntPow(b: int, n: nat)
    ensures Pow(b as real, n) == IntPow(b, n) as real
  {
    if n > 0 {
      PowIsIntPow(b, n - 1);
      RealProduct(b, IntPow(b, n - 1));
    }
  }

  lemma PowIsInteger(b: int, n: nat)
    requires b >= 1
    ensures Pow(b as real, n) == Truncate(Pow(b as real, n)) as real
  {
    PowIsIntPow(b, n);
    PowGrows(b as real, n);
  }

  /** Delays strictly grow when the factor is at least two, integer or not. */
  lemma DelaysGrow(b: real, n: nat)
    requires b >= 2.0
    ensures Truncate(Pow(b, n)) < Truncate(Pow(b, n + 1))
  {
    PowGrows(b, n);
    var p := Pow(b, n);
    assert Pow(b, n + 1) == b * p;
    assert b * p >= 2.0 * p;
    assert b * p >= p + 1.0;
  }

  /** The total waited, against the sum of the geometric series. */
  ghost predicate WithinSum(b: real, total: int, power: real) {
    (b - 1.0) * (total as real) <= power - 1.0
  }

  ghost predicate IsSum(b: real, total: int, power: real) {
    (b - 1.0) * (total as real) == power - 1.0
  }

  lemma GeometricStep(b: real, total: int, d: int, p: real, total': int, p': real)
    requires b >= 1.0 && d as real <= p && WithinSum(b, total, p)
    requires total' == total + d && p' == b * p
    ensures WithinSum(b, total', p')
    ensures IsSum(b, total, p) && d as real == p ==> IsSum(b, total', p')
  {
    var x, y := total as real, d as real;
    assert (b - 1.0) * (x + y) == (b - 1.0) * x + (b - 1.0) * y;
    assert (b - 1.0) * y <= (b - 1.0) * p;
    assert (b - 1.0) * p == b * p - p;
    assert (total + d) as real == x + y;
  }

  lemma NoWait(b: real)
    ensures IsSum(b, 0, 1.0)
  {
  }

  lemma DelayOfPow(b: real, n: nat)
    requires b >= 1.0
    ensures Truncate(Pow(b, n)) as real <= Pow(b, n)
    ensures b == b.Floor as real ==> Truncate(Pow(b, n)) as real == Pow(b, n)
  {
    PowGrows(b, n);
    if b == b.Floor as real {
      PowIsInteger(b.Floor, n);
    }
  }

  /** The sum of `int(b**0)` up to `int(b**(n-1))`. */
  function Waits(b: real, n: nat): int {
    if n == 0 then 0 else Waits(b, n - 1) + Truncate(Pow(b, n - 1))
  }

  lemma {:induction false} TotalIsWaits(t: seq<Attempt>, b: real)
    requires forall i :: 0 <= i < |t| ==> t[i].countdown == Some(Truncate(Pow(b, i)))
    ensures TotalDelay(t) == Waits(b, |t|)
  {
    if t != [] {
      TotalIsWaits(t[..|t| - 1], b);
    }
  }

  lemma {:induction false} PowAtOne(n: nat)
    ensures Pow(1.0, n) == 1.0
  {
    if n > 0 {
      PowAtOne(n - 1);
    }
  }

  lemma {:induction false} PowBelowOne(b: real, n: nat)
    requires 0.0 <= b < 1.0
    ensures 0.0 <= Pow(b, n) && (n > 0 ==> Pow(b, n) < 1.0)
  {
    if n > 0 {
      PowBelowOne(b, n - 1);
      var p := Pow(b, n - 1);
      assert 0.0 <= b * p;
      assert b * p <= b * 1.0 by {
        assert b * (1.0 - p) >= 0.0;
      }
    }
  }

  lemma {:induction false} WaitsUpToOne(b: real, n: nat)
    requires 0.0 <= b <= 1.0
    ensures Waits(b, n) == if b == 1.0 then n else if n == 0 then 0 else 1
  {
    if n > 0 {
      WaitsUpToOne(b, n - 1);
      if b == 1.0 {
        PowAtOne(n - 1);
      } else {
        PowBelowOne(b, n - 1);
      }
    }
  }

  lemma {:induction false} WaitsFromOne(b: real, n: nat)
    requires b >= 1.0
    ensures WithinSum(b, Waits(b, n), Pow(b, n))
    ensures b == b.Floor as real ==> IsSum(b, Waits(b, n), Pow(b, n))
  {
    if n == 0 {
      NoWait(b);
    } else {
      WaitsFromOne(b, n - 1);
      DelayOfPow(b, n - 1);
      GeometricStep(b, Waits(b, n - 1), Truncate(Pow(b, n - 1)), Pow(b, n - 1), Waits(b, n), Pow(b, n));
    }
  }

  /** The sum, for every factor that is not negative: one second a retry for factor one; only the first retry
      waits for a factor below one; above one at most the geometric sum, and exactly that for an integer. */
  lemma WaitsSum(b: real, n: nat)
    requires b >= 0.0
    ensures b < 1.0 ==> Waits(b, n) == if n == 0 then 0 else 1
    ensures b == 1.0 ==> Waits(b, n) == n
    ensures b >= 1.0 ==> WithinSum(b, Waits(b, n), Pow(b, n))
    ensures b >= 1.0 && b == b.Floor as real ==> IsSum(b, Waits(b, n), Pow(b, n))
  {
    if b <= 1.0 {
      WaitsUpToOne(b, n);
    }
    if b >= 1.0 {
      WaitsFromOne(b, n);
    }
  }

  lemma DelayNotNegative(b: real, n: nat)
    requires b >= 0.0
    ensures Truncate(Pow(b, n)) >= 0
  {
    if b >= 1.0 {
      PowGrows(b, n);
    } else {
      PowBelowOne(b, n);
    }
  }

  lemma {:induction false} WaitsMonotone(b: real, m: nat, n: nat)
    requires b >= 0.0 && m <= n
    ensures 0 <= Waits(b, m) <= Waits(b, n)
  {
    if n > 0 {
      DelayNotNegative(b, n - 1);
      WaitsMonotone(b, if m < n then m else n - 1, n - 1);
    }
  }

  lemma RunWaits(limit: int, base: real, outcomes: nat -> Outcome)
    requires limit >= 1
    ensures var t := Attempts(0, limit, base, outcomes);
            1 <= |t| <= limit && TotalDelay(t) == Waits(base, |t| - 1)
  {
    RunShape(limit, base, outcomes);
    var t := Attempts(0, limit, base, outcomes);
    var waits := t[..|t| - 1];
    forall i | 0 <= i < |waits| ensures waits[i].countdown == Some(Truncate(Pow(base, i))) {
      assert FailedAt(t[i], i, base, outcomes);
    }
    TotalIsWaits(waits, base);
    LastWaitsNothing(t);
  }

  /** Every run waits exactly the sum over its retries, whatever the factor, and never longer than one that
      uses all `limit` attempts; and what that sum is. */
  lemma RunDelay(limit: int, base: real, outcomes: nat -> Outcome)
    requires base >= 0.0 && limit >= 1
    ensures var t := Attempts(0, limit, base, outcomes);
            && TotalDelay(t) == Waits(base, |t| - 1) && 0 <= TotalDelay(t) <= Waits(base, limit - 1)
            && (base < 1.0 ==> TotalDelay(t) == if |t| == 1 then 0 else 1)
            && (base == 1.0 ==> TotalDelay(t) == |t| - 1)
            && (base >= 1.0 ==> WithinSum(base, TotalDelay(t), Pow(base, |t| - 1)))
            && (base >= 1.0 && base == base.Floor as real ==> IsSum(base, TotalDelay(t), Pow(base, |t| - 1)))
  {
    RunWaits(limit, base, outcomes);
    var n := |Attempts(0, limit, base, outcomes)| - 1;
    WaitsSum(base, n);
    WaitsMonotone(base, n, limit - 1);
  }

  lemma LastWaitsNothing(t: seq<Attempt>)
    requires t != [] && t[|t| - 1].countdown == None
    ensures TotalDelay(t) == TotalDelay(t[..|t| - 1])
  {
  }

  // ----- classification of what the request did (`wazo_webhookd/services/helpers.py`)

  datatype RequestEnd = Accepted | Refused(status: int) | NoAnswer | OtherFailure

  function Classified(end: RequestEnd): Outcome {
    match end
    case Accepted => Succeeded
    case Refused(status) => if status == 410 then Expected else Retryable
    case NoAnswer => Retryable
    case OtherFailure => Unexpected
  }

  /** Another attempt follows attempt i exactly when the server refused it with anything but 410, or did not
      answer, and attempts are left. */
  lemma AnotherAttemptIff(limit: int, base: real, ends: nat -> RequestEnd, i: nat)
    ensures var t := Attempts(0, limit, base, (n: nat) => Classified(ends(n)));
            i < |t| ==> (i + 1 < |t| <==>
              ((ends(i).Refused? && ends(i).status != 410) || ends(i) == NoAnswer) && i + 1 < limit)
  {
    var outcomes: nat -> Outcome := (n: nat) => Classified(ends(n));
    RunShape(limit, base, outcomes);
    var t := Attempts(0, limit, base, outcomes);
    if i < |t| - 1 {
      assert FailedAt(t[i], i, base, outcomes);
    }
  }

  /** What a request's end is logged as: every attempt but the last a failure, the last a success if the request
      was accepted and an error otherwise, a refusal with 410 included. */
  lemma LoggedStatus(limit: int, base: real, ends: nat -> RequestEnd, i: nat)
    ensures var t := Attempts(0, limit, base, (n: nat) => Classified(ends(n)));
            && (i + 1 < |t| ==> t[i].status == Failure)
            && (i + 1 == |t| ==> t[i].status == if ends(i) == Accepted then Success else Error)
  {
    var outcomes: nat -> Outcome := (n: nat) => Classified(ends(n));
    RunShape(limit, base, outcomes);
    var t := Attempts(0, limit, base, outcomes);
    if i < |t| - 1 {
      assert FailedAt(t[i], i, base, outcomes);
    }
  }

  // ----- truncation, and insertion into the log table

  /** Towards zero, on both sides. */
  lemma TruncateMeaning(x: real)
    ensures x >= 0.0 ==> 0.0 <= Truncate(x) as real <= x < Truncate(x) as real + 1.0
    ensures x <= 0.0 ==> Truncate(x) as real - 1.0 < x <= Truncate(x) as real <= 0.0
  {
  }

  /** An insertion succeeds iff the key is free and the subscription stored, reports a taken key first, and never
      changes a row that is there. */
  lemma InsertionMeaning(t: Tables, key: Key, log: Log)
    ensures var (after, insertion) := Insert(t, key, log);
            && after.subscriptions == t.subscriptions
            && (insertion == Inserted <==> key !in t.logs && log.subscription in t.subscriptions)
            && (insertion == UniqueViolation <==> key in t.logs)
            && (forall k :: k in after.logs <==> k in t.logs || (k == key && insertion == Inserted))
            && (forall k :: k in t.logs ==> after.logs[k] == t.logs[k])
            && (insertion == Inserted ==> after.logs[key] == log)
  {
  }
}
