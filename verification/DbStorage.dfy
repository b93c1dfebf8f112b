/** The SQL store: a table changed by upserts, transactions that may fail part way, and retries. */
module DbStore {
  import opened Int64
  import opened Model
  import MemStore
  import Retrying

  /** DELTA is DECIMAL, so unbounded; both columns may be NULL. */
  datatype Row = Row(mtype: MType, delta: Option<int>, value: Option<real>)

  type Table = map<string, Row>

  datatype Error = IncorrectAccess | MetricNotFound | Pg(code: string) | OutOfRange

  // ---- statements ----

  function Coalesce(x: Option<int>, y: int): int {
    if x.Some? then x.value else y
  }

  /** COALESCE(x, 0) + y, which is NULL when y is. */
  function CoalescedSum(x: Option<int>, y: Option<int64>): Option<int> {
    if y.Some? then Some(Coalesce(x, 0) + y.value) else None
  }

  /** The new table and the number of rows affected. */
  function UpsertGauge(t: Table, id: string, x: real): (Table, nat) {
    if id !in t then (t[id := Row(Gauge, None, Some(x))], 1)
    else if t[id].mtype == Gauge then (t[id := t[id].(value := Some(x))], 1)
    else (t, 0)
  }

  function UpsertCounter(t: Table, id: string, d: int64): (Table, nat) {
    if id !in t then (t[id := Row(Counter, Some(d), None)], 1)
    else if t[id].mtype == Counter then (t[id := t[id].(delta := CoalescedSum(t[id].delta, Some(d)))], 1)
    else (t, 0)
  }

  function UpsertMetric(t: Table, m: Metric): Table {
    if m.id !in t then t[m.id := Row(m.mtype, if m.delta.Some? then Some(m.delta.value) else None, m.value)]
    else t[m.id := Row(m.mtype, CoalescedSum(t[m.id].delta, m.delta), m.value)]
  }

  function UpsertAll(t: Table, ms: seq<Metric>): Table {
    if ms == [] then t else UpsertMetric(UpsertAll(t, ms[..|ms| - 1]), ms[|ms| - 1])
  }

  function Validate(t: Table, ms: seq<Metric>): Option<Error> {
    if exists m :: m in ms && m.id in t && t[m.id].mtype != m.mtype then Some(IncorrectAccess) else None
  }

  function Select(t: Table, id: string): (Option<Metric>, Option<Error>) {
    if id !in t then (None, Some(MetricNotFound))
    else if t[id].delta.Some? && !(-HALF <= t[id].delta.value < HALF) then (None, Some(OutOfRange))
    else (Some(Metric(id, t[id].mtype, if t[id].delta.Some? then Some(t[id].delta.value) else None, t[id].value)), None)
  }

  // ---- attempts that may fail ----

  /**
   Database call number `at` of an attempt fails with an SQLSTATE. It is `lost` if the call did its work on the
   server and only the answer did not come through.
   */
  datatype Fault = Fault(at: nat, code: string, lost: bool)

  predicate IsRetryable(e: Error) {
    e.Pg? && e.code in {"08000", "08003", "08006"}
  }

  /** The fault of an attempt of n calls, if it comes before the attempt is over. */
  function Hit(n: nat, fault: Option<Fault>): Option<Fault> {
    if fault.Some? && fault.value.at < n then fault else None
  }

  function FaultError(n: nat, fault: Option<Fault>): Option<Error> {
    if Hit(n, fault).Some? then Some(Pg(fault.value.code)) else None
  }

  /** Only the last call of an attempt changes the table for good: the statement itself, or the commit. */
  predicate Took(n: nat, fault: Option<Fault>) {
    Hit(n, fault).Some? ==> fault.value.at == n - 1 && fault.value.lost
  }

  /** How many of the first k attempts took effect. */
  function TimesTook(n: nat, faults: nat -> Option<Fault>, k: nat): nat {
    if k == 0 then 0 else TimesTook(n, faults, k - 1) + if Took(n, faults(k - 1)) then 1 else 0
  }

  predicate Retried(n: nat, fault: Option<Fault>) {
    Hit(n, fault).Some? && IsRetryable(Pg(fault.value.code))
  }

  /** Attempts go on as long as they fail retryably and the policy allows another. */
  ghost predicate Attempts(policy: Retrying.Policy, n: nat, faults: nat -> Option<Fault>, calls: nat) {
    && 1 <= calls <= 1 + Retrying.RetryLimit(policy)
    && (forall k :: 0 <= k < calls - 1 ==> Retried(n, faults(k)))
    && (Retried(n, faults(calls - 1)) ==> calls == 1 + Retrying.RetryLimit(policy))
  }

  /** So policy and faults alone settle how many attempts are made. */
  lemma AttemptsSettled(policy: Retrying.Policy, n: nat, faults: nat -> Option<Fault>, a: nat, b: nat)
    requires Attempts(policy, n, faults, a) && Attempts(policy, n, faults, b)
    ensures a == b
  {
  }

  /** In the policy's own terms: one attempt and at most maxRetries more, all of them if every one fails retryably. */
  lemma AttemptsBounded(policy: Retrying.Policy, n: nat, faults: nat -> Option<Fault>, calls: nat)
    requires Attempts(policy, n, faults, calls)
    ensures policy.NoRetry? ==> calls == 1
    ensures policy.Linear? ==> 1 <= calls <= 1 + if policy.maxRetries > 0 then policy.maxRetries else 0
    ensures policy.Linear? && (forall k :: 0 <= k < calls ==> Retried(n, faults(k))) ==>
              calls == 1 + if policy.maxRetries > 0 then policy.maxRetries else 0
  {
    assert Retried(n, faults(calls - 1)) ==> calls == 1 + Retrying.RetryLimit(policy);
  }

  /** Only failures of the connection are retried: class 08 of SQLSTATE, as far as the list goes. */
  lemma RetriedIff(n: nat, fault: Option<Fault>)
    ensures Retried(n, fault) <==>
            fault.Some? && fault.value.at < n && fault.value.code in {"08000", "08003", "08006"}
  {
  }

  function Exec(t: Table, done: (Table, nat), fault: Option<Fault>): ((Table, nat), Option<Error>) {
    (if Hit(1, fault) == None then done else (if Took(1, fault) then done.0 else t, 0), FaultError(1, fault))
  }

  function BatchValidate(t: Table, ms: seq<Metric>, fault: Option<Fault>): (Table, Option<Error>) {
    (t, if Hit(1, fault).Some? then FaultError(1, fault) else Validate(t, ms))
  }

  /** Begin, one statement a metric, commit. */
  function BatchSet(t: Table, ms: seq<Metric>, fault: Option<Fault>): (Table, Option<Error>) {
    (if Took(|ms| + 2, fault) then UpsertAll(t, ms) else t, FaultError(|ms| + 2, fault))
  }

  /** A transaction that fails before its commit leaves the table alone, whatever statements were made in it. */
  lemma TransactionIsWhole(t: Table, ms: seq<Metric>, at: nat, code: string, lost: bool)
    ensures BatchSet(t, ms, None) == (UpsertAll(t, ms), None)
    ensures at <= |ms| ==> BatchSet(t, ms, Some(Fault(at, code, lost))) == (t, Some(Pg(code)))
    ensures BatchSet(t, ms, Some(Fault(|ms| + 1, code, false))) == (t, Some(Pg(code)))
    ensures BatchSet(t, ms, Some(Fault(|ms| + 1, code, true))) == (UpsertAll(t, ms), Some(Pg(code)))
  {
  }

  datatype Upsert = PutGauge(id: string, x: real) | PutCounter(id: string, d: int64)

  function Do(t: Table, u: Upsert): (Table, nat) {
    match u
    case PutGauge(id, x) => UpsertGauge(t, id, x)
    case PutCounter(id, d) => UpsertCounter(t, id, d)
  }

  /** An upsert that takes effect n times. */
  function Repeat(t: Table, u: Upsert, n: nat): Table {
    if n == 0 then t else Do(Repeat(t, u, n - 1), u).0
  }

  function RepeatBatch(t: Table, ms: seq<Metric>, n: nat): Table {
    if n == 0 then t else UpsertAll(RepeatBatch(t, ms, n - 1), ms)
  }

  /** What an upsert returns if its last attempt ends like this. */
  function UpsertError(t: Table, u: Upsert, fault: Option<Fault>): Option<Error> {
    if Hit(1, fault).Some? then FaultError(1, fault) else if Do(t, u).1 == 0 then Some(IncorrectAccess) else None
  }

  class PostgresDBStorage {
    var table: Table
    const policy: Retrying.Policy

    constructor (policy: Retrying.Policy)
      ensures table == map[] && this.policy == policy
    {
      table := map[];
      this.policy := policy;
    }

    method SetGauge(id: string, x: real, faults: nat -> Option<Fault>)
        returns (err: Option<Error>, ghost calls: nat, ghost took: nat)
      modifies this
      ensures Attempts(policy, 1, faults, calls) && took == TimesTook(1, faults, calls)
      ensures table == Repeat(old(table), PutGauge(id, x), took)
      ensures err == UpsertError(old(table), PutGauge(id, x), faults(calls - 1))
    {
      err, calls, took := Execute(PutGauge(id, x), faults);
    }

    method AddCounter(id: string, d: int64, faults: nat -> Option<Fault>)
        returns (err: Option<Error>, ghost calls: nat, ghost took: nat)
      modifies this
      ensures Attempts(policy, 1, faults, calls) && took == TimesTook(1, faults, calls)
      ensures table == Repeat(old(table), PutCounter(id, d), took)
      ensures err == UpsertError(old(table), PutCounter(id, d), faults(calls - 1))
    {
      err, calls, took := Execute(PutCounter(id, d), faults);
    }

    /** `faults` says how each attempt fails, if it does; `calls` attempts are made, and `took` of them take effect. */
    method Execute(u: Upsert, faults: nat -> Option<Fault>)
        returns (err: Option<Error>, ghost calls: nat, ghost took: nat)
      modifies this
      ensures Attempts(policy, 1, faults, calls) && took == TimesTook(1, faults, calls)
      ensures table == Repeat(old(table), u, took)
      ensures err == UpsertError(old(table), u, faults(calls - 1))
    {
      var f := (s: (Table, nat), k: nat) => Exec(s.0, Do(s.0, u), faults(k));
      var res, e, n, _ := Retrying.Run(policy, IsRetryable, f, (table, 0));
      ExecRun(policy, f, faults, u, table, n);
      calls, took := n, TimesTook(1, faults, n);
      table := res.0;
      if e.Some? {
        return e, calls, took;
      }
      if res.1 == 0 {
        return Some(IncorrectAccess), calls, took;
      }
      return None, calls, took;
    }

    method BatchValidateOnce(ms: seq<Metric>, fault: Option<Fault>) returns (err: Option<Error>)
      ensures (table, err) == BatchValidate(table, ms, fault)
    {
      if fault.Some? && fault.value.at == 0 {
        return Some(Pg(fault.value.code));
      }
      for i := 0 to |ms|
        invariant forall k :: 0 <= k < i ==> ms[k].id in table ==> table[ms[k].id].mtype == ms[k].mtype
      {
        if ms[i].id in table && ms[i].mtype != table[ms[i].id].mtype {
          assert ms[i] in ms;
          return Some(IncorrectAccess);
        }
      }
      return None;
    }

    /** The statements act on the transaction's own copy until it commits. */
    method BatchSetOnce(ms: seq<Metric>, fault: Option<Fault>) returns (err: Option<Error>)
      modifies this
      ensures (table, err) == BatchSet(old(table), ms, fault)
    {
      if fault.Some? && fault.value.at == 0 {
        return Some(Pg(fault.value.code));
      }
      var tx := table;
      for i := 0 to |ms|
        invariant tx == UpsertAll(table, ms[..i])
        invariant fault.Some? ==> fault.value.at > i
      {
        if fault.Some? && fault.value.at == i + 1 {
          return Some(Pg(fault.value.code));
        }
        assert ms[..i + 1][..i] == ms[..i];
        tx := UpsertMetric(tx, ms[i]);
      }
      assert ms[..|ms|] == ms;
      if fault.Some? && fault.value.at == |ms| + 1 {
        if fault.value.lost {
          table := tx;
        }
        return Some(Pg(fault.value.code));
      }
      table := tx;
      return None;
    }

    /** `meanwhile` is what other sessions do between the validation and the transaction. */
    method BatchUpdate(ms: seq<Metric>, readFaults: nat -> Option<Fault>, meanwhile: Table -> Table,
                       faults: nat -> Option<Fault>)
        returns (err: Option<Error>, ghost looks: nat, ghost calls: nat, ghost took: nat)
      modifies this
      // the validation changes nothing, and stops the batch on any error
      ensures Attempts(policy, 1, readFaults, looks)
      ensures calls == 0 <==> BatchValidate(old(table), ms, readFaults(looks - 1)).1.Some?
      ensures calls == 0 ==> table == old(table) && err == BatchValidate(old(table), ms, readFaults(looks - 1)).1
      // else all of the batch is applied by each attempt that took effect
      ensures calls > 0 ==>
                && Attempts(policy, |ms| + 2, faults, calls)
                && took == TimesTook(|ms| + 2, faults, calls)
                && table == RepeatBatch(meanwhile(old(table)), ms, took)
                && err == FaultError(|ms| + 2, faults(calls - 1))
    {
      calls, took := 0, 0;
      err, looks := ValidateRetried(ms, readFaults);
      if err.Some? {
        return;
      }
      table := meanwhile(table);
      err, calls, took := SetRetried(ms, faults);
    }

    method ValidateRetried(ms: seq<Metric>, faults: nat -> Option<Fault>) returns (err: Option<Error>, ghost looks: nat)
      ensures Attempts(policy, 1, faults, looks) && err == BatchValidate(table, ms, faults(looks - 1)).1
    {
      var f := (t: Table, k: nat) => BatchValidate(t, ms, faults(k));
      var _, e, n, _ := Retrying.Run(policy, IsRetryable, f, table);
      ValidateReads(f, ms, faults, table, n - 1);
      return e, n;
    }

    method SetRetried(ms: seq<Metric>, faults: nat -> Option<Fault>)
        returns (err: Option<Error>, ghost calls: nat, ghost took: nat)
      modifies this
      ensures Attempts(policy, |ms| + 2, faults, calls) && took == TimesTook(|ms| + 2, faults, calls)
      ensures table == RepeatBatch(old(table), ms, took)
      ensures err == FaultError(|ms| + 2, faults(calls - 1))
    {
      var f := (t: Table, k: nat) => BatchSet(t, ms, faults(k));
      var t, e, n, _ := Retrying.Run(policy, IsRetryable, f, table);
      BatchRepeats(f, ms, faults, table, n - 1);
      table := t;
      return e, n, TimesTook(|ms| + 2, faults, n);
    }
  }

  lemma {:induction false} RepeatSameRows(t: Table, u: Upsert, n: nat)
    ensures Do(Repeat(t, u, n), u).1 == Do(t, u).1
  {
    if n > 0 {
      RepeatSameRows(t, u, n - 1);
    }
  }

  /** One statement under retry takes effect once for each attempt that reached the table. */
  lemma {:induction false} ExecRepeats(
      f: ((Table, nat), nat) -> ((Table, nat), Option<Error>), faults: nat -> Option<Fault>, u: Upsert,
      t: Table, n: nat)
    requires forall s, k :: f(s, k) == Exec(s.0, Do(s.0, u), faults(k))
    ensures Retrying.After(f, (t, 0), n).0 == Repeat(t, u, TimesTook(1, faults, n))
  {
    if n > 0 {
      ExecRepeats(f, faults, u, t, n - 1);
      var s := Retrying.After(f, (t, 0), n - 1);
      assert Retrying.After(f, (t, 0), n) == Exec(s.0, Do(s.0, u), faults(n - 1)).0;
    }
  }

  lemma ExecOutcome(
      f: ((Table, nat), nat) -> ((Table, nat), Option<Error>), faults: nat -> Option<Fault>, u: Upsert,
      t: Table, k: nat)
    requires forall s, k :: f(s, k) == Exec(s.0, Do(s.0, u), faults(k))
    ensures Retrying.Outcome(f, (t, 0), k) == FaultError(1, faults(k))
    ensures Hit(1, faults(k)) == None ==> Retrying.After(f, (t, 0), k + 1).1 == Do(t, u).1
  {
    ExecRepeats(f, faults, u, t, k);
    RepeatSameRows(t, u, TimesTook(1, faults, k));
  }

  lemma ExecTriedAt(
      f: ((Table, nat), nat) -> ((Table, nat), Option<Error>), faults: nat -> Option<Fault>, u: Upsert,
      t: Table, k: nat)
    requires forall s, k :: f(s, k) == Exec(s.0, Do(s.0, u), faults(k))
    ensures Retrying.RetryableAt(f, (t, 0), IsRetryable, k) <==> Retried(1, faults(k))
  {
    ExecOutcome(f, faults, u, t, k);
  }

  lemma {:induction false} ExecTried(
      f: ((Table, nat), nat) -> ((Table, nat), Option<Error>), faults: nat -> Option<Fault>, u: Upsert,
      t: Table, n: nat)
    requires forall s, k :: f(s, k) == Exec(s.0, Do(s.0, u), faults(k))
    ensures Retrying.AllRetryable(f, (t, 0), IsRetryable, n) <==> forall k :: 0 <= k < n ==> Retried(1, faults(k))
  {
    if n > 0 {
      ExecTried(f, faults, u, t, n - 1);
      ExecTriedAt(f, faults, u, t, n - 1);
    }
  }

  lemma ExecAttempts(
      policy: Retrying.Policy, f: ((Table, nat), nat) -> ((Table, nat), Option<Error>), faults: nat -> Option<Fault>,
      u: Upsert, t: Table, n: nat)
    requires forall s, k :: f(s, k) == Exec(s.0, Do(s.0, u), faults(k))
    requires 1 <= n <= 1 + Retrying.RetryLimit(policy) && Retrying.AllRetryable(f, (t, 0), IsRetryable, n - 1)
    requires !Retrying.RetryableAt(f, (t, 0), IsRetryable, n - 1) || n == 1 + Retrying.RetryLimit(policy)
    ensures Attempts(policy, 1, faults, n)
  {
    ExecOutcome(f, faults, u, t, n - 1);
    ExecTried(f, faults, u, t, n - 1);
  }

  lemma ExecRun(
      policy: Retrying.Policy, f: ((Table, nat), nat) -> ((Table, nat), Option<Error>), faults: nat -> Option<Fault>,
      u: Upsert, t: Table, n: nat)
    requires forall s, k :: f(s, k) == Exec(s.0, Do(s.0, u), faults(k))
    requires 1 <= n <= 1 + Retrying.RetryLimit(policy) && Retrying.AllRetryable(f, (t, 0), IsRetryable, n - 1)
    requires !Retrying.RetryableAt(f, (t, 0), IsRetryable, n - 1) || n == 1 + Retrying.RetryLimit(policy)
    ensures Attempts(policy, 1, faults, n)
    ensures Retrying.After(f, (t, 0), n).0 == Repeat(t, u, TimesTook(1, faults, n))
    ensures var e := Retrying.Outcome(f, (t, 0), n - 1);
            UpsertError(t, u, faults(n - 1))
            == if e.Some? then e else if Retrying.After(f, (t, 0), n).1 == 0 then Some(IncorrectAccess) else None
  {
    ExecRepeats(f, faults, u, t, n);
    ExecOutcome(f, faults, u, t, n - 1);
    ExecAttempts(policy, f, faults, u, t, n);
  }

  lemma {:induction false} ValidateReads(f: (Table, nat) -> (Table, Option<Error>), ms: seq<Metric>,
                                         faults: nat -> Option<Fault>, t: Table, n: nat)
    requires forall t, k :: f(t, k) == BatchValidate(t, ms, faults(k))
    ensures Retrying.After(f, t, n) == t
    ensures Retrying.Outcome(f, t, n) == BatchValidate(t, ms, faults(n)).1
    ensures Retrying.AllRetryable(f, t, IsRetryable, n) <==> forall k :: 0 <= k < n ==> Retried(1, faults(k))
  {
    if n > 0 {
      ValidateReads(f, ms, faults, t, n - 1);
    }
  }

  /** A batch under retry: all its statements take effect once for each transaction that was committed. */
  lemma {:induction false} BatchRepeats(f: (Table, nat) -> (Table, Option<Error>), ms: seq<Metric>,
                                        faults: nat -> Option<Fault>, t: Table, n: nat)
    requires forall t, k :: f(t, k) == BatchSet(t, ms, faults(k))
    ensures Retrying.After(f, t, n) == RepeatBatch(t, ms, TimesTook(|ms| + 2, faults, n))
    ensures Retrying.Outcome(f, t, n) == FaultError(|ms| + 2, faults(n))
    ensures Retrying.AllRetryable(f, t, IsRetryable, n) <==> forall k :: 0 <= k < n ==> Retried(|ms| + 2, faults(k))
  {
    if n > 0 {
      BatchRepeats(f, ms, faults, t, n - 1);
    }
  }

  // ---- effect against error ----

  /** The answer of an attempt that took effect did not come through. */
  predicate Lost(n: nat, fault: Option<Fault>) {
    Hit(n, fault).Some? && Took(n, fault)
  }

  function TimesLost(n: nat, faults: nat -> Option<Fault>, k: nat): nat {
    if k == 0 then 0 else TimesLost(n, faults, k - 1) + if Lost(n, faults(k - 1)) then 1 else 0
  }

  lemma {:induction false} TimesLostBefore(n: nat, faults: nat -> Option<Fault>, k: nat)
    requires forall i :: 0 <= i < k ==> Retried(n, faults(i))
    ensures TimesTook(n, faults, k) == TimesLost(n, faults, k)
  {
    if k > 0 {
      TimesLostBefore(n, faults, k - 1);
    }
  }

  lemma {:induction false} NoneLostIff(n: nat, faults: nat -> Option<Fault>, k: nat)
    ensures TimesLost(n, faults, k) == 0 <==> forall i :: 0 <= i < k ==> !Lost(n, faults(i))
  {
    if k > 0 {
      NoneLostIff(n, faults, k - 1);
    }
  }

  /** A retried change takes effect once if it ends well, else not at all, and once more for each lost answer. */
  lemma OncePlusLost(policy: Retrying.Policy, n: nat, faults: nat -> Option<Fault>, calls: nat)
    requires Attempts(policy, n, faults, calls)
    ensures TimesTook(n, faults, calls)
            == TimesLost(n, faults, calls) + if Hit(n, faults(calls - 1)) == None then 1 else 0
  {
    TimesLostBefore(n, faults, calls - 1);
  }

  /** Exactly once without an error and not at all with one: if and only if no answer is lost. */
  lemma ExactlyOnceIff(policy: Retrying.Policy, n: nat, faults: nat -> Option<Fault>, calls: nat)
    requires Attempts(policy, n, faults, calls)
    ensures TimesTook(n, faults, calls) == (if Hit(n, faults(calls - 1)) == None then 1 else 0)
       <==> forall i :: 0 <= i < calls ==> !Lost(n, faults(i))
  {
    OncePlusLost(policy, n, faults, calls);
    NoneLostIff(n, faults, calls);
  }

  lemma {:induction false} RepeatedGauge(t: Table, id: string, x: real, n: nat)
    ensures Repeat(t, PutGauge(id, x), n) == if n == 0 then t else UpsertGauge(t, id, x).0
  {
    if n > 0 {
      RepeatedGauge(t, id, x, n - 1);
      assert UpsertGauge(UpsertGauge(t, id, x).0, id, x).0 == UpsertGauge(t, id, x).0;
    }
  }

  /** Setting a gauge may be repeated, so only an error can be wrong about it: then the value is there already. */
  lemma GaugeAsToldIff(t: Table, id: string, x: real, ok: bool, lost: nat)
    ensures Repeat(t, PutGauge(id, x), lost + if ok then 1 else 0) == (if ok then UpsertGauge(t, id, x).0 else t)
       <==> ok || lost == 0 || (id in t && (t[id].mtype != Gauge || t[id].value == Some(x)))
  {
    RepeatedGauge(t, id, x, lost + if ok then 1 else 0);
    if id in t && t[id].value == Some(x) {
      assert t[id := t[id]] == t;
    }
  }

  lemma {:induction false} RepeatedCounter(t: Table, id: string, d: int64, n: nat)
    ensures Repeat(t, PutCounter(id, d), n)
            == if n == 0 || (id in t && t[id].mtype != Counter) then t
               else if id !in t then t[id := Row(Counter, Some(Times(n, d)), None)]
               else t[id := t[id].(delta := Some(Coalesce(t[id].delta, 0) + Times(n, d)))]
  {
    if n > 0 {
      RepeatedCounter(t, id, d, n - 1);
    }
  }

  /** Each lost answer adds the increment once more than told, unless there is nothing to add. */
  lemma CounterAsToldIff(t: Table, id: string, d: int64, ok: bool, lost: nat)
    ensures Repeat(t, PutCounter(id, d), lost + if ok then 1 else 0) == (if ok then UpsertCounter(t, id, d).0 else t)
       <==> lost == 0 || (id in t && t[id].mtype != Counter) || (d == 0 && (ok || (id in t && t[id].delta.Some?)))
  {
    var n := lost + if ok then 1 else 0;
    RepeatedCounter(t, id, d, n);
    RepeatedCounter(t, id, d, 1);
    TimesZeroIff(lost, d);
    assert ok ==> Times(n, d) == Times(lost, d) + d;
    var after, told := Repeat(t, PutCounter(id, d), n), if ok then UpsertCounter(t, id, d).0 else t;
    if n > 0 && (id in t ==> t[id].mtype == Counter) {
      assert after == t[id := after[id]];
      assert told == if ok then t[id := told[id]] else t;
      assert after == told <==> id in told && after[id] == told[id];
    }
  }

  // ---- the table refines the map ----

  function WrapDelta(d: Option<int>): Option<int64> {
    if d.Some? then Some(Wrap(d.value)) else None
  }

  /** The map a table stands for. */
  function Abstract(t: Table): MemStore.Store {
    map id | id in t :: Metric(id, t[id].mtype, WrapDelta(t[id].delta), t[id].value)
  }

  function Refusal(affected: nat): Option<MemStore.Error> {
    if affected == 0 then Some(MemStore.IncorrectAccess) else None
  }

  /** Single upserts act as the map does on every table, and are refused in the same cases. */
  lemma SingleUpsertsRefine(t: Table, id: string, d: int64, x: real)
    ensures var (t', n) := UpsertCounter(t, id, d);
            (Abstract(t'), Refusal(n)) == MemStore.AddCounter(Abstract(t), id, d)
    ensures var (t', n) := UpsertGauge(t, id, x);
            (Abstract(t'), Refusal(n)) == MemStore.SetGauge(Abstract(t), id, x)
  {
    WrapIdempotent(d);
    if id in t && t[id].delta.Some? {
      WrapAdd(t[id].delta.value, d);
    }
    var (t', _) := UpsertCounter(t, id, d);
    assert Abstract(t') == MemStore.AddCounter(Abstract(t), id, d).0;
    var (u', _) := UpsertGauge(t, id, x);
    assert Abstract(u') == MemStore.SetGauge(Abstract(t), id, x).0;
  }

  /**
   A batch statement acts as the map does exactly on well-formed metrics that do not clash. On all others the
   two differ: the statement stores what the map ignores, sets NULL where the map keeps, or changes the type.
   */
  lemma BatchStatementRefinesIff(t: Table, m: Metric)
    requires MemStore.Sound(Abstract(t))
    ensures Abstract(UpsertMetric(t, m)) == MemStore.ApplyOne(Abstract(t), m)
       <==> WellFormed(m) && !MemStore.Clashes(Abstract(t), m)
  {
    var s, s' := Abstract(t), Abstract(UpsertMetric(t, m));
    if m.delta.Some? {
      WrapIdempotent(m.delta.value);
      if m.id in t && t[m.id].delta.Some? {
        WrapAdd(t[m.id].delta.value, m.delta.value);
      }
    }
    assert m.id in s' && s'[m.id].mtype == m.mtype && s'[m.id].value == m.value;
    assert m.id in s ==> s[m.id].id == m.id && WellFormed(s[m.id]);
    if WellFormed(m) && !MemStore.Clashes(s, m) {
      assert s' == MemStore.ApplyOne(s, m);
    }
  }

  ghost predicate AllWellFormed(ms: seq<Metric>) {
    forall m :: m in ms ==> WellFormed(m)
  }

  // ---- what a batch makes of one ID ----

  function FirstType(ms: seq<Metric>, id: string): Option<MType> {
    if ms == [] then None
    else
      var before := FirstType(ms[..|ms| - 1], id);
      var m := ms[|ms| - 1];
      if before == None && m.id == id then Some(m.mtype) else before
  }

  function LastType(ms: seq<Metric>, id: string): Option<MType> {
    if ms == [] then None
    else
      var m := ms[|ms| - 1];
      if m.id == id then Some(m.mtype) else LastType(ms[..|ms| - 1], id)
  }

  function LastValue(ms: seq<Metric>, id: string): Option<real> {
    if ms == [] then None
    else
      var m := ms[|ms| - 1];
      if m.id == id && m.value.Some? then m.value else LastValue(ms[..|ms| - 1], id)
  }

  function DeltaOf(m: Metric): int {
    if m.delta.Some? then m.delta.value else 0
  }

  /** All increments for an ID. */
  function SumAll(ms: seq<Metric>, id: string): int {
    if ms == [] then 0
    else
      var m := ms[|ms| - 1];
      SumAll(ms[..|ms| - 1], id) + if m.id == id then DeltaOf(m) else 0
  }

  /** The increments behind the last gauge of an ID. */
  function SumSince(ms: seq<Metric>, id: string): int {
    if ms == [] then 0
    else
      var m := ms[|ms| - 1];
      if m.id == id && m.mtype == Gauge then 0
      else SumSince(ms[..|ms| - 1], id) + if m.id == id then DeltaOf(m) else 0
  }

  predicate NoGauge(ms: seq<Metric>, id: string) {
    ms == [] ||
    var m := ms[|ms| - 1];
    !(m.id == id && m.mtype == Gauge) && NoGauge(ms[..|ms| - 1], id)
  }

  lemma {:induction false} TypeFacts(ms: seq<Metric>, id: string)
    requires AllWellFormed(ms)
    ensures FirstType(ms, id) == None <==> LastType(ms, id) == None
    ensures LastType(ms, id) == None ==> NoGauge(ms, id) && SumSince(ms, id) == 0
    ensures LastType(ms, id) == Some(Gauge) ==> !NoGauge(ms, id) && SumSince(ms, id) == 0
    ensures LastType(ms, id) in {None, Some(Counter), Some(Gauge)}
    ensures FirstType(ms, id) in {None, Some(Counter), Some(Gauge)}
    ensures NoGauge(ms, id) ==> SumSince(ms, id) == SumAll(ms, id) && FirstType(ms, id) == LastType(ms, id)
    ensures NoGauge(ms, id) <==> LastValue(ms, id) == None
  {
    if ms != [] {
      var n := |ms| - 1;
      assert forall m :: m in ms[..n] ==> m in ms;
      assert ms[n] in ms;
      TypeFacts(ms[..n], id);
    }
  }

  function RowOf(t: Table, id: string): Option<Row> {
    if id in t then Some(t[id]) else None
  }

  function Base(r: Option<Row>): int {
    if r.Some? then Coalesce(r.value.delta, 0) else 0
  }

  /** The row a batch leaves: of the last type, a counter with what came behind the last gauge. */
  function RowAfter(r: Option<Row>, ms: seq<Metric>, id: string): Option<Row> {
    match LastType(ms, id)
    case None => r
    case Some(mtype) =>
      if mtype == Counter
        then Some(Row(Counter, Some((if NoGauge(ms, id) then Base(r) else 0) + SumSince(ms, id)), None))
      else Some(Row(mtype, None, LastValue(ms, id)))
  }

  lemma {:induction false} BatchRow(t: Table, ms: seq<Metric>, id: string)
    requires AllWellFormed(ms)
    ensures RowOf(UpsertAll(t, ms), id) == RowAfter(RowOf(t, id), ms, id)
  {
    if ms != [] {
      var n := |ms| - 1;
      assert forall m :: m in ms[..n] ==> m in ms;
      assert ms[n] in ms;
      BatchRow(t, ms[..n], id);
      LastRow(UpsertAll(t, ms[..n]), RowOf(t, id), ms, n, id);
    }
  }

  lemma LastRow(t: Table, r: Option<Row>, ms: seq<Metric>, n: nat, id: string)
    requires |ms| == n + 1 && WellFormed(ms[n]) && AllWellFormed(ms[..n])
    requires RowOf(t, id) == RowAfter(r, ms[..n], id)
    ensures RowOf(UpsertMetric(t, ms[n]), id) == RowAfter(r, ms, id)
  {
    TypeFacts(ms[..n], id);
  }

  function EntryOf(s: MemStore.Store, id: string): Option<Metric> {
    if id in s then Some(s[id]) else None
  }

  /** The entry a batch leaves in the map: of the first type, which all of another type do not touch. */
  function EntryAfter(e: Option<Metric>, ms: seq<Metric>, id: string): Option<Metric> {
    var kind := if e.Some? then Some(e.value.mtype) else FirstType(ms, id);
    match kind
    case None => None
    case Some(mtype) =>
      if mtype == Counter
        then Some(CounterMetric(id, Wrap((if e.Some? then DeltaOf(e.value) else 0) + SumAll(ms, id))))
      else if NoGauge(ms, id) then e
      else Some(Metric(id, Gauge, None, LastValue(ms, id)))
  }

  lemma {:induction false} BatchEntry(s: MemStore.Store, ms: seq<Metric>, id: string)
    requires MemStore.Sound(s) && AllWellFormed(ms)
    ensures EntryOf(MemStore.ApplyAll(s, ms), id) == EntryAfter(EntryOf(s, id), ms, id)
  {
    if ms == [] {
      if id in s && s[id].delta.Some? {
        WrapIdempotent(s[id].delta.value);
      }
    } else {
      var n := |ms| - 1;
      assert forall m :: m in ms[..n] ==> m in ms;
      assert ms[n] in ms;
      BatchEntry(s, ms[..n], id);
      TypeFacts(ms[..n], id);
      LastEntry(MemStore.ApplyAll(s, ms[..n]), EntryOf(s, id), ms, n, id);
    }
  }

  lemma LastEntry(s: MemStore.Store, e: Option<Metric>, ms: seq<Metric>, n: nat, id: string)
    requires |ms| == n + 1 && WellFormed(ms[n]) && AllWellFormed(ms[..n])
    requires EntryOf(s, id) == EntryAfter(e, ms[..n], id) && (e.Some? ==> e.value.id == id && WellFormed(e.value))
    ensures EntryOf(MemStore.ApplyOne(s, ms[n]), id) == EntryAfter(e, ms, id)
  {
    var m := ms[n];
    TypeFacts(ms[..n], id);
    if m.id == id && m.mtype == Counter {
      var before := (if e.Some? then DeltaOf(e.value) else 0) + SumAll(ms[..n], id);
      WrapAdd(before, m.delta.value);
      WrapIdempotent(m.delta.value);
      assert (if e.Some? then DeltaOf(e.value) else 0) + SumAll(ms, id) == before + m.delta.value;
    }
  }

  /**
   When a new ID fares alike in table and map: the batch gives it the same type first and last, and if that is
   a counter, what it added before its last gauge comes to nothing modulo 2^64.
   */
  predicate MixesWell(ms: seq<Metric>, id: string) {
    && FirstType(ms, id) == LastType(ms, id)
    && (FirstType(ms, id) == Some(Counter) ==> Congruent(SumAll(ms, id), SumSince(ms, id)))
  }

  ghost predicate Agreeing(t: Table, ms: seq<Metric>) {
    forall id :: id in t || MixesWell(ms, id)
  }

  lemma {:induction false} UniformType(ms: seq<Metric>, id: string, mtype: MType)
    requires forall m :: m in ms && m.id == id ==> m.mtype == mtype
    ensures FirstType(ms, id) == LastType(ms, id) && LastType(ms, id) in {None, Some(mtype)}
    ensures mtype != Gauge ==> NoGauge(ms, id)
  {
    if ms != [] {
      var n := |ms| - 1;
      assert forall m :: m in ms[..n] ==> m in ms;
      assert ms[n] in ms;
      UniformType(ms[..n], id, mtype);
    }
  }

  /** The entry a row stands for. */
  function AbstractRow(r: Option<Row>, id: string): Option<Metric> {
    match r
    case None => None
    case Some(row) => Some(Metric(id, row.mtype, WrapDelta(row.delta), row.value))
  }

  lemma AbstractEntry(t: Table, id: string)
    ensures EntryOf(Abstract(t), id) == AbstractRow(RowOf(t, id), id)
  {
  }

  predicate SoundRow(row: Row) {
    || (row.mtype == Counter && row.delta.Some? && row.value == None)
    || (row.mtype == Gauge && row.delta == None && row.value.Some?)
  }

  lemma RowsAreSound(t: Table, id: string)
    requires MemStore.Sound(Abstract(t)) && id in t
    ensures SoundRow(t[id])
  {
    var m := Abstract(t)[id];
    assert WellFormed(m);
  }

  /** A row and the entry it stands for fare alike under metrics of their own type. */
  lemma SameTypeFaresAlike(row: Row, ms: seq<Metric>, id: string)
    requires SoundRow(row) && AllWellFormed(ms) && LastType(ms, id) in {None, Some(row.mtype)}
    requires row.mtype == Counter ==> NoGauge(ms, id)
    ensures AbstractRow(RowAfter(Some(row), ms, id), id) == EntryAfter(AbstractRow(Some(row), id), ms, id)
  {
    TypeFacts(ms, id);
    WrapAdd(Coalesce(row.delta, 0), SumAll(ms, id));
    WrapIdempotent(Wrap(Coalesce(row.delta, 0)));
  }

  lemma {:induction false} EntriesAgreeIff(t: Table, ms: seq<Metric>, id: string)
    requires MemStore.Sound(Abstract(t)) && AllWellFormed(ms) && Validate(t, ms) == None
    ensures EntryOf(Abstract(UpsertAll(t, ms)), id) == EntryOf(MemStore.ApplyAll(Abstract(t), ms), id)
       <==> id in t || MixesWell(ms, id)
  {
    BatchRow(t, ms, id);
    BatchEntry(Abstract(t), ms, id);
    AbstractEntry(t, id);
    AbstractEntry(UpsertAll(t, ms), id);
    TypeFacts(ms, id);
    match RowOf(t, id)
    case None =>
    case Some(row) =>
      RowsAreSound(t, id);
      UniformType(ms, id, row.mtype);
      SameTypeFaresAlike(row, ms, id);
  }

  lemma SameEntries(s: MemStore.Store, u: MemStore.Store)
    ensures s == u <==> forall id :: EntryOf(s, id) == EntryOf(u, id)
  {
    if forall id :: EntryOf(s, id) == EntryOf(u, id) {
      forall id
        ensures id in s <==> id in u
        ensures id in s ==> s[id] == u[id]
      {
        assert EntryOf(s, id) == EntryOf(u, id);
      }
    }
  }

  /**
   Batches are refused alike. An accepted one leaves corresponding contents if and only if every new ID fares
   alike; those stored before always do.
   */
  lemma BatchRefines(t: Table, ms: seq<Metric>)
    requires MemStore.Sound(Abstract(t)) && AllWellFormed(ms)
    ensures Validate(t, ms) == if MemStore.Batched(Abstract(t), ms).1.Some? then Some(IncorrectAccess) else None
    ensures Abstract(if Validate(t, ms).Some? then t else UpsertAll(t, ms)) == MemStore.Batched(Abstract(t), ms).0
       <==> Validate(t, ms).Some? || Agreeing(t, ms)
  {
    assert forall m :: MemStore.Clashes(Abstract(t), m) <==> m.id in t && t[m.id].mtype != m.mtype;
    if Validate(t, ms) == None {
      forall id
        ensures EntryOf(Abstract(UpsertAll(t, ms)), id) == EntryOf(MemStore.ApplyAll(Abstract(t), ms), id)
           <==> id in t || MixesWell(ms, id)
      {
        EntriesAgreeIff(t, ms, id);
      }
      SameEntries(Abstract(UpsertAll(t, ms)), MemStore.ApplyAll(Abstract(t), ms));
    }
  }

  ghost predicate OneTypePerId(ms: seq<Metric>) {
    forall i, j :: 0 <= i < j < |ms| && ms[i].id == ms[j].id ==> ms[i].mtype == ms[j].mtype
  }

  /** In particular a batch that gives no ID two types. */
  lemma OneTypeAgrees(t: Table, ms: seq<Metric>)
    requires AllWellFormed(ms) && OneTypePerId(ms)
    ensures Agreeing(t, ms)
  {
    forall id
      ensures MixesWell(ms, id)
    {
      if m :| m in ms && m.id == id {
        UniformType(ms, id, m.mtype);
      } else {
        UniformType(ms, id, Counter);
      }
      TypeFacts(ms, id);
    }
  }

  lemma UpsertAllRefines(t: Table, ms: seq<Metric>)
    requires MemStore.Sound(Abstract(t)) && AllWellFormed(ms) && OneTypePerId(ms)
    requires forall m :: m in ms ==> !MemStore.Clashes(Abstract(t), m)
    ensures Abstract(UpsertAll(t, ms)) == MemStore.ApplyAll(Abstract(t), ms)
  {
    OneTypeAgrees(t, ms);
    BatchRefines(t, ms);
  }

  /** An instance: a counter and a gauge for a new ID leave a gauge in the table and a counter in the map. */
  lemma MixedTypesDiffer()
    ensures exists ms :: AllWellFormed(ms) && Validate(map[], ms) == None
                         && Abstract(UpsertAll(map[], ms)) != MemStore.Batched(map[], ms).0
  {
    var a, b := CounterMetric("x", 1), GaugeMetric("x", 2.0);
    var ms := [a, b];
    assert ms[..1] == [a] && [a][..0] == [];
    assert FirstType([a], "x") == Some(Counter);
    assert !MixesWell(ms, "x");
    BatchRefines(map[], ms);
  }

  /** Of one type first and last, a batch agrees or not by what it adds before its last gauge. */
  lemma MixedSumsDecide(d: int64, x: real, e: int64)
    ensures MixesWell([CounterMetric("x", d), GaugeMetric("x", x), CounterMetric("x", e)], "x") <==> d == 0
  {
    var a, b, c := CounterMetric("x", d), GaugeMetric("x", x), CounterMetric("x", e);
    var one, two, three := [a], [a, b], [a, b, c];
    assert one[..0] == [] && two[..1] == one && three[..2] == two;
    assert SumAll([], "x") == 0;
    assert SumAll(one, "x") == SumAll(one[..0], "x") + DeltaOf(a);
    assert FirstType(one, "x") == Some(Counter) && SumAll(one, "x") == d;
    assert FirstType(two, "x") == Some(Counter) && SumAll(two, "x") == d && SumSince(two, "x") == 0;
    assert FirstType(three, "x") == LastType(three, "x") == Some(Counter);
    assert SumAll(three, "x") == d + e && SumSince(three, "x") == e;
    AddedNothingIff(d, e);
  }

  lemma AddedNothingIff(d: int64, e: int)
    ensures Congruent(d + e, e) <==> d == 0
  {
    WrapIdempotent(d);
    WrapAdd(d + e, -e);
    WrapAdd(e, -e);
    assert d + e + -e == d && e + -e == 0;
  }

  /** A type changed by another session between validation and transaction is overwritten by the batch's last one. */
  lemma {:induction false} TypeOverwrittenIff(t: Table, ms: seq<Metric>, id: string)
    requires AllWellFormed(ms) && id in t
    ensures id in UpsertAll(t, ms)
    ensures UpsertAll(t, ms)[id].mtype != t[id].mtype <==> LastType(ms, id) !in {None, Some(t[id].mtype)}
  {
    BatchRow(t, ms, id);
  }

  // ---- a batch taking effect more than once ----

  function RowRepeated(r: Option<Row>, ms: seq<Metric>, id: string, n: nat): Option<Row> {
    if n == 0 then r
    else if LastType(ms, id) == Some(Counter) && NoGauge(ms, id)
      then Some(Row(Counter, Some(Base(r) + Times(n, SumAll(ms, id))), None))
    else RowAfter(r, ms, id)
  }

  lemma {:induction false} RepeatedRow(t: Table, ms: seq<Metric>, id: string, n: nat)
    requires AllWellFormed(ms)
    ensures RowOf(RepeatBatch(t, ms, n), id) == RowRepeated(RowOf(t, id), ms, id, n)
  {
    if n > 0 {
      RepeatedRow(t, ms, id, n - 1);
      BatchRow(RepeatBatch(t, ms, n - 1), ms, id);
      TypeFacts(ms, id);
      assert Times(n, SumAll(ms, id)) == Times(n - 1, SumAll(ms, id)) + SumAll(ms, id);
    }
  }

  lemma SameRows(t: Table, u: Table)
    ensures t == u <==> forall id :: RowOf(t, id) == RowOf(u, id)
  {
    if forall id :: RowOf(t, id) == RowOf(u, id) {
      forall id
        ensures id in t <==> id in u
        ensures id in t ==> t[id] == u[id]
      {
        assert RowOf(t, id) == RowOf(u, id);
      }
    }
  }

  /**
   The row of an ID is what the batch would make of it: a counter that gets nothing added, or is set behind the
   batch's last gauge to what it holds; a gauge with the batch's last value.
   */
  predicate RowStays(t: Table, ms: seq<Metric>, id: string) {
    match LastType(ms, id)
    case None => true
    case Some(mtype) =>
      id in t &&
      if mtype == Counter then
        && t[id].mtype == Counter && t[id].delta.Some? && t[id].value == None
        && (if NoGauge(ms, id) then SumAll(ms, id) == 0 else t[id].delta.value == SumSince(ms, id))
      else t[id] == Row(Gauge, None, LastValue(ms, id))
  }

  lemma RowStaysIff(t: Table, ms: seq<Metric>, id: string)
    requires AllWellFormed(ms)
    ensures RowOf(UpsertAll(t, ms), id) == RowOf(t, id) <==> RowStays(t, ms, id)
  {
    BatchRow(t, ms, id);
    TypeFacts(ms, id);
  }

  /** One row of a batch may be repeated, told a success or a failure. */
  predicate RowAsTold(t: Table, ms: seq<Metric>, ok: bool, id: string) {
    if ok then NoGauge(ms, id) ==> SumAll(ms, id) == 0 else RowStays(t, ms, id)
  }

  lemma RowAsToldIff(t: Table, ms: seq<Metric>, id: string, ok: bool, lost: nat)
    requires AllWellFormed(ms)
    ensures RowOf(RepeatBatch(t, ms, lost + if ok then 1 else 0), id) == RowOf(if ok then UpsertAll(t, ms) else t, id)
       <==> lost == 0 || RowAsTold(t, ms, ok, id)
  {
    var n := lost + if ok then 1 else 0;
    RepeatedRow(t, ms, id, n);
    BatchRow(t, ms, id);
    TypeFacts(ms, id);
    RowStaysIff(t, ms, id);
    TimesZeroIff(lost, SumAll(ms, id));
    assert ok ==> Times(n, SumAll(ms, id)) == Times(lost, SumAll(ms, id)) + SumAll(ms, id);
  }

  /**
   With lost answers a batch leaves what its error tells if and only if it may be repeated: told a success, if it
   adds nothing to IDs it gives no gauge for; told a failure, if every row is what the batch would make of it.
   */
  lemma BatchAsToldIff(t: Table, ms: seq<Metric>, ok: bool, lost: nat)
    requires AllWellFormed(ms)
    ensures RepeatBatch(t, ms, lost + if ok then 1 else 0) == (if ok then UpsertAll(t, ms) else t)
       <==> lost == 0 || forall id :: RowAsTold(t, ms, ok, id)
  {
    var after, told := RepeatBatch(t, ms, lost + if ok then 1 else 0), if ok then UpsertAll(t, ms) else t;
    SameRows(after, told);
    forall id
      ensures RowOf(after, id) == RowOf(told, id) <==> lost == 0 || RowAsTold(t, ms, ok, id)
    {
      RowAsToldIff(t, ms, id, ok, lost);
    }
  }

  // ---- whole runs ----

  /** An update as the table performs it when no statement fails. */
  function Perform(t: Table, u: MemStore.Update): Table {
    match u
    case Add(id, d) => UpsertCounter(t, id, d).0
    case Set(id, x) => UpsertGauge(t, id, x).0
    case Batch(ms) => if Validate(t, ms).Some? then t else UpsertAll(t, ms)
  }

  function PerformAll(t: Table, us: seq<MemStore.Update>): Table {
    if us == [] then t else Perform(PerformAll(t, us[..|us| - 1]), us[|us| - 1])
  }

  ghost predicate WellFormedUpdate(u: MemStore.Update) {
    u.Batch? ==> AllWellFormed(u.ms)
  }

  /** Every batch that is accepted gives the IDs that are new to it a mixture that agrees. */
  ghost predicate StepAgrees(t: Table, u: MemStore.Update) {
    u.Batch? ==> Validate(t, u.ms).Some? || Agreeing(t, u.ms)
  }

  ghost predicate RunAgrees(t: Table, us: seq<MemStore.Update>) {
    us == [] || (RunAgrees(t, us[..|us| - 1]) && StepAgrees(PerformAll(t, us[..|us| - 1]), us[|us| - 1]))
  }

  lemma StepRefines(t: Table, u: MemStore.Update)
    requires MemStore.Sound(Abstract(t)) && WellFormedUpdate(u)
    ensures Abstract(Perform(t, u)) == MemStore.Run(Abstract(t), u) <==> StepAgrees(t, u)
  {
    match u
    case Add(id, d) => SingleUpsertsRefine(t, id, d, 0.0);
    case Set(id, x) => SingleUpsertsRefine(t, id, 0, x);
    case Batch(ms) => BatchRefines(t, ms);
  }

  ghost predicate TypesDiffer(t: Table, s: MemStore.Store, id: string) {
    id in t && id in s && t[id].mtype != s[id].mtype
  }

  ghost predicate CountsDiffer(t: Table, s: MemStore.Store, id: string) {
    && id in t && id in s && t[id].mtype == Counter && t[id].delta.Some? && s[id].delta.Some?
    && Wrap(t[id].delta.value) != s[id].delta.value
  }

  ghost predicate SameTypes(t: Table, s: MemStore.Store) {
    t.Keys == s.Keys && forall id :: id in t ==> t[id].mtype == s[id].mtype
  }

  /** How table and map differ once they do: in a type, or with equal types in a counter. */
  ghost predicate Drifted(t: Table, s: MemStore.Store) {
    (exists id :: TypesDiffer(t, s, id)) || (SameTypes(t, s) && exists id :: CountsDiffer(t, s, id))
  }

  lemma DriftedDiffers(t: Table, s: MemStore.Store)
    requires Drifted(t, s)
    ensures Abstract(t) != s
  {
    if id :| TypesDiffer(t, s, id) {
      assert Abstract(t)[id].mtype != s[id].mtype;
    } else {
      var id :| CountsDiffer(t, s, id);
      assert Abstract(t)[id].delta != s[id].delta;
    }
  }

  lemma {:induction false} BatchTypes(t: Table, ms: seq<Metric>, id: string)
    requires AllWellFormed(ms) && Validate(t, ms) == None && id in t
    ensures id in UpsertAll(t, ms) && UpsertAll(t, ms)[id].mtype == t[id].mtype
    ensures LastType(ms, id) in {None, Some(t[id].mtype)} && (t[id].mtype == Counter ==> NoGauge(ms, id))
  {
    UniformType(ms, id, t[id].mtype);
    BatchRow(t, ms, id);
  }

  /** A batch that does not agree sets table and map adrift. */
  lemma DriftStarts(t: Table, ms: seq<Metric>)
    requires MemStore.Sound(Abstract(t)) && AllWellFormed(ms) && Validate(t, ms) == None && !Agreeing(t, ms)
    ensures Drifted(UpsertAll(t, ms), MemStore.ApplyAll(Abstract(t), ms))
  {
    var t', s' := UpsertAll(t, ms), MemStore.ApplyAll(Abstract(t), ms);
    var id :| id !in t && !MixesWell(ms, id);
    DriftOfNew(t, ms, id);
    if forall k :: !TypesDiffer(t', s', k) {
      forall k
        ensures k in t' <==> k in s'
      {
        BatchRow(t, ms, k);
        BatchEntry(Abstract(t), ms, k);
        TypeFacts(ms, k);
      }
      forall k | k in t'
        ensures t'[k].mtype == s'[k].mtype
      {
        assert !TypesDiffer(t', s', k);
      }
    }
  }

  lemma {:induction false} DriftOfNew(t: Table, ms: seq<Metric>, id: string)
    requires MemStore.Sound(Abstract(t)) && AllWellFormed(ms) && id !in t && !MixesWell(ms, id)
    ensures var t', s' := UpsertAll(t, ms), MemStore.ApplyAll(Abstract(t), ms);
            TypesDiffer(t', s', id) || CountsDiffer(t', s', id)
  {
    BatchRow(t, ms, id);
    BatchEntry(Abstract(t), ms, id);
    TypeFacts(ms, id);
  }

  lemma CancelWrap(x: int, y: int, d: int)
    ensures Congruent(x + d, y + d) <==> Congruent(x, y)
  {
    if Congruent(x, y) {
      CongruentAdd(x, y, d);
    }
    if Congruent(x + d, y + d) {
      CongruentAdd(x + d, y + d, -d);
      assert x + d + -d == x && y + d + -d == y;
    }
  }

  lemma PerformKeeps(t: Table, u: MemStore.Update)
    requires MemStore.Sound(Abstract(t)) && WellFormedUpdate(u)
    ensures MemStore.Sound(Abstract(Perform(t, u)))
  {
    if u.Batch? && Validate(t, u.ms) == None {
      forall id | id in UpsertAll(t, u.ms)
        ensures WellFormed(Abstract(UpsertAll(t, u.ms))[id])
      {
        BatchRow(t, u.ms, id);
        TypeFacts(u.ms, id);
        if id in t {
          assert WellFormed(Abstract(t)[id]);
        }
      }
    } else {
      forall id | id in Perform(t, u)
        ensures WellFormed(Abstract(Perform(t, u))[id])
      {
        if id in t {
          assert WellFormed(Abstract(t)[id]);
        }
      }
    }
  }

  lemma TypesStay(t: Table, s: MemStore.Store, u: MemStore.Update, id: string)
    requires MemStore.Sound(s) && WellFormedUpdate(u) && TypesDiffer(t, s, id)
    ensures TypesDiffer(Perform(t, u), MemStore.Run(s, u), id)
  {
    if u.Batch? && Validate(t, u.ms) == None {
      BatchTypes(t, u.ms, id);
    }
    assert [u][..0] == [];
    assert MemStore.RunAll(s, [u]) == MemStore.Run(s, u);
    MemStore.RunKeeps(s, [u]);
  }

  lemma UpsertDriftStays(t: Table, s: MemStore.Store, u: MemStore.Update, id: string)
    requires !u.Batch? && SameTypes(t, s) && CountsDiffer(t, s, id)
    ensures SameTypes(Perform(t, u), MemStore.Run(s, u)) && CountsDiffer(Perform(t, u), MemStore.Run(s, u), id)
  {
    WrapIdempotent(s[id].delta.value);
    if u.Add? {
      CancelWrap(t[id].delta.value, s[id].delta.value, u.d);
    }
  }

  lemma BatchDriftStays(t: Table, s: MemStore.Store, ms: seq<Metric>, id: string)
    requires MemStore.Sound(Abstract(t)) && MemStore.Sound(s) && AllWellFormed(ms)
    requires SameTypes(t, s) && CountsDiffer(t, s, id)
    ensures Drifted(Perform(t, MemStore.Batch(ms)), MemStore.Run(s, MemStore.Batch(ms)))
  {
    assert forall m :: MemStore.Clashes(s, m) <==> m.id in t && t[m.id].mtype != m.mtype;
    if Validate(t, ms) == None {
      var t', s' := UpsertAll(t, ms), MemStore.ApplyAll(s, ms);
      CountersStayApart(t, s, ms, id);
      if forall k :: !TypesDiffer(t', s', k) {
        forall k
          ensures k in t' <==> k in s'
        {
          BatchRow(t, ms, k);
          BatchEntry(s, ms, k);
          TypeFacts(ms, k);
        }
        forall k | k in t'
          ensures t'[k].mtype == s'[k].mtype
        {
          assert !TypesDiffer(t', s', k);
        }
      }
    }
  }

  lemma {:induction false} CountersStayApart(t: Table, s: MemStore.Store, ms: seq<Metric>, id: string)
    requires MemStore.Sound(s) && AllWellFormed(ms) && Validate(t, ms) == None
    requires s.Keys == t.Keys && id in t && s[id].mtype == t[id].mtype && CountsDiffer(t, s, id)
    ensures CountsDiffer(UpsertAll(t, ms), MemStore.ApplyAll(s, ms), id)
  {
    BatchTypes(t, ms, id);
    BatchRow(t, ms, id);
    BatchEntry(s, ms, id);
    TypeFacts(ms, id);
    assert s[id].id == id && WellFormed(s[id]);
    WrapIdempotent(s[id].delta.value);
    CancelWrap(t[id].delta.value, s[id].delta.value, SumAll(ms, id));
  }

  /** Once adrift, table and map never agree again. */
  lemma DriftStays(t: Table, s: MemStore.Store, u: MemStore.Update)
    requires MemStore.Sound(Abstract(t)) && MemStore.Sound(s) && WellFormedUpdate(u) && Drifted(t, s)
    ensures Drifted(Perform(t, u), MemStore.Run(s, u))
  {
    if id :| TypesDiffer(t, s, id) {
      TypesStay(t, s, u, id);
    } else {
      var id :| CountsDiffer(t, s, id);
      match u
      case Batch(ms) => BatchDriftStays(t, s, ms, id);
      case _ => UpsertDriftStays(t, s, u, id);
    }
  }

  lemma {:induction false} PerformAllKeeps(t: Table, us: seq<MemStore.Update>)
    requires MemStore.Sound(Abstract(t)) && forall u :: u in us ==> WellFormedUpdate(u)
    ensures MemStore.Sound(Abstract(PerformAll(t, us)))
  {
    if us != [] {
      var n := |us| - 1;
      assert us[n] in us && forall u :: u in us[..n] ==> u in us;
      PerformAllKeeps(t, us[..n]);
      PerformKeeps(PerformAll(t, us[..n]), us[n]);
    }
  }

  lemma {:induction false} RunDriftsOrAgrees(t: Table, us: seq<MemStore.Update>)
    requires MemStore.Sound(Abstract(t)) && forall u :: u in us ==> WellFormedUpdate(u)
    ensures if RunAgrees(t, us) then Abstract(PerformAll(t, us)) == MemStore.RunAll(Abstract(t), us)
            else Drifted(PerformAll(t, us), MemStore.RunAll(Abstract(t), us))
  {
    if us != [] {
      var n := |us| - 1;
      assert us[n] in us && forall u :: u in us[..n] ==> u in us;
      RunDriftsOrAgrees(t, us[..n]);
      PerformAllKeeps(t, us[..n]);
      MemStore.RunKeeps(Abstract(t), us[..n]);
      if !RunAgrees(t, us[..n]) {
        DriftStays(PerformAll(t, us[..n]), MemStore.RunAll(Abstract(t), us[..n]), us[n]);
      } else {
        StepRefines(PerformAll(t, us[..n]), us[n]);
        if !StepAgrees(PerformAll(t, us[..n]), us[n]) {
          DriftStarts(PerformAll(t, us[..n]), us[n].ms);
        }
      }
    }
  }

  /**
   Over any run of well-formed updates the table stands for the map, counters modulo 2^64, if and only if every
   accepted batch mixed the types of its new IDs harmlessly.
   */
  lemma RunRefines(t: Table, us: seq<MemStore.Update>)
    requires MemStore.Sound(Abstract(t))
    requires forall u :: u in us && u.Batch? ==> AllWellFormed(u.ms)
    ensures Abstract(PerformAll(t, us)) == MemStore.RunAll(Abstract(t), us) <==> RunAgrees(t, us)
  {
    assert forall u :: u in us ==> WellFormedUpdate(u);
    RunDriftsOrAgrees(t, us);
    if !RunAgrees(t, us) {
      DriftedDiffers(PerformAll(t, us), MemStore.RunAll(Abstract(t), us));
    }
  }

  /** So it does over every run whose batches give no ID two types. */
  lemma {:induction false} UniformRunsAgree(t: Table, us: seq<MemStore.Update>)
    requires forall u :: u in us && u.Batch? ==> AllWellFormed(u.ms) && OneTypePerId(u.ms)
    ensures RunAgrees(t, us)
  {
    if us != [] {
      var n := |us| - 1;
      assert us[n] in us && forall u :: u in us[..n] ==> u in us;
      UniformRunsAgree(t, us[..n]);
      if us[n].Batch? {
        OneTypeAgrees(PerformAll(t, us[..n]), us[n].ms);
      }
    }
  }

  // ---- what callers are told ----

  datatype Call = Change(u: MemStore.Update) | Get(id: string)

  datatype Answer = Done | Refused | Found(m: Metric) | Missing | Unreadable

  function TableAnswer(t: Table, c: Call): Answer {
    match c
    case Change(Add(id, d)) => if UpsertCounter(t, id, d).1 == 0 then Refused else Done
    case Change(Set(id, x)) => if UpsertGauge(t, id, x).1 == 0 then Refused else Done
    case Change(Batch(ms)) => if Validate(t, ms).Some? then Refused else Done
    case Get(id) =>
      (match Select(t, id)
       case (Some(m), _) => Found(m)
       case (None, Some(MetricNotFound)) => Missing
       case _ => Unreadable)
  }

  function MapAnswer(s: MemStore.Store, c: Call): Answer {
    match c
    case Change(Add(id, d)) => if MemStore.AddCounter(s, id, d).1.Some? then Refused else Done
    case Change(Set(id, x)) => if MemStore.SetGauge(s, id, x).1.Some? then Refused else Done
    case Change(Batch(ms)) => if MemStore.Batched(s, ms).1.Some? then Refused else Done
    case Get(id) => if id in s then Found(s[id]) else Missing
  }

  /** The counter of a row still fits into int64. */
  predicate Readable(t: Table, id: string) {
    id in t && t[id].delta.Some? ==> -HALF <= t[id].delta.value < HALF
  }

  lemma AnswersAgreeIff(t: Table, c: Call)
    requires MemStore.Sound(Abstract(t)) && (c.Change? ==> WellFormedUpdate(c.u))
    ensures TableAnswer(t, c) == MapAnswer(Abstract(t), c) <==> (c.Get? ==> Readable(t, c.id))
  {
    match c
    case Change(Add(id, d)) => SingleUpsertsRefine(t, id, d, 0.0);
    case Change(Set(id, x)) => SingleUpsertsRefine(t, id, 0, x);
    case Change(Batch(ms)) => BatchRefines(t, ms);
    case Get(id) => SelectRefinesIff(t, id);
  }

  function Changes(cs: seq<Call>): seq<MemStore.Update> {
    if cs == [] then []
    else Changes(cs[..|cs| - 1]) + if cs[|cs| - 1].Change? then [cs[|cs| - 1].u] else []
  }

  /**
   In any run of updates and reads whose batches agree, every call is answered alike by table and map, except a
   read of a counter that has left int64.
   */
  lemma RunAnswersAgreeIff(t: Table, cs: seq<Call>, n: nat)
    requires MemStore.Sound(Abstract(t)) && n < |cs|
    requires forall u :: u in Changes(cs[..n]) ==> WellFormedUpdate(u)
    requires cs[n].Change? ==> WellFormedUpdate(cs[n].u)
    requires RunAgrees(t, Changes(cs[..n]))
    ensures var (t', s') := (PerformAll(t, Changes(cs[..n])), MemStore.RunAll(Abstract(t), Changes(cs[..n])));
            TableAnswer(t', cs[n]) == MapAnswer(s', cs[n]) <==> (cs[n].Get? ==> Readable(t', cs[n].id))
  {
    RunRefines(t, Changes(cs[..n]));
    PerformAllKeeps(t, Changes(cs[..n]));
    AnswersAgreeIff(PerformAll(t, Changes(cs[..n])), cs[n]);
  }

  /** Reading a row agrees with the map exactly as long as its counter has not left int64. */
  lemma SelectRefinesIff(t: Table, id: string)
    ensures Select(t, id).0 == MemStore.Lookup(Abstract(t), id).0
       <==> id !in t || t[id].delta == None || -HALF <= t[id].delta.value < HALF
    ensures Select(t, id).1 == Some(MetricNotFound)
       <==> MemStore.Lookup(Abstract(t), id).1 == Some(MemStore.MetricNotFound)
  {
    if id in t && t[id].delta.Some? && -HALF <= t[id].delta.value < HALF {
      WrapIdempotent(t[id].delta.value);
    }
  }
}
