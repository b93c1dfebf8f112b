/** Runs of updates on the SQL store under faults: how often each took effect, and what the table then stands for. */
module DbRuns {
  import opened Model
  import opened DbStore
  import MemStore
  import Retrying

  type Faults = nat -> Option<Fault>

  /** An update, and how the attempts of its validation and of its change go. */
  datatype Job = Job(u: MemStore.Update, readFaults: Faults, faults: Faults)

  // ---- one update ----

  /** The number of attempts, counted from number k on. */
  function TriesFrom(policy: Retrying.Policy, n: nat, faults: Faults, k: nat): nat
    requires k <= Retrying.RetryLimit(policy)
    decreases Retrying.RetryLimit(policy) - k
  {
    if k < Retrying.RetryLimit(policy) && Retried(n, faults(k)) then TriesFrom(policy, n, faults, k + 1) else k + 1
  }

  function Tries(policy: Retrying.Policy, n: nat, faults: Faults): nat {
    TriesFrom(policy, n, faults, 0)
  }

  lemma {:induction false} TriesFromAttempts(policy: Retrying.Policy, n: nat, faults: Faults, k: nat)
    requires k <= Retrying.RetryLimit(policy) && forall i :: 0 <= i < k ==> Retried(n, faults(i))
    ensures Attempts(policy, n, faults, TriesFrom(policy, n, faults, k))
    decreases Retrying.RetryLimit(policy) - k
  {
    if k < Retrying.RetryLimit(policy) && Retried(n, faults(k)) {
      TriesFromAttempts(policy, n, faults, k + 1);
    }
  }

  lemma TriesIff(policy: Retrying.Policy, n: nat, faults: Faults, calls: nat)
    ensures Attempts(policy, n, faults, calls) <==> calls == Tries(policy, n, faults)
  {
    TriesFromAttempts(policy, n, faults, 0);
    if Attempts(policy, n, faults, calls) {
      AttemptsSettled(policy, n, faults, calls, Tries(policy, n, faults));
    }
  }

  /** The database calls of one attempt. */
  function Size(u: MemStore.Update): nat {
    if u.Batch? then |u.ms| + 2 else 1
  }

  function LastFault(policy: Retrying.Policy, j: Job): Option<Fault> {
    TriesIff(policy, Size(j.u), j.faults, Tries(policy, Size(j.u), j.faults));
    j.faults(Tries(policy, Size(j.u), j.faults) - 1)
  }

  /** How the validation of a batch ends. */
  function ReadError(policy: Retrying.Policy, t: Table, j: Job): Option<Error> {
    if j.u.Batch? then
      TriesIff(policy, 1, j.readFaults, Tries(policy, 1, j.readFaults));
      BatchValidate(t, j.u.ms, j.readFaults(Tries(policy, 1, j.readFaults) - 1)).1
    else None
  }

  /** How often the update takes effect. */
  function Took(policy: Retrying.Policy, t: Table, j: Job): nat {
    if ReadError(policy, t, j).Some? then 0
    else TimesTook(Size(j.u), j.faults, Tries(policy, Size(j.u), j.faults))
  }

  /** How many of its answers are lost. */
  function Losses(policy: Retrying.Policy, t: Table, j: Job): nat {
    if ReadError(policy, t, j).Some? then 0
    else TimesLost(Size(j.u), j.faults, Tries(policy, Size(j.u), j.faults))
  }

  /** The table after the change has taken effect n times. */
  function Changed(t: Table, u: MemStore.Update, n: nat): Table {
    match u
    case Add(id, d) => Repeat(t, PutCounter(id, d), n)
    case Set(id, x) => Repeat(t, PutGauge(id, x), n)
    case Batch(ms) => RepeatBatch(t, ms, n)
  }

  function ErrorOf(policy: Retrying.Policy, t: Table, j: Job): Option<Error> {
    var e := ReadError(policy, t, j);
    if e.Some? then e
    else
      match j.u
      case Add(id, d) => UpsertError(t, PutCounter(id, d), LastFault(policy, j))
      case Set(id, x) => UpsertError(t, PutGauge(id, x), LastFault(policy, j))
      case Batch(ms) => FaultError(|ms| + 2, LastFault(policy, j))
  }

  /** One call of the store. */
  method Serve(storage: PostgresDBStorage, j: Job) returns (err: Option<Error>)
    modifies storage
    ensures storage.table == Changed(old(storage.table), j.u, Took(storage.policy, old(storage.table), j))
    ensures err == ErrorOf(storage.policy, old(storage.table), j)
  {
    ghost var calls, took, looks;
    match j.u
    case Add(id, d) =>
      err, calls, took := storage.AddCounter(id, d, j.faults);
      TriesIff(storage.policy, 1, j.faults, calls);
    case Set(id, x) =>
      err, calls, took := storage.SetGauge(id, x, j.faults);
      TriesIff(storage.policy, 1, j.faults, calls);
    case Batch(ms) =>
      err, looks, calls, took := storage.BatchUpdate(ms, j.readFaults, t => t, j.faults);
      TriesIff(storage.policy, 1, j.readFaults, looks);
      TriesIff(storage.policy, |ms| + 2, j.faults, calls);
  }

  function Served(policy: Retrying.Policy, t: Table, js: seq<Job>): Table {
    if js == [] then t
    else
      var before, j := Served(policy, t, js[..|js| - 1]), js[|js| - 1];
      Changed(before, j.u, Took(policy, before, j))
  }

  /** The errors of a run, call by call. */
  function Told(policy: Retrying.Policy, t: Table, js: seq<Job>): seq<Option<Error>> {
    if js == [] then []
    else
      var before := js[..|js| - 1];
      Told(policy, t, before) + [ErrorOf(policy, Served(policy, t, before), js[|js| - 1])]
  }

  /** Any run of calls. */
  method ServeAll(storage: PostgresDBStorage, js: seq<Job>) returns (errs: seq<Option<Error>>)
    modifies storage
    ensures storage.table == Served(storage.policy, old(storage.table), js)
    ensures errs == Told(storage.policy, old(storage.table), js)
  {
    errs := [];
    for i := 0 to |js|
      invariant storage.table == Served(storage.policy, old(storage.table), js[..i])
      invariant errs == Told(storage.policy, old(storage.table), js[..i])
    {
      assert js[..i + 1][..i] == js[..i];
      var err := Serve(storage, js[i]);
      errs := errs + [err];
    }
    assert js[..|js|] == js;
  }

  // ---- what the callers were told ----

  /** Repeats of the change do not show, told a success or a failure. */
  ghost predicate MayRepeat(t: Table, u: MemStore.Update, ok: bool) {
    match u
    case Add(id, d) =>
      (id in t && t[id].mtype != Counter) || (d == 0 && (ok || (id in t && t[id].delta.Some?)))
    case Set(id, x) => ok || (id in t && (t[id].mtype != Gauge || t[id].value == Some(x)))
    case Batch(ms) => forall id :: RowAsTold(t, ms, ok, id)
  }

  ghost predicate JobAsTold(policy: Retrying.Policy, t: Table, j: Job) {
    Losses(policy, t, j) == 0 || MayRepeat(t, j.u, Hit(Size(j.u), LastFault(policy, j)) == None)
  }

  lemma TookIsOncePlusLost(policy: Retrying.Policy, t: Table, j: Job)
    requires ReadError(policy, t, j) == None
    ensures Took(policy, t, j)
            == Losses(policy, t, j) + if Hit(Size(j.u), LastFault(policy, j)) == None then 1 else 0
  {
    TriesIff(policy, Size(j.u), j.faults, Tries(policy, Size(j.u), j.faults));
    OncePlusLost(policy, Size(j.u), j.faults, Tries(policy, Size(j.u), j.faults));
  }

  lemma OneUpsert(t: Table, u: Upsert)
    ensures Repeat(t, u, 1) == Do(t, u).0 && Repeat(t, u, 0) == t
    ensures Do(t, u).1 == 0 ==> Do(t, u).0 == t
  {
    assert Repeat(t, u, 1) == Do(Repeat(t, u, 0), u).0;
  }

  /**
   The table is changed once or not at all, as the error tells, if and only if no answer is lost or repeats do not
   show.
   */
  lemma JobAsToldIff(policy: Retrying.Policy, t: Table, j: Job)
    requires WellFormedUpdate(j.u)
    ensures Changed(t, j.u, Took(policy, t, j)) == (if ErrorOf(policy, t, j) == None then Perform(t, j.u) else t)
       <==> JobAsTold(policy, t, j)
  {
    if ReadError(policy, t, j) == None {
      TookIsOncePlusLost(policy, t, j);
      var ok, lost := Hit(Size(j.u), LastFault(policy, j)) == None, Losses(policy, t, j);
      match j.u
      case Add(id, d) =>
        OneUpsert(t, PutCounter(id, d));
        CounterAsToldIff(t, id, d, ok, lost);
      case Set(id, x) =>
        OneUpsert(t, PutGauge(id, x));
        GaugeAsToldIff(t, id, x, ok, lost);
      case Batch(ms) =>
        BatchAsToldIff(t, ms, ok, lost);
    }
  }

  /** The updates that returned no error. */
  function Acknowledged(policy: Retrying.Policy, t: Table, js: seq<Job>): seq<MemStore.Update> {
    if js == [] then []
    else
      var before, j := js[..|js| - 1], js[|js| - 1];
      Acknowledged(policy, t, before) + if ErrorOf(policy, Served(policy, t, before), j) == None then [j.u] else []
  }

  ghost predicate RunAsTold(policy: Retrying.Policy, t: Table, js: seq<Job>) {
    js == [] ||
    var before := js[..|js| - 1];
    RunAsTold(policy, t, before) && JobAsTold(policy, Served(policy, t, before), js[|js| - 1])
  }

  /** Where no lost answer shows, a run leaves what its acknowledged updates would leave without faults. */
  lemma {:induction false} ServedIsAcknowledged(policy: Retrying.Policy, t: Table, js: seq<Job>)
    requires (forall j :: j in js ==> WellFormedUpdate(j.u)) && RunAsTold(policy, t, js)
    ensures Served(policy, t, js) == PerformAll(t, Acknowledged(policy, t, js))
    ensures forall u :: u in Acknowledged(policy, t, js) ==> WellFormedUpdate(u)
  {
    if js != [] {
      var n := |js| - 1;
      assert js[n] in js && forall j :: j in js[..n] ==> j in js;
      ServedIsAcknowledged(policy, t, js[..n]);
      JobAsToldIff(policy, Served(policy, t, js[..n]), js[n]);
      var us := Acknowledged(policy, t, js[..n]);
      assert (us + [js[n].u])[..|us|] == us && us + [] == us;
    }
  }

  /** No answer is lost anywhere. */
  ghost predicate NoneLost(policy: Retrying.Policy, js: seq<Job>) {
    forall j :: j in js ==> forall i :: 0 <= i < Tries(policy, Size(j.u), j.faults) ==> !Lost(Size(j.u), j.faults(i))
  }

  lemma {:induction false} NoneLostAsTold(policy: Retrying.Policy, t: Table, js: seq<Job>)
    requires NoneLost(policy, js)
    ensures RunAsTold(policy, t, js)
  {
    if js != [] {
      var n := |js| - 1;
      assert js[n] in js && forall j :: j in js[..n] ==> j in js;
      NoneLostAsTold(policy, t, js[..n]);
      NoneLostIff(Size(js[n].u), js[n].faults, Tries(policy, Size(js[n].u), js[n].faults));
    }
  }

  /**
   Exactly once under retry and the refinement, in one: over any run whose answers all come through, whatever else
   fails, the table stands for the map with the acknowledged updates if and only if the batches among them agree.
   */
  lemma FaultyRunRefinesIff(policy: Retrying.Policy, t: Table, js: seq<Job>)
    requires MemStore.Sound(Abstract(t)) && (forall j :: j in js ==> WellFormedUpdate(j.u)) && NoneLost(policy, js)
    ensures var us := Acknowledged(policy, t, js);
            Abstract(Served(policy, t, js)) == MemStore.RunAll(Abstract(t), us) <==> RunAgrees(t, us)
  {
    NoneLostAsTold(policy, t, js);
    ServedIsAcknowledged(policy, t, js);
    RunRefines(t, Acknowledged(policy, t, js));
  }

  // ---- effects counted ----

  function Copies(u: MemStore.Update, n: nat): seq<MemStore.Update> {
    if n == 0 then [] else Copies(u, n - 1) + [u]
  }

  lemma PerformOneMore(t: Table, us: seq<MemStore.Update>, u: MemStore.Update)
    ensures PerformAll(t, us + [u]) == Perform(PerformAll(t, us), u)
  {
    assert (us + [u])[..|us|] == us;
  }

  lemma {:induction false} PerformBoth(t: Table, us: seq<MemStore.Update>, vs: seq<MemStore.Update>)
    ensures PerformAll(t, us + vs) == PerformAll(PerformAll(t, us), vs)
  {
    if vs == [] {
      assert us + vs == us;
    } else {
      var n := |vs| - 1;
      assert us + vs == (us + vs[..n]) + [vs[n]];
      PerformBoth(t, us, vs[..n]);
      PerformOneMore(t, us + vs[..n], vs[n]);
    }
  }

  /** A batch that took effect is valid for another time if and only if it gives no ID two types. */
  lemma ValidAgainIff(t: Table, ms: seq<Metric>)
    requires AllWellFormed(ms)
    ensures Validate(UpsertAll(t, ms), ms) == None <==> OneTypePerId(ms)
  {
    forall m | m in ms
      ensures m.id in UpsertAll(t, ms) && Some(UpsertAll(t, ms)[m.id].mtype) == LastType(ms, m.id)
    {
      LastTypeOfMember(ms, m);
      BatchRow(t, ms, m.id);
      TypeFacts(ms, m.id);
    }
    if OneTypePerId(ms) {
      forall m | m in ms
        ensures UpsertAll(t, ms)[m.id].mtype == m.mtype
      {
        UniformType(ms, m.id, m.mtype);
      }
    }
  }

  lemma {:induction false} LastTypeOfMember(ms: seq<Metric>, m: Metric)
    requires m in ms
    ensures LastType(ms, m.id).Some?
  {
    var n := |ms| - 1;
    if ms[n].id != m.id {
      assert ms == ms[..n] + [ms[n]];
      LastTypeOfMember(ms[..n], m);
    }
  }

  /** How many of n calls with the same batch, the first of them valid, are not refused. */
  ghost function Accepted(ms: seq<Metric>, n: nat): nat {
    if OneTypePerId(ms) || n == 0 then n else 1
  }

  lemma OneMoreBatch(t: Table, ms: seq<Metric>, n: nat)
    requires AllWellFormed(ms) && Validate(t, ms) == None
    ensures Perform(RepeatBatch(t, ms, Accepted(ms, n)), MemStore.Batch(ms)) == RepeatBatch(t, ms, Accepted(ms, n + 1))
  {
    if n > 0 {
      ValidAgainIff(RepeatBatch(t, ms, Accepted(ms, n) - 1), ms);
    }
  }

  lemma NextBatchCopy(t: Table, ms: seq<Metric>, n: nat)
    requires AllWellFormed(ms) && Validate(t, ms) == None && n > 0
    requires PerformAll(t, Copies(MemStore.Batch(ms), n - 1)) == RepeatBatch(t, ms, Accepted(ms, n - 1))
    ensures PerformAll(t, Copies(MemStore.Batch(ms), n)) == RepeatBatch(t, ms, Accepted(ms, n))
  {
    OneMoreBatch(t, ms, n - 1);
    OneMoreCopy(t, MemStore.Batch(ms), n, RepeatBatch(t, ms, Accepted(ms, n - 1)));
  }

  lemma {:induction false} BatchCopies(t: Table, ms: seq<Metric>, n: nat)
    requires AllWellFormed(ms) && Validate(t, ms) == None
    ensures PerformAll(t, Copies(MemStore.Batch(ms), n)) == RepeatBatch(t, ms, Accepted(ms, n))
  {
    if n > 0 {
      BatchCopies(t, ms, n - 1);
      NextBatchCopy(t, ms, n);
    }
  }

  lemma OneMoreCopy(t: Table, u: MemStore.Update, n: nat, before: Table)
    requires n > 0 && PerformAll(t, Copies(u, n - 1)) == before
    ensures PerformAll(t, Copies(u, n)) == Perform(before, u)
  {
    PerformOneMore(t, Copies(u, n - 1), u);
  }

  lemma OneMoreUpsert(t: Table, u: MemStore.Update, n: nat)
    requires !u.Batch?
    ensures Changed(t, u, n + 1) == Perform(Changed(t, u, n), u) && Changed(t, u, 0) == t
  {
  }

  lemma {:induction false} UpsertCopies(t: Table, u: MemStore.Update, n: nat)
    requires !u.Batch?
    ensures PerformAll(t, Copies(u, n)) == Changed(t, u, n)
  {
    OneMoreUpsert(t, u, 0);
    if n > 0 {
      UpsertCopies(t, u, n - 1);
      OneMoreUpsert(t, u, n - 1);
      OneMoreCopy(t, u, n, Changed(t, u, n - 1));
    }
  }

  /** Told a success, the rows of a batch may be repeated: nothing is added to IDs it gives no gauge for. */
  ghost predicate AddsNothing(ms: seq<Metric>) {
    forall id :: NoGauge(ms, id) ==> SumAll(ms, id) == 0
  }

  /** Repeating the change alone is as good as repeating the whole call. */
  ghost predicate RepeatsAsCalls(u: MemStore.Update, n: nat) {
    u.Batch? && n >= 2 ==> OneTypePerId(u.ms) || AddsNothing(u.ms)
  }

  lemma BatchRepeatsIff(t: Table, ms: seq<Metric>, n: nat)
    requires AllWellFormed(ms) && n >= 1
    ensures RepeatBatch(t, ms, n) == RepeatBatch(t, ms, 1) <==> n == 1 || AddsNothing(ms)
  {
    BatchAsToldIff(t, ms, true, n - 1);
    assert RepeatBatch(t, ms, 1) == UpsertAll(RepeatBatch(t, ms, 0), ms);
    if AddsNothing(ms) {
      assert forall id :: RowAsTold(t, ms, true, id);
    }
    if forall id :: RowAsTold(t, ms, true, id) {
      forall id
        ensures NoGauge(ms, id) ==> SumAll(ms, id) == 0
      {
        assert RowAsTold(t, ms, true, id);
      }
    }
  }

  /**
   An update that takes effect n times acts as n calls of it without faults, except a batch that its own first
   effect invalidates: only its transaction is repeated, not its validation.
   */
  lemma RepeatsAsCallsIff(t: Table, u: MemStore.Update, n: nat)
    requires WellFormedUpdate(u) && (u.Batch? ==> Validate(t, u.ms) == None)
    ensures Changed(t, u, n) == PerformAll(t, Copies(u, n)) <==> RepeatsAsCalls(u, n)
  {
    if u.Batch? {
      BatchCopies(t, u.ms, n);
      if n >= 1 {
        BatchRepeatsIff(t, u.ms, n);
      }
    } else {
      UpsertCopies(t, u, n);
    }
  }

  /** Each update as often as it took effect. */
  function Multiplied(policy: Retrying.Policy, t: Table, js: seq<Job>): seq<MemStore.Update> {
    if js == [] then []
    else
      var before, j := js[..|js| - 1], js[|js| - 1];
      Multiplied(policy, t, before) + Copies(j.u, Took(policy, Served(policy, t, before), j))
  }

  ghost predicate RunRepeatsAsCalls(policy: Retrying.Policy, t: Table, js: seq<Job>) {
    js == [] ||
    var before, j := js[..|js| - 1], js[|js| - 1];
    RunRepeatsAsCalls(policy, t, before) && RepeatsAsCalls(j.u, Took(policy, Served(policy, t, before), j))
  }

  /** Under any faults, lost answers included, a run is that of its updates, each as often as it took effect. */
  lemma {:induction false} ServedIsMultiplied(policy: Retrying.Policy, t: Table, js: seq<Job>)
    requires (forall j :: j in js ==> WellFormedUpdate(j.u)) && RunRepeatsAsCalls(policy, t, js)
    ensures Served(policy, t, js) == PerformAll(t, Multiplied(policy, t, js))
  {
    if js != [] {
      var n := |js| - 1;
      assert js[n] in js && forall j :: j in js[..n] ==> j in js;
      ServedIsMultiplied(policy, t, js[..n]);
      var before, j := Served(policy, t, js[..n]), js[n];
      PerformBoth(t, Multiplied(policy, t, js[..n]), Copies(j.u, Took(policy, before, j)));
      if Took(policy, before, j) > 0 {
        ValidatedIfRead(policy, before, j);
        RepeatsAsCallsIff(before, j.u, Took(policy, before, j));
      }
    }
  }

  lemma ValidatedIfRead(policy: Retrying.Policy, t: Table, j: Job)
    requires ReadError(policy, t, j) == None
    ensures j.u.Batch? ==> Validate(t, j.u.ms) == None
  {
    if j.u.Batch? {
      TriesIff(policy, 1, j.readFaults, Tries(policy, 1, j.readFaults));
    }
  }
}
