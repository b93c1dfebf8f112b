/**
 The whole path of a counter, as one transition system: pollers, the reporter's staging, sending and resolving,
 either executor, the server's store and its other clients, with a step at a time of each in any order.
 */
module Delivery {
  import opened Int64
  import opened Model
  import opened Accumulation
  import M = MemStore
  import R = Reporting
  import S = Service

  datatype Phase =
    | Between
    | Staging(due: set<string>, visited: set<string>, staged: seq<Metric>)
    | Executing(marray: seq<Metric>, outcome: Option<bool>)
    | Resolving(success: seq<string>, failure: seq<string>)

  /**
   `rate` 0 is the batch executor, else the worker pool. Below the line are histories: per ID the increments
   accepted from the pollers, the increments other clients got accepted, and the surplus of sends, which is what
   took effect on the server less what was acknowledged; how often the requests at hand took effect, per ID; the
   requests that have had their answer; each staging and each commit or rollback; and how often one met the wrong
   staging state.
   */
  datatype System = System(
    rate: nat,
    accs: map<string, Acc>,
    phase: Phase,
    pool: R.Pool,
    server: M.Store,
    //
    accepted: map<string, int>,
    foreign: map<string, int>,
    surplus: map<string, int>,
    effects: map<string, nat>,
    answered: seq<seq<Metric>>,
    stagings: multiset<string>,
    resolutions: multiset<string>,
    wrongStates: nat)

  /**
   A request is handled any number of times before it is answered, and copies of it may arrive late. In a pool,
   the step that sends is the one that takes in the answer.
   */
  datatype Label =
    | Create(id: string)
    | PollCounter(id: string, inc: int64)
    | PollGauge(id: string, x: real)
    | OtherClient(m: Metric)
    | BeginReport
    | StageOne(id: string)
    | EndStaging
    | HandleBatch
    | HandleAt(w: nat)
    | HandleLate(i: nat)
    | BatchAnswer(ok: bool)
    | PoolStep(step: R.Step)
    | EndExecute
    | ResolveOne
    | EndReport

  function Start(rate: nat): System {
    System(rate, map[], Between, R.NewPool(rate), map[], map[], map[], map[], map[], [], multiset{}, multiset{}, 0)
  }

  /** An entry of the books, 0 if there is none. */
  function Booked(m: map<string, int>, id: string): int {
    if id in m then m[id] else 0
  }

  function EffectsIn(effects: map<string, nat>, id: string): nat {
    if id in effects then effects[id] else 0
  }

  function Effects(s: System, id: string): nat {
    EffectsIn(s.effects, id)
  }

  function AccOf(s: System, id: string): Acc {
    if id in s.accs then s.accs[id] else NewAcc(id)
  }

  function DeltaOf(m: Metric): int64 {
    if m.mtype == Counter && m.delta.Some? then m.delta.value else 0
  }

  // ---- the server's side of a send ----

  function Refused(server: M.Store, ms: seq<Metric>): bool {
    M.Batched(server, ms).1.Some?
  }

  /** The increments of a request entered in the books, or taken out again. */
  function Book(books: map<string, int>, ms: seq<Metric>, enter: bool): map<string, int> {
    if ms == [] then books
    else
      var m, rest := ms[|ms| - 1], Book(books, ms[..|ms| - 1], enter);
      rest[m.id := Booked(rest, m.id) + if enter then DeltaOf(m) else -(DeltaOf(m) as int)]
  }

  function Counted(effects: map<string, nat>, ms: seq<Metric>): map<string, nat> {
    if ms == [] then effects
    else
      var m, rest := ms[|ms| - 1], Counted(effects, ms[..|ms| - 1]);
      rest[m.id := 1 + EffectsIn(rest, m.id)]
  }

  /** The server handles a request; a refused one has no effect. */
  function Handling(s: System, ms: seq<Metric>): System {
    if Refused(s.server, ms) then s
    else s.(server := M.Batched(s.server, ms).0, surplus := Book(s.surplus, ms, true))
  }

  /** The agent takes in an answer. A nil error means that some handling took effect. */
  function Answered(s: System, ms: seq<Metric>, ok: bool): System {
    s.(surplus := if ok then Book(s.surplus, ms, false) else s.surplus, answered := s.answered + [ms])
  }

  predicate Answerable(s: System, ms: seq<Metric>, ok: bool) {
    ok ==> forall m :: m in ms ==> Effects(s, m.id) >= 1
  }

  // ---- steps ----

  predicate Enabled(s: System, l: Label) {
    match l
    case Create(_) => true
    case PollCounter(id, _) => id in s.accs
    case PollGauge(id, _) => id in s.accs
    case OtherClient(_) => true
    case BeginReport => s.phase.Between?
    case StageOne(id) => s.phase.Staging? && id in s.accs && id !in s.phase.visited
    case EndStaging =>
      s.phase.Staging? && s.phase.due <= s.phase.visited
      && (s.rate > 0 ==> R.Enabled(s.pool, R.Begin(s.phase.staged)))
    case HandleBatch => s.rate == 0 && s.phase.Executing? && s.phase.outcome == None
    case HandleAt(w) => s.rate > 0 && s.phase.Executing? && w < |s.pool.workers| && s.pool.workers[w].Holding?
    case HandleLate(i) => i < |s.answered|
    case BatchAnswer(ok) =>
      s.rate == 0 && s.phase.Executing? && s.phase.outcome == None && Answerable(s, s.phase.marray, ok)
    case PoolStep(step) =>
      s.rate > 0 && s.phase.Executing? && R.Internal(step) && R.Enabled(s.pool, step)
      && (step.Send? ==> Answerable(s, [s.pool.workers[step.w].m], step.ok))
    case EndExecute =>
      s.phase.Executing? && if s.rate == 0 then s.phase.outcome.Some? else R.Enabled(s.pool, R.Return)
    case ResolveOne => s.phase.Resolving? && s.phase.success + s.phase.failure != []
    case EndReport => s.phase == Resolving([], [])
  }

  function Next(s: System, l: Label): System
    requires Enabled(s, l)
  {
    match l
    case Create(id) =>
      s.(accs := s.accs[id := AccOf(s, id)])
    case PollCounter(id, inc) =>
      var (a, err) := WithCounter(AccOf(s, id), inc);
      s.(accs := s.accs[id := a],
         accepted := if err == None then s.accepted[id := Booked(s.accepted, id) + inc] else s.accepted)
    case PollGauge(id, x) =>
      s.(accs := s.accs[id := WithGauge(AccOf(s, id), x).0])
    case OtherClient(m) =>
      var (server, err) := S.Accumulate(s.server, m);
      s.(server := server,
         foreign := if err == None then s.foreign[m.id := Booked(s.foreign, m.id) + DeltaOf(m)] else s.foreign)
    case BeginReport =>
      s.(phase := Staging(s.accs.Keys, {}, []))
    case StageOne(id) =>
      var a := s.accs[id];
      var marray := if !a.isStaged && Stage(a).isStaged then s.phase.staged + [MetricOf(Stage(a))] else s.phase.staged;
      s.(accs := s.accs[id := Stage(a)],
         phase := s.phase.(visited := s.phase.visited + {id}, staged := marray),
         stagings := if |marray| > |s.phase.staged| then s.stagings + multiset{id} else s.stagings,
         wrongStates := if StageError(a) == Some(WrongStagingState) then s.wrongStates + 1 else s.wrongStates)
    case EndStaging =>
      s.(phase := Executing(s.phase.staged, None), effects := map[],
         pool := if s.rate > 0 then R.Next(s.pool, R.Begin(s.phase.staged)) else s.pool)
    case HandleBatch =>
      Handling(s, s.phase.marray).(effects := if Refused(s.server, s.phase.marray) then s.effects
                                             else Counted(s.effects, s.phase.marray))
    case HandleAt(w) =>
      var ms := [s.pool.workers[w].m];
      Handling(s, ms).(effects := if Refused(s.server, ms) then s.effects else Counted(s.effects, ms))
    case HandleLate(i) => Handling(s, s.answered[i])
    case BatchAnswer(ok) =>
      Answered(s, s.phase.marray, ok).(phase := s.phase.(outcome := Some(ok)))
    case PoolStep(step) =>
      (if step.Send? then Answered(s, [s.pool.workers[step.w].m], step.ok) else s).(pool := R.Next(s.pool, step))
    case EndExecute =>
      if s.rate == 0 then
        var ids := R.Ids(s.phase.marray);
        s.(phase := if s.phase.outcome == Some(true) then Resolving(ids, []) else Resolving([], ids))
      else
        s.(phase := Resolving(R.IdsWith(s.pool.collected, true), R.IdsWith(s.pool.collected, false)),
           pool := R.Next(s.pool, R.Return))
    case ResolveOne =>
      if s.phase.success != [] then
        var id := s.phase.success[0];
        var (a, err) := Commit(AccOf(s, id));
        s.(accs := s.accs[id := a], phase := s.phase.(success := s.phase.success[1..]),
           resolutions := s.resolutions + multiset{id},
           wrongStates := if err.Some? then s.wrongStates + 1 else s.wrongStates)
      else
        var id := s.phase.failure[0];
        s.(accs := s.accs[id := Rollback(AccOf(s, id))], phase := s.phase.(failure := s.phase.failure[1..]),
           resolutions := if AccOf(s, id).isStaged then s.resolutions + multiset{id} else s.resolutions)
    case EndReport =>
      s.(phase := Between)
  }

  /** StagedMetric made total. */
  function MetricOf(a: Acc): Metric {
    if a.mtype == Gauge && a.stagedValues == [] then Metric(a.id, a.mtype, None, None) else StagedMetric(a)
  }

  // ---- the invariant ----

  function IdSet(ms: seq<Metric>): set<string> {
    set m | m in ms :: m.id
  }

  function Members(ids: seq<string>): set<string> {
    set id | id in ids
  }

  function InFlight(s: System): set<string> {
    match s.phase
    case Between => {}
    case Staging(_, _, staged) => IdSet(staged)
    case Executing(marray, _) => IdSet(marray)
    case Resolving(success, failure) => Members(success) + Members(failure)
  }

  function Marray(s: System): seq<Metric> {
    match s.phase
    case Staging(_, _, staged) => staged
    case Executing(marray, _) => marray
    case _ => []
  }

  /** The server holds what is staged for `id`. */
  ghost predicate Delivered(s: System, id: string) {
    match s.phase
    case Executing(marray, outcome) =>
      if s.rate == 0 then outcome == Some(true) && id in IdSet(marray)
      else R.Sent(id, true) in R.Outcomes(s.pool)
    case Resolving(success, _) => id in success
    case _ => false
  }

  ghost predicate AccsOk(s: System) {
    && (forall id :: id in s.accs ==> Sound(s.accs[id]) && s.accs[id].id == id)
    && (forall id :: id in s.accs ==> (s.accs[id].isStaged <==> id in InFlight(s)))
    && InFlight(s) <= s.accs.Keys
  }

  ghost predicate MarrayOk(s: System) {
    && S.DistinctIds(Marray(s))
    && (forall m :: m in Marray(s) ==> WellFormed(m) && m.id in s.accs && m == MetricOf(s.accs[m.id]))
    && (s.phase.Staging? ==> IdSet(s.phase.staged) <= s.phase.visited && s.phase.due <= s.accs.Keys)
    && (s.phase.Resolving? ==> R.Distinct(s.phase.success + s.phase.failure))
  }

  /** Each staged metric is unsent once and without an outcome, or it is sent. */
  ghost predicate UnsentOnce(p: R.Pool, marray: seq<Metric>) {
    && (forall m :: m in R.Unsent(p) ==> m in marray && R.Unsent(p)[m] == 1)
    && (forall m, ok :: m in R.Unsent(p) ==> R.Sent(m.id, ok) !in R.Outcomes(p))
  }

  ghost predicate PoolOk(s: System) {
    s.rate > 0 ==>
      && R.Inv(s.pool) && s.pool.rate == s.rate && !s.pool.closed
      && (s.pool.running <==> s.phase.Executing?)
      && (s.phase.Executing? ==>
            s.pool.ms == s.phase.marray && UnsentOnce(s.pool, s.phase.marray))
  }

  ghost predicate LogsOk(s: System) {
    s.wrongStates == 0 && s.stagings == s.resolutions + multiset(InFlight(s))
  }

  /** What is acknowledged took effect, and what may still arrive late could be sent once. */
  ghost predicate AnswersOk(s: System) {
    && (s.phase.Executing? ==> forall id :: Delivered(s, id) ==> Effects(s, id) >= 1)
    && forall ms :: ms in s.answered ==> Sendable(ms)
  }

  function Count(server: M.Store, id: string): int64 {
    if id in server then DeltaOf(server[id]) else 0
  }

  /** What the server, the pending delta and the staged amount not yet delivered hold for an ID. */
  ghost function Balance(s: System, id: string): int {
    Count(s.server, id) + Amount(AccOf(s, id).delta) + if Delivered(s, id) then 0 else AccOf(s, id).stagedDelta
  }

  ghost function Income(s: System, id: string): int {
    Booked(s.accepted, id) + Booked(s.foreign, id) + Booked(s.surplus, id)
  }

  ghost predicate Conserved(s: System) {
    forall id :: Congruent(Income(s, id), Balance(s, id))
  }

  ghost predicate Consistent(s: System) {
    AccsOk(s) && MarrayOk(s) && PoolOk(s) && LogsOk(s) && AnswersOk(s) && M.Sound(s.server)
  }

  // ---- what a handled request adds up to ----

  /** The counter increment a batch holds for an ID. */
  function DeltaIn(ms: seq<Metric>, id: string): int {
    if ms == [] then 0
    else DeltaIn(ms[..|ms| - 1], id) + if ms[|ms| - 1].id == id then DeltaOf(ms[|ms| - 1]) else 0
  }

  ghost predicate Sendable(ms: seq<Metric>) {
    S.DistinctIds(ms) && forall m :: m in ms ==> WellFormed(m)
  }

  lemma CountAfterOne(s: M.Store, m: Metric, id: string)
    requires M.Sound(s) && WellFormed(m) && !M.Clashes(s, m)
    ensures Count(M.ApplyOne(s, m), id) == Wrap(Count(s, id) + if m.id == id then DeltaOf(m) else 0)
  {
    WrapIdempotent(Count(s, id));
    WrapIdempotent(DeltaOf(m));
  }

  lemma NoClashBefore(s: M.Store, ms: seq<Metric>, n: nat)
    requires M.Sound(s) && Sendable(ms) && n < |ms| && !M.Clashes(s, ms[n])
    ensures M.Sound(M.ApplyAll(s, ms[..n])) && WellFormed(ms[n]) && !M.Clashes(M.ApplyAll(s, ms[..n]), ms[n])
  {
    M.ApplyAllKeeps(s, ms[..n]);
    S.EntryAfter(s, ms[..n], ms[n].id);
    assert S.Entry(M.ApplyAll(s, ms[..n]), ms[n].id) == S.Entry(s, ms[n].id);
    assert ms[n] in ms;
  }

  lemma AddedInTurn(count: int, d: int, last: int)
    ensures Wrap(Wrap(count + d) + last) == Wrap(count + (d + last))
  {
    WrapAdd(count + d, last);
  }

  lemma PrefixSendable(s: M.Store, ms: seq<Metric>, n: nat)
    requires Sendable(ms) && n <= |ms| && forall m :: m in ms ==> !M.Clashes(s, m)
    ensures Sendable(ms[..n]) && forall m :: m in ms[..n] ==> !M.Clashes(s, m)
  {
    assert forall m :: m in ms[..n] ==> m in ms;
  }

  lemma CountAfterLast(s: M.Store, ms: seq<Metric>, n: nat, id: string, count: int)
    requires M.Sound(s) && Sendable(ms) && |ms| == n + 1 && !M.Clashes(s, ms[n])
    requires Count(M.ApplyAll(s, ms[..n]), id) == Wrap(count + DeltaIn(ms[..n], id))
    ensures Count(M.ApplyAll(s, ms), id) == Wrap(count + DeltaIn(ms, id))
  {
    NoClashBefore(s, ms, n);
    CountAfterOne(M.ApplyAll(s, ms[..n]), ms[n], id);
    AddedInTurn(count, DeltaIn(ms[..n], id), if ms[n].id == id then DeltaOf(ms[n]) else 0);
  }

  lemma {:induction false} CountAfterAll(s: M.Store, ms: seq<Metric>, id: string)
    requires M.Sound(s) && Sendable(ms) && forall m :: m in ms ==> !M.Clashes(s, m)
    ensures Count(M.ApplyAll(s, ms), id) == Wrap(Count(s, id) + DeltaIn(ms, id))
  {
    if ms == [] {
      WrapIdempotent(Count(s, id));
    } else {
      var n := |ms| - 1;
      PrefixSendable(s, ms, n);
      CountAfterAll(s, ms[..n], id);
      CountAfterLast(s, ms, n, id, Count(s, id));
    }
  }

  lemma {:induction false} TypesKept(s: M.Store, ms: seq<Metric>, m: Metric)
    requires M.Sound(s) && Sendable(ms) && m in ms && !M.Clashes(s, m)
    ensures !M.Clashes(M.ApplyAll(s, ms), m)
  {
    var i :| 0 <= i < |ms| && ms[i] == m;
    S.EntryAfter(s, ms, m.id);
    assert S.Entry(M.ApplyAll(s, ms), m.id) == S.Entry(M.ApplyOne(s, m), m.id);
  }

  lemma HandledOnce(t: M.Store, ms: seq<Metric>, id: string)
    requires M.Sound(t) && Sendable(ms) && !Refused(t, ms)
    ensures var t' := M.Batched(t, ms).0;
            && M.Sound(t') && !Refused(t', ms) && Count(t', id) == Wrap(Count(t, id) + DeltaIn(ms, id))
  {
    assert forall m :: m in ms ==> !M.Clashes(t, m);
    CountAfterAll(t, ms, id);
    M.ApplyAllKeeps(t, ms);
    forall m | m in ms
      ensures !M.Clashes(M.ApplyAll(t, ms), m)
    {
      TypesKept(t, ms, m);
    }
  }

  /** A request handled n times, as when answers are lost and it is made again. */
  function Handled(server: M.Store, ms: seq<Metric>, n: nat): M.Store {
    if n == 0 then server else M.Batched(Handled(server, ms, n - 1), ms).0
  }

  /** Handling a request n times adds its increments n times, or never if it is refused. */
  lemma {:induction false} HandledEffect(s: M.Store, ms: seq<Metric>, n: nat, id: string)
    requires M.Sound(s) && Sendable(ms)
    ensures M.Sound(Handled(s, ms, n)) && Refused(Handled(s, ms, n), ms) == Refused(s, ms)
    ensures Count(Handled(s, ms, n), id) == Wrap(Count(s, id) + Times(if Refused(s, ms) then 0 else n, DeltaIn(ms, id)))
  {
    var d := DeltaIn(ms, id);
    WrapIdempotent(Count(s, id));
    if n > 0 {
      HandledEffect(s, ms, n - 1, id);
      if !Refused(s, ms) {
        HandledOnce(Handled(s, ms, n - 1), ms, id);
        AddedInTurn(Count(s, id), Times(n - 1, d), d);
      }
    }
  }

  lemma {:induction false} BookAt(books: map<string, int>, ms: seq<Metric>, enter: bool, id: string)
    ensures Booked(Book(books, ms, enter), id)
            == Booked(books, id) + if enter then DeltaIn(ms, id) else -DeltaIn(ms, id)
  {
    if ms != [] {
      BookAt(books, ms[..|ms| - 1], enter, id);
    }
  }

  lemma {:induction false} CountedAt(effects: map<string, nat>, ms: seq<Metric>, id: string)
    requires S.DistinctIds(ms)
    ensures EffectsIn(Counted(effects, ms), id) == EffectsIn(effects, id) + if id in IdSet(ms) then 1 else 0
  {
    if ms != [] {
      var n := |ms| - 1;
      assert ms == ms[..n] + [ms[n]];
      CountedAt(effects, ms[..n], id);
      assert id in IdSet(ms) <==> id in IdSet(ms[..n]) || id == ms[n].id;
      assert ms[n].id !in IdSet(ms[..n]);
    }
  }

  lemma {:induction false} DeltaOfMember(ms: seq<Metric>, id: string)
    requires S.DistinctIds(ms)
    ensures forall m :: m in ms && m.id == id ==> DeltaIn(ms, id) == DeltaOf(m)
    ensures id !in IdSet(ms) ==> DeltaIn(ms, id) == 0
  {
    if ms != [] {
      var n := |ms| - 1;
      DeltaOfMember(ms[..n], id);
      assert ms == ms[..n] + [ms[n]];
      if ms[n].id == id {
        forall m | m in ms[..n]
          ensures m.id != id
        {
        }
      } else {
        assert id in IdSet(ms[..n]) ==> id in IdSet(ms);
      }
    }
  }

  /**
   How a step may move the two sides of the books for one ID: an int64 part c takes up f, and g is moved on
   both sides.
   */
  ghost predicate Moves(s: System, s': System, id: string, c: int, f: int, g: int) {
    && Income(s', id) == Income(s, id) + f + g
    && Balance(s', id) == Wrap(c + f) + (Balance(s, id) - c) + g
  }

  lemma StillConserved(s: System, s': System, id: string, c: int, f: int, g: int)
    requires Congruent(Income(s, id), Balance(s, id)) && Moves(s, s', id, c, f, g)
    ensures Congruent(Income(s', id), Balance(s', id))
  {
    var rest := Balance(s, id) - c + g;
    CongruentAdd(Income(s, id), Balance(s, id), f + g);
    WrapAdd(c + f, rest);
    assert Balance(s, id) + (f + g) == c + f + rest;
  }

  // ---- every step keeps the states consistent ----

  lemma AnswersOkDepends(s: System, s': System)
    requires AnswersOk(s) && s'.rate == s.rate && s'.phase == s.phase && s'.pool == s.pool && s'.answered == s.answered
    requires forall id :: Effects(s', id) >= Effects(s, id)
    ensures AnswersOk(s')
  {
    assert forall id :: Delivered(s', id) == Delivered(s, id);
  }

  lemma PoolOkDepends(s: System, s': System)
    requires PoolOk(s) && s'.rate == s.rate && s'.pool == s.pool && s'.phase == s.phase
    ensures PoolOk(s')
  {
  }

  /** Accumulating changes neither what is staged nor its metric. */
  lemma AccumulatedConsistent(s: System, s': System, id: string, a: Acc)
    requires Consistent(s) && s' == s.(accs := s.accs[id := a], accepted := s'.accepted)
    requires Sound(a) && a.id == id && a.isStaged == AccOf(s, id).isStaged
    requires a.isStaged ==> MetricOf(a) == MetricOf(AccOf(s, id))
    ensures Consistent(s')
  {
    AnswersOkDepends(s, s');
    PoolOkDepends(s, s');
    assert InFlight(s') == InFlight(s) && Marray(s') == Marray(s);
    forall m | m in Marray(s)
      ensures m == MetricOf(s'.accs[m.id])
    {
      assert m.id in InFlight(s);
    }
  }

  lemma AccumulatedParts(a: Acc, op: Op)
    requires Sound(a) && (op.IncCounter? || op.AddGauge?)
    ensures var b := Apply(a, op);
            && Sound(b) && b.id == a.id && b.isStaged == a.isStaged && b.stagedDelta == a.stagedDelta
            && (a.isStaged ==> MetricOf(b) == MetricOf(a))
            && (op.AddGauge? ==> b.delta == a.delta)
            && (op.IncCounter? ==>
                  b.delta == if WithCounter(a, op.inc).1 == None then AddTo(a.delta, op.inc) else a.delta)
  {
  }

  lemma CreateConsistent(s: System, id: string)
    requires Consistent(s)
    ensures Consistent(Next(s, Create(id)))
  {
    AccumulatedConsistent(s, Next(s, Create(id)), id, AccOf(s, id));
  }

  lemma CreateMoves(s: System, id: string, k: string)
    requires Sound(AccOf(s, id))
    ensures Moves(s, Next(s, Create(id)), k, 0, 0, 0)
  {
    var s' := Next(s, Create(id));
    assert Delivered(s', k) == Delivered(s, k) && Count(s'.server, k) == Count(s.server, k);
    assert AccOf(s', k) == AccOf(s, k);
  }

  lemma PollCounterConsistent(s: System, id: string, inc: int64)
    requires Consistent(s) && id in s.accs
    ensures Consistent(Next(s, PollCounter(id, inc)))
  {
    AccumulatedParts(AccOf(s, id), IncCounter(inc));
    AccumulatedConsistent(s, Next(s, PollCounter(id, inc)), id, Apply(AccOf(s, id), IncCounter(inc)));
  }

  lemma PollGaugeConsistent(s: System, id: string, x: real)
    requires Consistent(s) && id in s.accs
    ensures Consistent(Next(s, PollGauge(id, x)))
  {
    AccumulatedParts(AccOf(s, id), AddGauge(x));
    AccumulatedConsistent(s, Next(s, PollGauge(id, x)), id, Apply(AccOf(s, id), AddGauge(x)));
  }

  lemma AddToAmount(delta: Option<int64>, d: int64)
    ensures Amount(AddTo(delta, d)) == Wrap(Amount(delta) + d)
  {
    WrapIdempotent(d);
  }

  lemma CounterParts(a: Acc, inc: int64)
    requires Sound(a)
    ensures var (b, err) := WithCounter(a, inc);
            && b.stagedDelta == a.stagedDelta
            && Amount(b.delta) == if err == None then Wrap(Amount(a.delta) + inc) else Amount(a.delta)
  {
    AccumulatedParts(a, IncCounter(inc));
    AddToAmount(a.delta, inc);
  }

  /** The books of an ID when only its pending delta changes. */
  lemma PendingMoves(s: System, s': System, k: string, d: int64) returns (c: int, f: int)
    requires s'.server == s.server && s'.foreign == s.foreign && s'.surplus == s.surplus
    requires Delivered(s', k) == Delivered(s, k) && AccOf(s', k).stagedDelta == AccOf(s, k).stagedDelta
    requires Amount(AccOf(s', k).delta) == Wrap(Amount(AccOf(s, k).delta) + d)
    requires Booked(s'.accepted, k) == Booked(s.accepted, k) + d
    ensures Moves(s, s', k, c, f, 0)
  {
    c, f := Amount(AccOf(s, k).delta), d;
  }

  lemma PollCounterMoves(s: System, id: string, inc: int64, k: string) returns (c: int, f: int)
    requires id in s.accs && Sound(s.accs[id])
    ensures Moves(s, Next(s, PollCounter(id, inc)), k, c, f, 0)
  {
    CounterParts(AccOf(s, id), inc);
    WrapIdempotent(Amount(AccOf(s, k).delta));
    var accepted := WithCounter(AccOf(s, id), inc).1 == None;
    c, f := PendingMoves(s, Next(s, PollCounter(id, inc)), k, if k == id && accepted then inc else 0);
  }

  lemma PollGaugeMoves(s: System, id: string, x: real, k: string)
    requires id in s.accs && Sound(s.accs[id])
    ensures Moves(s, Next(s, PollGauge(id, x)), k, 0, 0, 0)
  {
    var s' := Next(s, PollGauge(id, x));
    assert Delivered(s', k) == Delivered(s, k) && Count(s'.server, k) == Count(s.server, k);
    assert AccOf(s', k) == if k == id then Apply(AccOf(s, id), AddGauge(x)) else AccOf(s, k);
    AccumulatedParts(AccOf(s, id), AddGauge(x));
  }

  lemma AgentOkDepends(s: System, s': System)
    requires AccsOk(s) && MarrayOk(s) && LogsOk(s) && s'.accs == s.accs && s'.phase == s.phase
    requires s'.stagings == s.stagings && s'.resolutions == s.resolutions && s'.wrongStates == s.wrongStates
    ensures AccsOk(s') && MarrayOk(s') && LogsOk(s')
  {
    assert InFlight(s') == InFlight(s) && Marray(s') == Marray(s);
  }

  lemma OtherClientConsistent(s: System, m: Metric)
    requires Consistent(s)
    ensures Consistent(Next(s, OtherClient(m)))
  {
    var s' := Next(s, OtherClient(m));
    ServedSound(s.server, m);
    AnswersOkDepends(s, s');
    PoolOkDepends(s, s');
    AgentOkDepends(s, s');
  }

  lemma ServedSound(server: M.Store, m: Metric)
    requires M.Sound(server)
    ensures M.Sound(S.Accumulate(server, m).0)
  {
  }

  lemma AcceptedUpdate(server: M.Store, m: Metric, id: string)
    requires M.Sound(server)
    ensures Count(S.Accumulate(server, m).0, id)
            == if id == m.id && S.Accumulate(server, m).1 == None then Wrap(Count(server, id) + DeltaOf(m))
               else Count(server, id)
  {
    WrapIdempotent(Count(server, id));
    WrapIdempotent(DeltaOf(m));
  }

  lemma OtherClientMoves(s: System, m: Metric, k: string) returns (c: int, f: int)
    requires M.Sound(s.server)
    ensures Moves(s, Next(s, OtherClient(m)), k, c, f, 0)
  {
    var s' := Next(s, OtherClient(m));
    AcceptedUpdate(s.server, m, k);
    WrapIdempotent(Count(s.server, k));
    var taken := k == m.id && S.Accumulate(s.server, m).1 == None;
    c, f := CountMoves(s, s', k, if taken then DeltaOf(m) else 0);
  }

  /** The books of an ID when only the server's count changes, by what another client got accepted. */
  lemma CountMoves(s: System, s': System, k: string, d: int64) returns (c: int, f: int)
    requires s'.accs == s.accs && s'.accepted == s.accepted && s'.surplus == s.surplus
    requires Delivered(s', k) == Delivered(s, k)
    requires Count(s'.server, k) == Wrap(Count(s.server, k) + d) && Booked(s'.foreign, k) == Booked(s.foreign, k) + d
    ensures Moves(s, s', k, c, f, 0)
  {
    c, f := Count(s.server, k), d;
  }

  lemma BeginReportKeeps(s: System, k: string)
    requires Consistent(s) && Enabled(s, BeginReport)
    ensures Consistent(Next(s, BeginReport)) && Moves(s, Next(s, BeginReport), k, 0, 0, 0)
  {
    assert InFlight(Next(s, BeginReport)) == {};
  }

  lemma EndReportKeeps(s: System, k: string)
    requires Consistent(s) && Enabled(s, EndReport)
    ensures Consistent(Next(s, EndReport)) && Moves(s, Next(s, EndReport), k, 0, 0, 0)
  {
    assert InFlight(Next(s, EndReport)) == InFlight(s);
  }

  lemma StagedParts(a: Acc)
    requires Sound(a) && !a.isStaged
    ensures var b := Stage(a);
            && Sound(b) && b.id == a.id && StageError(a) != Some(WrongStagingState)
            && Amount(b.delta) + b.stagedDelta == Amount(a.delta) && a.stagedDelta == 0
            && (b.isStaged ==> WellFormed(MetricOf(b)) && MetricOf(b).id == a.id)
            && (!b.isStaged ==> b == a)
  {
  }

  /** One accumulator has joined the ones in flight. */
  lemma JoinedConsistent(s: System, s': System, id: string, b: Acc)
    requires Consistent(s) && s.phase.Staging? && id in s.accs && id !in InFlight(s)
    requires Sound(b) && b.id == id && b.isStaged && WellFormed(MetricOf(b)) && MetricOf(b).id == id
    requires s' == s.(accs := s.accs[id := b], phase := s'.phase, stagings := s.stagings + multiset{id})
    requires s'.phase == s.phase.(visited := s.phase.visited + {id}, staged := s.phase.staged + [MetricOf(b)])
    ensures Consistent(s')
  {
    JoinedMarray(s, s', id, b);
    assert InFlight(s') == InFlight(s) + {id};
    assert multiset(InFlight(s')) == multiset(InFlight(s)) + multiset{id};
    assert AccsOk(s') && LogsOk(s') && PoolOk(s');
  }

  lemma JoinedMarray(s: System, s': System, id: string, b: Acc)
    requires MarrayOk(s) && s.phase.Staging? && id !in IdSet(s.phase.staged)
    requires WellFormed(MetricOf(b)) && MetricOf(b).id == id && s'.accs == s.accs[id := b]
    requires s'.phase == s.phase.(visited := s.phase.visited + {id}, staged := s.phase.staged + [MetricOf(b)])
    ensures MarrayOk(s')
  {
    forall n | n in s.phase.staged
      ensures n.id != id
    {
      assert n.id in IdSet(s.phase.staged);
    }
  }

  lemma StageOneConsistent(s: System, id: string)
    requires Consistent(s) && Enabled(s, StageOne(id))
    ensures Consistent(Next(s, StageOne(id)))
  {
    var s' := Next(s, StageOne(id));
    var a := s.accs[id];
    assert id !in InFlight(s);
    StagedParts(a);
    if Stage(a).isStaged {
      JoinedConsistent(s, s', id, Stage(a));
    } else {
      assert s' == s.(phase := s.phase.(visited := s.phase.visited + {id})) by {
        assert s.accs[id := a] == s.accs;
      }
      assert InFlight(s') == InFlight(s) && Marray(s') == Marray(s);
    }
  }

  lemma StageOneMoves(s: System, id: string, k: string)
    requires Enabled(s, StageOne(id)) && Sound(s.accs[id]) && !s.accs[id].isStaged
    ensures Moves(s, Next(s, StageOne(id)), k, 0, 0, 0)
  {
    var s' := Next(s, StageOne(id));
    StagedParts(s.accs[id]);
    assert AccOf(s', k) == if k == id then Stage(s.accs[id]) else AccOf(s, k);
  }

  lemma EndStagingPoolOk(s: System)
    requires MarrayOk(s) && PoolOk(s) && Enabled(s, EndStaging)
    ensures PoolOk(Next(s, EndStaging))
  {
    if s.rate > 0 {
      var ms := s.phase.staged;
      R.StepKeepsInv(s.pool, R.Begin(ms));
      R.BeginEffect(s.pool, ms);
      forall m | m in multiset(ms)
        ensures m in ms && multiset(ms)[m] == 1
      {
        M.Once(ms, m);
      }
    }
  }

  lemma EndStagingConsistent(s: System)
    requires Consistent(s) && Enabled(s, EndStaging)
    ensures Consistent(Next(s, EndStaging))
  {
    var s' := Next(s, EndStaging);
    assert InFlight(s') == InFlight(s) && Marray(s') == Marray(s);
    EndStagingPoolOk(s);
    NothingDelivered(s);
  }

  lemma NothingDelivered(s: System)
    requires PoolOk(s) && Enabled(s, EndStaging)
    ensures forall id :: !Delivered(Next(s, EndStaging), id)
  {
    if s.rate > 0 {
      R.BeginEffect(s.pool, s.phase.staged);
    }
  }

  lemma EndStagingMoves(s: System, k: string)
    requires Consistent(s) && Enabled(s, EndStaging)
    ensures Moves(s, Next(s, EndStaging), k, 0, 0, 0)
  {
    if s.rate > 0 {
      R.BeginEffect(s.pool, s.phase.staged);
    }
    assert !Delivered(Next(s, EndStaging), k);
  }

  /** A staged metric's increment is the staged amount. */
  lemma MetricDelta(a: Acc)
    requires Sound(a) && a.isStaged
    ensures DeltaOf(MetricOf(a)) == a.stagedDelta
  {
  }

  lemma HandlingCounts(s: System, ms: seq<Metric>, k: string) returns (c: int, f: int)
    requires M.Sound(s.server) && Sendable(ms)
    ensures Booked(Handling(s, ms).surplus, k) == Booked(s.surplus, k) + f
    ensures Count(Handling(s, ms).server, k) == Wrap(c + f) + (Count(s.server, k) - c)
  {
    if Refused(s.server, ms) {
      c, f := 0, 0;
    } else {
      HandledOnce(s.server, ms, k);
      BookAt(s.surplus, ms, true, k);
      c, f := Count(s.server, k), DeltaIn(ms, k);
    }
  }

  lemma ServerMoves(s: System, s': System, k: string, c: int, f: int)
    requires s' == s.(server := s'.server, surplus := s'.surplus, effects := s'.effects)
    requires Booked(s'.surplus, k) == Booked(s.surplus, k) + f
    requires Count(s'.server, k) == Wrap(c + f) + (Count(s.server, k) - c)
    ensures Moves(s, s', k, c, f, 0)
  {
    assert Delivered(s', k) == Delivered(s, k);
    assert AccOf(s', k) == AccOf(s, k);
  }

  /** The books across a handling: what takes effect is on the server and in the surplus. */
  lemma HandlingMoves(s: System, s': System, ms: seq<Metric>, k: string) returns (c: int, f: int)
    requires M.Sound(s.server) && Sendable(ms)
    requires s' == Handling(s, ms).(effects := s'.effects)
    ensures Moves(s, s', k, c, f, 0)
  {
    c, f := HandlingCounts(s, ms, k);
    ServerMoves(s, s', k, c, f);
  }

  /** The books across an answer: what is acknowledged is neither surplus nor undelivered any more. */
  lemma AnswerMoves(s: System, s': System, ms: seq<Metric>, ok: bool, k: string) returns (g: int)
    requires Sendable(ms)
    requires s'.server == s.server && s'.surplus == Answered(s, ms, ok).surplus
    requires s'.accs == s.accs && s'.accepted == s.accepted && s'.foreign == s.foreign
    requires if k in IdSet(ms)
               then !Delivered(s, k) && Delivered(s', k) == ok && AccOf(s, k).stagedDelta == DeltaIn(ms, k)
             else Delivered(s', k) == Delivered(s, k)
    ensures Moves(s, s', k, 0, 0, g)
  {
    DeltaOfMember(ms, k);
    BookAt(s.surplus, ms, false, k);
    g := if ok then -DeltaIn(ms, k) else 0;
  }

  lemma HandlingConsistent(s: System, s': System, ms: seq<Metric>)
    requires Consistent(s) && Sendable(ms) && s' == Handling(s, ms).(effects := s'.effects)
    requires forall id :: Effects(s', id) >= Effects(s, id)
    ensures Consistent(s')
  {
    if !Refused(s.server, ms) {
      HandledOnce(s.server, ms, "");
    }
    PoolOkDepends(s, s');
    AnswersOkDepends(s, s');
    assert InFlight(s') == InFlight(s) && Marray(s') == Marray(s);
  }

  lemma MarraySendable(s: System)
    requires MarrayOk(s)
    ensures Sendable(Marray(s))
  {
  }

  lemma EffectsGrow(effects: map<string, nat>, ms: seq<Metric>)
    requires S.DistinctIds(ms)
    ensures forall id :: EffectsIn(Counted(effects, ms), id) >= EffectsIn(effects, id)
  {
    forall id
      ensures EffectsIn(Counted(effects, ms), id) >= EffectsIn(effects, id)
    {
      CountedAt(effects, ms, id);
    }
  }

  lemma HandleConsistent(s: System, l: Label, ms: seq<Metric>)
    requires Consistent(s) && Enabled(s, l) && Sendable(ms)
    requires l.HandleBatch? || l.HandleAt? || l.HandleLate?
    requires ms == Request(s, l)
    ensures Consistent(Next(s, l))
  {
    EffectsGrow(s.effects, ms);
    HandlingConsistent(s, Next(s, l), ms);
  }

  /** The request a step handles. */
  function Request(s: System, l: Label): seq<Metric>
    requires Enabled(s, l) && (l.HandleBatch? || l.HandleAt? || l.HandleLate?)
  {
    match l
    case HandleBatch => s.phase.marray
    case HandleAt(w) => [s.pool.workers[w].m]
    case HandleLate(i) => s.answered[i]
  }

  lemma RequestSendable(s: System, l: Label)
    requires Consistent(s) && Enabled(s, l) && (l.HandleBatch? || l.HandleAt? || l.HandleLate?)
    ensures Sendable(Request(s, l))
  {
    match l
    case HandleBatch => MarraySendable(s);
    case HandleAt(w) => R.HeldIsUnsent(s.pool, w);
    case HandleLate(i) => assert s.answered[i] in s.answered;
  }

  lemma BatchAnswerConsistent(s: System, ok: bool)
    requires Consistent(s) && Enabled(s, BatchAnswer(ok))
    ensures Consistent(Next(s, BatchAnswer(ok)))
  {
    var s' := Next(s, BatchAnswer(ok));
    assert InFlight(s') == InFlight(s) && Marray(s') == Marray(s);
    MarraySendable(s);
    assert AccsOk(s') && MarrayOk(s') && PoolOk(s') && LogsOk(s');
    forall id | Delivered(s', id)
      ensures Effects(s', id) >= 1
    {
      var m :| m in s.phase.marray && m.id == id;
    }
  }

  lemma StagedIsSent(s: System, k: string)
    requires AccsOk(s) && MarrayOk(s) && s.phase.Executing?
    ensures k in IdSet(s.phase.marray) ==> AccOf(s, k).stagedDelta == DeltaIn(s.phase.marray, k)
  {
    DeltaOfMember(s.phase.marray, k);
    if k in IdSet(s.phase.marray) {
      MetricDelta(s.accs[k]);
    }
  }

  lemma BatchAnswerMoves(s: System, ok: bool, k: string) returns (g: int)
    requires Consistent(s) && Enabled(s, BatchAnswer(ok))
    ensures Moves(s, Next(s, BatchAnswer(ok)), k, 0, 0, g)
  {
    MarraySendable(s);
    StagedIsSent(s, k);
    g := AnswerMoves(s, Next(s, BatchAnswer(ok)), s.phase.marray, ok, k);
  }

  lemma PoolSendUnsentOnce(p: R.Pool, marray: seq<Metric>, w: nat, ok: bool)
    requires R.Enabled(p, R.Send(w, ok)) && S.DistinctIds(marray) && UnsentOnce(p, marray)
    ensures UnsentOnce(R.Next(p, R.Send(w, ok)), marray)
  {
    var p', m := R.Next(p, R.Send(w, ok)), p.workers[w].m;
    R.SendEffect(p, w, ok);
    forall n, ok | n in R.Unsent(p')
      ensures R.Sent(n.id, ok) !in R.Outcomes(p')
    {
      assert n in R.Unsent(p) && n != m;
      OtherId(marray, n, m);
    }
  }

  lemma PoolStepUnsentOnce(p: R.Pool, marray: seq<Metric>, step: R.Step)
    requires R.Internal(step) && R.Enabled(p, step) && S.DistinctIds(marray) && UnsentOnce(p, marray)
    ensures UnsentOnce(R.Next(p, step), marray)
  {
    if step.Send? {
      PoolSendUnsentOnce(p, marray, step.w, step.ok);
    } else {
      R.StepEffect(p, step);
    }
  }

  lemma PoolStepPoolOk(s: System, step: R.Step)
    requires MarrayOk(s) && PoolOk(s) && Enabled(s, PoolStep(step))
    ensures PoolOk(s.(pool := R.Next(s.pool, step)))
  {
    R.StepKeepsInv(s.pool, step);
    PoolStepUnsentOnce(s.pool, s.phase.marray, step);
  }

  lemma PoolStepDelivers(p: R.Pool, step: R.Step, id: string)
    requires R.Internal(step) && R.Enabled(p, step)
    ensures R.Sent(id, true) in R.Outcomes(R.Next(p, step))
       <==> R.Sent(id, true) in R.Outcomes(p) || (step.Send? && step.ok && p.workers[step.w].m.id == id)
  {
    R.StepEffect(p, step);
  }

  lemma PoolStepTookEffect(s: System, step: R.Step, id: string)
    requires AnswersOk(s) && Enabled(s, PoolStep(step)) && R.Sent(id, true) in R.Outcomes(R.Next(s.pool, step))
    ensures Effects(s, id) >= 1
  {
    PoolStepDelivers(s.pool, step, id);
    if R.Sent(id, true) in R.Outcomes(s.pool) {
      assert Delivered(s, id);
    } else {
      assert s.pool.workers[step.w].m in [s.pool.workers[step.w].m];
    }
  }

  lemma PoolStepAnswersOk(s: System, step: R.Step)
    requires Consistent(s) && Enabled(s, PoolStep(step))
    ensures AnswersOk(Next(s, PoolStep(step)))
  {
    if step.Send? {
      RequestSendable(s, HandleAt(step.w));
    }
    forall id | R.Sent(id, true) in R.Outcomes(R.Next(s.pool, step))
      ensures Effects(s, id) >= 1
    {
      PoolStepTookEffect(s, step, id);
    }
  }

  lemma PoolStepConsistent(s: System, step: R.Step)
    requires Consistent(s) && Enabled(s, PoolStep(step))
    ensures Consistent(Next(s, PoolStep(step)))
  {
    var s' := Next(s, PoolStep(step));
    PoolStepPoolOk(s, step);
    PoolOkDepends(s.(pool := R.Next(s.pool, step)), s');
    PoolStepAnswersOk(s, step);
    AgentOkDepends(s, s');
  }

  lemma OtherId(ms: seq<Metric>, m: Metric, n: Metric)
    requires S.DistinctIds(ms) && m in ms && n in ms && m != n
    ensures m.id != n.id
  {
  }

  lemma PoolSendMoves(s: System, w: nat, ok: bool, k: string) returns (g: int)
    requires Consistent(s) && Enabled(s, PoolStep(R.Send(w, ok)))
    ensures Moves(s, Next(s, PoolStep(R.Send(w, ok))), k, 0, 0, g)
  {
    var s' := Next(s, PoolStep(R.Send(w, ok)));
    var m := s.pool.workers[w].m;
    R.SendEffect(s.pool, w, ok);
    RequestSendable(s, HandleAt(w));
    MetricDelta(s.accs[m.id]);
    SingleDelta(m, k);
    assert m in Marray(s) && m in R.Unsent(s.pool);
    assert Delivered(s', k) == if k == m.id then ok else Delivered(s, k);
    g := AnswerMoves(s, s', [m], ok, k);
  }

  lemma SingleDelta(m: Metric, k: string)
    ensures k in IdSet([m]) <==> k == m.id
    ensures DeltaIn([m], k) == if k == m.id then DeltaOf(m) else 0
  {
    assert [m][..0] == [];
  }

  lemma Untouched(s: System, s': System, k: string)
    requires s'.accs == s.accs && s'.server == s.server
    requires s'.accepted == s.accepted && s'.foreign == s.foreign && s'.surplus == s.surplus
    requires Delivered(s', k) == Delivered(s, k)
    ensures Moves(s, s', k, 0, 0, 0)
  {
  }

  lemma PoolMoveMoves(s: System, step: R.Step, k: string)
    requires Enabled(s, PoolStep(step)) && !step.Send?
    ensures Moves(s, Next(s, PoolStep(step)), k, 0, 0, 0)
  {
    var s' := Next(s, PoolStep(step));
    assert s' == s.(pool := R.Next(s.pool, step));
    R.StepEffect(s.pool, step);
    Untouched(s, s', k);
  }

  lemma IdsMembers(ms: seq<Metric>)
    ensures forall id :: id in R.Ids(ms) <==> id in IdSet(ms)
    ensures S.DistinctIds(ms) ==> R.Distinct(R.Ids(ms))
  {
    forall m | m in ms
      ensures m.id in R.Ids(ms)
    {
      var i :| 0 <= i < |ms| && ms[i] == m;
      assert R.Ids(ms)[i] == m.id;
    }
  }

  /** However the send went, its outcome lists hold each staged ID once. */
  lemma OutcomeLists(s: System) returns (success: seq<string>, failure: seq<string>)
    requires MarrayOk(s) && PoolOk(s) && Enabled(s, EndExecute)
    ensures Next(s, EndExecute) == s.(phase := Resolving(success, failure), pool := Next(s, EndExecute).pool)
    ensures R.Distinct(success + failure)
    ensures Members(success) + Members(failure) == IdSet(s.phase.marray)
    ensures forall id :: id in success <==> Delivered(s, id)
  {
    var ids := R.Ids(s.phase.marray);
    IdsMembers(s.phase.marray);
    if s.rate > 0 {
      success, failure := PooledLists(s.pool);
    } else if s.phase.outcome == Some(true) {
      success, failure := ids, [];
      assert ids + [] == ids;
    } else {
      success, failure := [], ids;
      assert [] + ids == ids;
    }
  }

  lemma PooledLists(p: R.Pool) returns (success: seq<string>, failure: seq<string>)
    requires R.Inv(p) && R.Enabled(p, R.Return) && R.Distinct(R.Ids(p.ms))
    ensures success == R.IdsWith(p.collected, true) && failure == R.IdsWith(p.collected, false)
    ensures R.Distinct(success + failure)
    ensures forall id :: id in R.Ids(p.ms) <==> id in success || id in failure
    ensures forall id :: id in success <==> R.Sent(id, true) in R.Outcomes(p)
  {
    success, failure := R.IdsWith(p.collected, true), R.IdsWith(p.collected, false);
    R.CollectedAll(p);
    R.OutcomesPartitionIds(p.collected);
    R.SplitDistinct(R.Ids(p.ms), success, failure);
    R.ReturnEffect(p);
    forall id
      ensures id in success <==> R.Sent(id, true) in p.collected
    {
      R.IdsWithMember(p.collected, true, id);
    }
  }

  lemma EndExecuteConsistent(s: System)
    requires Consistent(s) && Enabled(s, EndExecute)
    ensures Consistent(Next(s, EndExecute))
  {
    var success, failure := OutcomeLists(s);
    var s' := Next(s, EndExecute);
    assert InFlight(s') == InFlight(s) && Marray(s') == [];
    if s.rate > 0 {
      R.StepKeepsInv(s.pool, R.Return);
    }
  }

  lemma EndExecuteMoves(s: System, k: string)
    requires Consistent(s) && Enabled(s, EndExecute)
    ensures Moves(s, Next(s, EndExecute), k, 0, 0, 0)
  {
    var success, failure := OutcomeLists(s);
    Untouched(s, Next(s, EndExecute), k);
  }

  lemma ResolvedParts(a: Acc)
    requires Sound(a) && a.isStaged
    ensures Commit(a).1 == None && Sound(Commit(a).0) && !Commit(a).0.isStaged && Commit(a).0.id == a.id
    ensures Commit(a).0.stagedDelta == 0 && Commit(a).0.delta == a.delta
    ensures Sound(Rollback(a)) && !Rollback(a).isStaged && Rollback(a).id == a.id
    ensures Rollback(a).stagedDelta == 0 && Amount(Rollback(a).delta) == Wrap(Amount(a.delta) + a.stagedDelta)
  {
    AddToAmount(a.delta, a.stagedDelta);
    WrapIdempotent(Amount(a.delta));
  }

  lemma HeadIsApart(ids: seq<string>, more: seq<string>)
    requires ids != [] && R.Distinct(ids + more)
    ensures ids[0] !in ids[1..] && ids[0] !in more && R.Distinct(ids[1..] + more)
    ensures Members(ids) == Members(ids[1..]) + {ids[0]}
  {
    var both := ids + more;
    assert both[0] == ids[0] && both[1..] == ids[1..] + more;
    assert ids == [ids[0]] + ids[1..];
    forall i | 0 <= i < |both[1..]|
      ensures both[1..][i] != both[0]
    {
      assert both[1..][i] == both[i + 1];
    }
    assert forall k :: k in both[1..] <==> k in ids[1..] || k in more;
  }

  lemma SuccessLeaves(s: System)
    requires MarrayOk(s) && s.phase.Resolving? && s.phase.success != []
    ensures var id := s.phase.success[0];
            && Resolved(s, s.(phase := s.phase.(success := s.phase.success[1..])), id)
            && Members(s.phase.success) == Members(s.phase.success[1..]) + {id}
  {
    HeadIsApart(s.phase.success, s.phase.failure);
  }

  lemma FailureLeaves(s: System)
    requires MarrayOk(s) && s.phase.Resolving? && s.phase.success == [] && s.phase.failure != []
    ensures Resolved(s, s.(phase := s.phase.(failure := s.phase.failure[1..])), s.phase.failure[0])
  {
    OnlyFailures(s.phase.failure);
  }

  lemma ResolvedDepends(s: System, s': System, s'': System, id: string)
    requires Resolved(s, s', id) && s''.phase == s'.phase
    ensures Resolved(s, s'', id)
  {
  }

  lemma CommitOne(s: System) returns (id: string, a: Acc)
    requires AccsOk(s) && MarrayOk(s) && Enabled(s, ResolveOne) && s.phase.success != []
    ensures id in s.accs && s.accs[id].isStaged && a == Commit(s.accs[id]).0 && Commit(s.accs[id]).1 == None
    ensures Next(s, ResolveOne) == s.(accs := s.accs[id := a], phase := s.phase.(success := s.phase.success[1..]),
                                     resolutions := s.resolutions + multiset{id})
    ensures Resolved(s, Next(s, ResolveOne), id)
    ensures Members(s.phase.success) == Members(s.phase.success[1..]) + {id}
  {
    id := s.phase.success[0];
    a := Commit(s.accs[id]).0;
    assert id in InFlight(s);
    ResolvedParts(s.accs[id]);
    SuccessLeaves(s);
    ResolvedDepends(s, s.(phase := s.phase.(success := s.phase.success[1..])), Next(s, ResolveOne), id);
  }

  lemma RollbackOne(s: System) returns (id: string, a: Acc)
    requires AccsOk(s) && MarrayOk(s) && Enabled(s, ResolveOne) && s.phase.success == [] && s.phase.failure != []
    ensures id in s.accs && s.accs[id].isStaged && a == Rollback(s.accs[id])
    ensures Next(s, ResolveOne) == s.(accs := s.accs[id := a], phase := s.phase.(failure := s.phase.failure[1..]),
                                     resolutions := s.resolutions + multiset{id})
    ensures Resolved(s, Next(s, ResolveOne), id)
  {
    id := s.phase.failure[0];
    a := Rollback(s.accs[id]);
    assert id in InFlight(s);
    FailureLeaves(s);
    ResolvedDepends(s, s.(phase := s.phase.(failure := s.phase.failure[1..])), Next(s, ResolveOne), id);
  }

  lemma OnlyFailures(failure: seq<string>)
    requires failure != [] && R.Distinct([] + failure)
    ensures failure[0] !in failure[1..] && R.Distinct([] + failure[1..])
    ensures Members(failure) == Members(failure[1..]) + {failure[0]}
  {
    assert failure + [] == [] + failure && failure[1..] + [] == [] + failure[1..];
    HeadIsApart(failure, []);
  }

  /** One ID has left the ones in flight. */
  ghost predicate Resolved(s: System, s': System, id: string) {
    && s.phase.Resolving? && s'.phase.Resolving?
    && id in InFlight(s) && id !in InFlight(s') && InFlight(s) == InFlight(s') + {id}
    && R.Distinct(s'.phase.success + s'.phase.failure)
  }

  lemma ResolvedAccsOk(s: System, s': System, id: string, a: Acc)
    requires AccsOk(s) && Resolved(s, s', id) && id in s.accs
    requires Sound(a) && a.id == id && !a.isStaged && s'.accs == s.accs[id := a]
    ensures AccsOk(s')
  {
  }

  lemma ResolvedConsistent(s: System, s': System, id: string, a: Acc)
    requires Consistent(s) && Resolved(s, s', id) && id in s.accs
    requires Sound(a) && a.id == id && !a.isStaged
    requires s' == s.(accs := s.accs[id := a], phase := s'.phase, resolutions := s.resolutions + multiset{id})
    ensures Consistent(s')
  {
    ResolvedAccsOk(s, s', id, a);
    assert multiset(InFlight(s)) == multiset(InFlight(s')) + multiset{id};
    assert LogsOk(s') && PoolOk(s') && MarrayOk(s');
  }

  lemma CommitOneConsistent(s: System)
    requires Consistent(s) && Enabled(s, ResolveOne) && s.phase.success != []
    ensures Consistent(Next(s, ResolveOne))
  {
    var id, a := CommitOne(s);
    ResolvedParts(s.accs[id]);
    ResolvedConsistent(s, Next(s, ResolveOne), id, a);
  }

  lemma RollbackOneConsistent(s: System)
    requires Consistent(s) && Enabled(s, ResolveOne) && s.phase.success == [] && s.phase.failure != []
    ensures Consistent(Next(s, ResolveOne))
  {
    var id, a := RollbackOne(s);
    ResolvedParts(s.accs[id]);
    ResolvedConsistent(s, Next(s, ResolveOne), id, a);
  }

  lemma ResolveOneConsistent(s: System)
    requires Consistent(s) && Enabled(s, ResolveOne)
    ensures Consistent(Next(s, ResolveOne))
  {
    if s.phase.success != [] {
      CommitOneConsistent(s);
    } else {
      RollbackOneConsistent(s);
    }
  }

  lemma CommitOneMoves(s: System, k: string)
    requires Consistent(s) && Enabled(s, ResolveOne) && s.phase.success != []
    ensures Moves(s, Next(s, ResolveOne), k, 0, 0, 0)
  {
    var id, a := CommitOne(s);
    ResolvedParts(s.accs[id]);
    CommittedMoves(s, Next(s, ResolveOne), id, a, k);
  }

  lemma RollbackOneMoves(s: System, k: string) returns (c: int, f: int, g: int)
    requires Consistent(s) && Enabled(s, ResolveOne) && s.phase.success == [] && s.phase.failure != []
    ensures Moves(s, Next(s, ResolveOne), k, c, f, g)
  {
    var id, a := RollbackOne(s);
    ResolvedParts(s.accs[id]);
    c, f, g := RolledBackMoves(s, Next(s, ResolveOne), id, a, k);
  }

  lemma ResolveOneMoves(s: System, k: string) returns (c: int, f: int, g: int)
    requires Consistent(s) && Enabled(s, ResolveOne)
    ensures Moves(s, Next(s, ResolveOne), k, c, f, g)
  {
    if s.phase.success != [] {
      CommitOneMoves(s, k);
      c, f, g := 0, 0, 0;
    } else {
      c, f, g := RollbackOneMoves(s, k);
    }
  }

  lemma CommittedMoves(s: System, s': System, id: string, a: Acc, k: string)
    requires s.phase.Resolving? && s.phase.success != [] && id == s.phase.success[0] && id in s.accs
    requires s' == s.(accs := s.accs[id := a], phase := s.phase.(success := s.phase.success[1..]),
                     resolutions := s'.resolutions)
    requires a.stagedDelta == 0 && a.delta == s.accs[id].delta
    requires Members(s.phase.success) == Members(s.phase.success[1..]) + {id}
    ensures Moves(s, s', k, 0, 0, 0)
  {
    assert AccOf(s', k) == if k == id then a else AccOf(s, k);
    assert k in Members(s.phase.success) <==> k in Members(s.phase.success[1..]) || k == id;
  }

  lemma RolledBackMoves(s: System, s': System, id: string, a: Acc, k: string) returns (c: int, f: int, g: int)
    requires s.phase.Resolving? && s.phase.success == [] && id in s.accs
    requires s'.phase.Resolving? && s'.phase.success == []
    requires s' == s.(accs := s.accs[id := a], phase := s'.phase, resolutions := s'.resolutions)
    requires a.stagedDelta == 0 && Amount(a.delta) == Wrap(Amount(s.accs[id].delta) + s.accs[id].stagedDelta)
    ensures Moves(s, s', k, c, f, g)
  {
    c, f, g := 0, 0, 0;
    assert AccOf(s', k) == if k == id then a else AccOf(s, k);
    if k == id {
      c, f, g := Amount(s.accs[id].delta), s.accs[id].stagedDelta, -(s.accs[id].stagedDelta as int);
    }
  }

  // ---- runs ----

  /** The reporter's own steps; all others are of pollers, clients, executor and server. */
  predicate OfReporter(l: Label) {
    l.BeginReport? || l.StageOne? || l.EndStaging? || l.EndExecute? || l.ResolveOne? || l.EndReport?
  }

  lemma ReporterKeepsConsistent(s: System, l: Label)
    requires Consistent(s) && Enabled(s, l) && OfReporter(l)
    ensures Consistent(Next(s, l))
  {
    if l.BeginReport? {
      BeginReportKeeps(s, "");
    } else if l.StageOne? {
      StageOneConsistent(s, l.id);
    } else if l.EndStaging? {
      EndStagingConsistent(s);
    } else if l.EndExecute? {
      EndExecuteConsistent(s);
    } else if l.ResolveOne? {
      ResolveOneConsistent(s);
    } else {
      EndReportKeeps(s, "");
    }
  }

  lemma StepKeepsConsistent(s: System, l: Label)
    requires Consistent(s) && Enabled(s, l)
    ensures Consistent(Next(s, l))
  {
    if OfReporter(l) {
      ReporterKeepsConsistent(s, l);
    } else if l.Create? {
      CreateConsistent(s, l.id);
    } else if l.PollCounter? {
      PollCounterConsistent(s, l.id, l.inc);
    } else if l.PollGauge? {
      PollGaugeConsistent(s, l.id, l.x);
    } else if l.OtherClient? {
      OtherClientConsistent(s, l.m);
    } else if l.BatchAnswer? {
      BatchAnswerConsistent(s, l.ok);
    } else if l.PoolStep? {
      PoolStepConsistent(s, l.step);
    } else {
      RequestSendable(s, l);
      HandleConsistent(s, l, Request(s, l));
    }
  }

  lemma ReporterMoves(s: System, l: Label, k: string) returns (c: int, f: int, g: int)
    requires Consistent(s) && Enabled(s, l) && OfReporter(l)
    ensures Moves(s, Next(s, l), k, c, f, g)
  {
    c, f, g := 0, 0, 0;
    if l.BeginReport? {
      BeginReportKeeps(s, k);
    } else if l.StageOne? {
      assert l.id !in InFlight(s);
      StageOneMoves(s, l.id, k);
    } else if l.EndStaging? {
      EndStagingMoves(s, k);
    } else if l.EndExecute? {
      EndExecuteMoves(s, k);
    } else if l.ResolveOne? {
      c, f, g := ResolveOneMoves(s, k);
    } else {
      EndReportKeeps(s, k);
    }
  }

  lemma StepMoves(s: System, l: Label, k: string) returns (c: int, f: int, g: int)
    requires Consistent(s) && Enabled(s, l)
    ensures Moves(s, Next(s, l), k, c, f, g)
  {
    c, f, g := 0, 0, 0;
    if OfReporter(l) {
      c, f, g := ReporterMoves(s, l, k);
    } else if l.Create? {
      CreateMoves(s, l.id, k);
    } else if l.PollCounter? {
      c, f := PollCounterMoves(s, l.id, l.inc, k);
    } else if l.PollGauge? {
      PollGaugeMoves(s, l.id, l.x, k);
    } else if l.OtherClient? {
      c, f := OtherClientMoves(s, l.m, k);
    } else if l.BatchAnswer? {
      g := BatchAnswerMoves(s, l.ok, k);
    } else if l.PoolStep? {
      g := PoolStepMoves(s, l.step, k);
    } else {
      RequestSendable(s, l);
      c, f := HandlingMoves(s, Next(s, l), Request(s, l), k);
    }
  }

  lemma PoolStepMoves(s: System, step: R.Step, k: string) returns (g: int)
    requires Consistent(s) && Enabled(s, PoolStep(step))
    ensures Moves(s, Next(s, PoolStep(step)), k, 0, 0, g)
  {
    if step.Send? {
      g := PoolSendMoves(s, step.w, step.ok, k);
    } else {
      PoolMoveMoves(s, step, k);
      g := 0;
    }
  }

  lemma StepKeepsConserved(s: System, l: Label)
    requires Consistent(s) && Conserved(s) && Enabled(s, l)
    ensures Conserved(Next(s, l))
  {
    forall k
      ensures Congruent(Income(Next(s, l), k), Balance(Next(s, l), k))
    {
      var c, f, g := StepMoves(s, l, k);
      StillConserved(s, Next(s, l), k, c, f, g);
    }
  }

  lemma StepKeepsInv(s: System, l: Label)
    requires Consistent(s) && Conserved(s) && Enabled(s, l)
    ensures Consistent(Next(s, l)) && Conserved(Next(s, l))
  {
    StepKeepsConsistent(s, l);
    StepKeepsConserved(s, l);
  }

  lemma StartInv(rate: nat)
    ensures Consistent(Start(rate)) && Conserved(Start(rate))
  {
    R.NewPoolInv(rate);
  }
}
