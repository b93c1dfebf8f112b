/**
 What the delivery system's metrics hold, gauges and counters alike, read off the polls made: every metric under way
 reports just what was polled since the last commit, and after a successful report the server holds it.
 */
module DeliveryContents {
  import opened Int64
  import opened Model
  import opened Accumulation
  import opened Acceptance
  import opened Delivery
  import opened DeliveryRuns
  import M = MemStore
  import S = Service

  // ---- the calls on one accumulator ----

  /** What a step calls on the accumulator of an ID. */
  function OpOf(s: System, l: Label, id: string): Option<Op> {
    match l
    case PollCounter(i, inc) => if i == id then Some(IncCounter(inc)) else None
    case PollGauge(i, x) => if i == id then Some(AddGauge(x)) else None
    case StageOne(i) => if i == id then Some(StageOp) else None
    case ResolveOne =>
      if !s.phase.Resolving? then None
      else if s.phase.success != [] then (if s.phase.success[0] == id then Some(CommitOp) else None)
      else if s.phase.failure != [] && s.phase.failure[0] == id then Some(RollbackOp)
      else None
    case _ => None
  }

  /** The calls on it in the first n steps of a run. */
  function OpsOn(ss: seq<System>, ls: seq<Label>, n: nat, id: string): seq<Op>
    requires n <= |ls| <= |ss|
  {
    if n == 0 then []
    else
      var op := OpOf(ss[n - 1], ls[n - 1], id);
      OpsOn(ss, ls, n - 1, id) + if op.Some? then [op.value] else []
  }

  /** Labels that call an accumulator, or make one. */
  predicate CallsAccumulator(l: Label) {
    l.Create? || l.PollCounter? || l.PollGauge? || l.StageOne? || l.ResolveOne?
  }

  predicate OfServer(l: Label) {
    l.OtherClient? || l.HandleBatch? || l.HandleAt? || l.HandleLate?
  }

  lemma ServerCallsNone(s: System, l: Label)
    requires Enabled(s, l) && OfServer(l)
    ensures Next(s, l).accs == s.accs && Next(s, l).accepted == s.accepted
  {
  }

  lemma OthersCallNone(s: System, l: Label)
    requires Enabled(s, l) && !CallsAccumulator(l)
    ensures Next(s, l).accs == s.accs && Next(s, l).accepted == s.accepted
  {
    if OfServer(l) {
      ServerCallsNone(s, l);
    } else if l.BatchAnswer? || l.PoolStep? {
      AnswersCallNone(s, l);
    }
  }

  lemma AnswersCallNone(s: System, l: Label)
    requires Enabled(s, l) && (l.BatchAnswer? || l.PoolStep?)
    ensures Next(s, l).accs == s.accs && Next(s, l).accepted == s.accepted
  {
  }

  lemma CommitCalls(s: System)
    requires Enabled(s, ResolveOne) && s.phase.success != []
    ensures var id := s.phase.success[0];
            Next(s, ResolveOne).accs == s.accs[id := Apply(AccOf(s, id), CommitOp)]
  {
  }

  lemma RollbackCalls(s: System)
    requires Enabled(s, ResolveOne) && s.phase.success == []
    ensures s.phase.failure != []
    ensures var id := s.phase.failure[0];
            Next(s, ResolveOne).accs == s.accs[id := Apply(AccOf(s, id), RollbackOp)]
  {
  }

  lemma OneCalled(s: System, s': System, i: string, op: Op, id: string)
    requires s'.accs == s.accs[i := Apply(AccOf(s, i), op)]
    ensures AccOf(s', id) == Called(AccOf(s, id), if i == id then Some(op) else None)
  {
  }

  lemma ResolveCalls(s: System, id: string)
    requires Enabled(s, ResolveOne)
    ensures AccOf(Next(s, ResolveOne), id) == Called(AccOf(s, id), OpOf(s, ResolveOne, id))
  {
    if s.phase.success != [] {
      CommitCalls(s);
      OneCalled(s, Next(s, ResolveOne), s.phase.success[0], CommitOp, id);
    } else {
      RollbackCalls(s);
      OneCalled(s, Next(s, ResolveOne), s.phase.failure[0], RollbackOp, id);
    }
  }

  lemma PollCalls(s: System, l: Label, id: string)
    requires Enabled(s, l) && (l.Create? || l.PollCounter? || l.PollGauge? || l.StageOne?)
    ensures AccOf(Next(s, l), id) == Called(AccOf(s, id), OpOf(s, l, id))
  {
  }

  /** A step does to an accumulator what its call does, and nothing if it calls another. */
  lemma StepCalls(s: System, l: Label, id: string)
    requires Enabled(s, l)
    ensures AccOf(Next(s, l), id) == Called(AccOf(s, id), OpOf(s, l, id))
  {
    if !CallsAccumulator(l) {
      OthersCallNone(s, l);
    } else if l.ResolveOne? {
      ResolveCalls(s, id);
    } else {
      PollCalls(s, l, id);
    }
  }

  function Called(a: Acc, op: Option<Op>): Acc {
    if op.Some? then Apply(a, op.value) else a
  }

  /** What an accumulator accepts of a call. */
  function Taken(a: Acc, op: Option<Op>): int {
    match op
    case Some(IncCounter(inc)) => if ErrorOf(a, IncCounter(inc)) == None then inc else 0
    case _ => 0
  }

  lemma StepAccepts(s: System, l: Label, id: string)
    requires Enabled(s, l)
    ensures Booked(Next(s, l).accepted, id) == Booked(s.accepted, id) + Taken(AccOf(s, id), OpOf(s, l, id))
  {
    if !CallsAccumulator(l) {
      OthersCallNone(s, l);
    }
  }

  /** What the pollers offered of increments is accepted, all of it or none, as the first poll of the ID decides. */
  function Offered(ops: seq<Op>): int {
    if FirstKind(ops) == Counter then Increments(ops) else 0
  }

  lemma OfferedNext(id: string, ops: seq<Op>, op: Op)
    ensures Offered(ops + [op]) == Offered(ops) + Taken(ApplyAll(NewAcc(id), ops), Some(op))
  {
    KindNext(ops, op);
    OneMore(ops, op);
    CallErrors(id, ops, op);
    AcceptedIsOffered(id, ops);
  }

  lemma ApplyNext(a: Acc, ops: seq<Op>, op: Op)
    ensures ApplyAll(a, ops + [op]) == Apply(ApplyAll(a, ops), op)
  {
    assert (ops + [op])[..|ops|] == ops;
  }

  /** In every state of every run an accumulator is what the calls on it made it, and accepted what they offered. */
  lemma {:induction false} AccumulatorsFollowCalls(ss: seq<System>, ls: seq<Label>, n: nat, id: string)
    requires IsRun(ss, ls) && n <= |ls|
    ensures var ops := OpsOn(ss, ls, n, id);
            AccOf(ss[n], id) == ApplyAll(NewAcc(id), ops) && Booked(ss[n].accepted, id) == Offered(ops)
  {
    if n > 0 {
      AccumulatorsFollowCalls(ss, ls, n - 1, id);
      var s, l, ops := ss[n - 1], ls[n - 1], OpsOn(ss, ls, n - 1, id);
      StepCalls(s, l, id);
      StepAccepts(s, l, id);
      var op := OpOf(s, l, id);
      if op.Some? {
        ApplyNext(NewAcc(id), ops, op.value);
        OfferedNext(id, ops, op.value);
      } else {
        assert ops + [] == ops;
      }
    }
  }

  ghost predicate BooksHold(s: System, id: string, offered: int) {
    Congruent(offered + Booked(s.foreign, id) + Booked(s.surplus, id), Balance(s, id))
  }

  /**
   The books of `CountersConserved` in what was polled: all increments offered for an ID whose first poll was one
   are on the server, pending, or staged and undelivered, modulo 2^64 and the surplus.
   */
  lemma PolledConserved(ss: seq<System>, ls: seq<Label>, n: nat, id: string)
    requires IsRun(ss, ls) && n <= |ls|
    ensures BooksHold(ss[n], id, Offered(OpsOn(ss, ls, n, id)))
  {
    AccumulatorsFollowCalls(ss, ls, n, id);
    CountersConserved(ss, ls, n, id);
    SameIncome(ss[n], id, Offered(OpsOn(ss, ls, n, id)));
  }

  lemma SameIncome(s: System, id: string, offered: int)
    requires Booked(s.accepted, id) == offered && Congruent(Income(s, id), Balance(s, id))
    ensures BooksHold(s, id, offered)
  {
    var income := offered + Booked(s.foreign, id) + Booked(s.surplus, id);
    assert Income(s, id) == income;
  }

  // ---- the metrics under way ----

  /** The metric reports these calls: the mean of their samples, or the total of their increments. */
  ghost predicate ReportsCalls(m: Metric, kind: MType, ops: seq<Op>) {
    || (kind == Gauge && Samples(ops) != [] && m == GaugeMetric(m.id, Mean(Samples(ops))))
    || (kind == Counter && m == CounterMetric(m.id, Wrap(Increments(ops))))
  }

  lemma StagedReports(a: Acc, kind: MType, pending: seq<Op>, block: seq<Op>)
    requires HoldsCalls(a, kind, pending, block, true)
    ensures ReportsCalls(MetricOf(a), kind, block)
  {
    SamplesIffOffered(block);
  }

  /** In every state of every run each metric under way reports what was polled from the last commit to its staging. */
  lemma MetricsUnderWay(ss: seq<System>, ls: seq<Label>, n: nat, m: Metric)
    requires IsRun(ss, ls) && n <= |ls| && m in Marray(ss[n])
    ensures var ops := OpsOn(ss, ls, n, m.id);
            MarksOf(ops).out && ReportsCalls(m, FirstKind(ops), Block(ops))
  {
    RunInv(ss, ls, n);
    var s, ops := ss[n], OpsOn(ss, ls, n, m.id);
    AccumulatorsFollowCalls(ss, ls, n, m.id);
    AccHoldsCalls(m.id, ops);
    assert MarrayOk(s) && m.id in IdSet(Marray(s)) && m.id in InFlight(s);
    StagedReports(s.accs[m.id], FirstKind(ops), Pending(ops), Block(ops));
  }

  /** Staging an ID adds the metric of what was polled since the last commit, and none if nothing was. */
  lemma StagingTakes(ss: seq<System>, ls: seq<Label>, i: nat, id: string)
    requires IsRun(ss, ls) && i < |ls| && ls[i] == StageOne(id)
    ensures ss[i].phase.Staging? && ss[i + 1].phase.Staging?
    ensures var ops, before, after := OpsOn(ss, ls, i, id), ss[i].phase.staged, ss[i + 1].phase.staged;
            if Offers(Pending(ops), FirstKind(ops)) then
              |after| == |before| + 1 && after[..|before|] == before && after[|before|].id == id
              && ReportsCalls(after[|before|], FirstKind(ops), Pending(ops))
            else after == before
  {
    RunInv(ss, ls, i);
    var s, ops := ss[i], OpsOn(ss, ls, i, id);
    AccumulatorsFollowCalls(ss, ls, i, id);
    AccHoldsCalls(id, ops);
    assert id !in InFlight(s);
    StageTaken(s.accs[id], FirstKind(ops), Pending(ops));
    if Offers(Pending(ops), FirstKind(ops)) {
      StagedReports(Stage(s.accs[id]), FirstKind(ops), [StageOp], Pending(ops));
    }
  }

  // ---- what a report delivers ----

  ghost predicate StagingOnly(ls: seq<Label>, b: nat, k: nat) {
    forall j | b < j < k && j < |ls| :: !ls[j].EndStaging?
  }

  /** The staging of an ID at step i is in the list, if there was anything to stage. */
  ghost predicate StagedAt(ss: seq<System>, ls: seq<Label>, i: nat, id: string, staged: seq<Metric>)
    requires i < |ls| <= |ss|
  {
    var ops := OpsOn(ss, ls, i, id);
    && ls[i] == StageOne(id)
    && (Offers(Pending(ops), FirstKind(ops)) ==>
          exists m :: m in staged && m.id == id && ReportsCalls(m, FirstKind(ops), Pending(ops)))
  }

  ghost predicate VisitedStaged(ss: seq<System>, ls: seq<Label>, b: nat, k: nat, id: string)
    requires k < |ss| && k <= |ls| <= |ss|
  {
    && ss[k].phase.Staging?
    && (id in ss[k].phase.visited ==> exists i :: b < i < k && StagedAt(ss, ls, i, id, ss[k].phase.staged))
  }

  lemma VisitedNext(ss: seq<System>, ls: seq<Label>, b: nat, k: nat, id: string)
    requires IsRun(ss, ls) && b < k < |ls| && VisitedStaged(ss, ls, b, k, id) && !ls[k].EndStaging?
    ensures VisitedStaged(ss, ls, b, k + 1, id) && ss[k + 1].phase.due == ss[k].phase.due
  {
    var staged := ss[k + 1].phase.staged;
    assert Enabled(ss[k], ls[k]) && ss[k + 1] == Next(ss[k], ls[k]);
    StagingGoesOn(ss[k], ls[k]);
    if ls[k] == StageOne(id) {
      LastIsStaged(ss, ls, k, id);
    } else if id in ss[k + 1].phase.visited {
      var i :| b < i < k && StagedAt(ss, ls, i, id, ss[k].phase.staged);
      assert StagedAt(ss, ls, i, id, staged);
    }
  }

  lemma LastIsStaged(ss: seq<System>, ls: seq<Label>, k: nat, id: string)
    requires IsRun(ss, ls) && k < |ls| && ls[k] == StageOne(id)
    ensures ss[k + 1].phase.Staging? && StagedAt(ss, ls, k, id, ss[k + 1].phase.staged)
  {
    StagingTakes(ss, ls, k, id);
    var ops, after := OpsOn(ss, ls, k, id), ss[k + 1].phase.staged;
    if Offers(Pending(ops), FirstKind(ops)) {
      assert after[|after| - 1] in after;
    }
  }

  lemma {:induction false} VisitedIsStaged(ss: seq<System>, ls: seq<Label>, b: nat, k: nat, id: string)
    requires IsRun(ss, ls) && b < k <= |ls| && ls[b] == BeginReport && StagingOnly(ls, b, k)
    ensures VisitedStaged(ss, ls, b, k, id) && ss[k].phase.due == ss[b].accs.Keys
  {
    if k == b + 1 {
      assert Enabled(ss[b], ls[b]) && ss[k] == Next(ss[b], ls[b]);
    } else {
      VisitedIsStaged(ss, ls, b, k - 1, id);
      VisitedNext(ss, ls, b, k - 1, id);
    }
  }

  lemma StagingGoesOn(s: System, l: Label)
    requires Enabled(s, l) && s.phase.Staging? && !l.EndStaging?
    ensures Next(s, l).phase.Staging? && Next(s, l).phase.due == s.phase.due
    ensures Next(s, l).phase.visited == if l.StageOne? then s.phase.visited + {l.id} else s.phase.visited
    ensures forall m :: m in s.phase.staged ==> m in Next(s, l).phase.staged
  {
  }

  /** Every accumulator a report found is staged in it, with all that was polled since the last commit. */
  lemma EveryDueIsStaged(ss: seq<System>, ls: seq<Label>, b: nat, a: nat, id: string)
    requires IsRun(ss, ls) && b < a < |ls| && ls[b] == BeginReport && ls[a] == EndStaging && StagingOnly(ls, b, a)
    requires id in ss[b].accs
    ensures ss[a].phase.Staging?
    ensures exists i :: b < i < a && StagedAt(ss, ls, i, id, ss[a].phase.staged)
  {
    VisitedIsStaged(ss, ls, b, a, id);
    assert Enabled(ss[a], ls[a]);
  }

  /** What a store holds for an ID once calls have been delivered to it: their mean, or their total added to before. */
  ghost predicate Holds(server: M.Store, before: M.Store, id: string, kind: MType, ops: seq<Op>) {
    && id in server
    && (kind == Gauge ==> Samples(ops) != [] && server[id] == GaugeMetric(id, Mean(Samples(ops))))
    && (kind == Counter ==>
          server[id].mtype == Counter && Count(server, id) == Wrap(Count(before, id) + Increments(ops)))
  }

  lemma OneDelivered(before: M.Store, m: Metric, kind: MType, ops: seq<Op>)
    requires M.Sound(before) && !M.Clashes(before, m) && ReportsCalls(m, kind, ops)
    ensures Holds(M.ApplyOne(before, m), before, m.id, kind, ops)
  {
    if kind == Counter {
      CountAfterOne(before, m, m.id);
      WrapAdd(Increments(ops), Count(before, m.id));
      assert Wrap(Increments(ops)) + Count(before, m.id) == Count(before, m.id) + Wrap(Increments(ops));
    }
  }

  lemma BatchDelivered(before: M.Store, after: M.Store, ms: seq<Metric>, m: Metric, kind: MType, ops: seq<Op>)
    requires M.Sound(before) && S.DistinctIds(ms) && M.Batched(before, ms) == (after, None)
    requires m in ms && ReportsCalls(m, kind, ops)
    ensures Holds(after, before, m.id, kind, ops)
  {
    var i :| 0 <= i < |ms| && ms[i] == m;
    S.EntryAfter(before, ms, m.id);
    assert S.Entry(after, m.id) == S.Entry(M.ApplyOne(before, m), m.id);
    OneDelivered(before, m, kind, ops);
  }

  /**
   The agent's promise, end to end: with either executor, a report of honest sends that all succeed leaves on the
   server, for every ID it found with data, the mean of the samples polled since the last commit, or all increments
   polled since then on top of what was there.
   */
  lemma ReportDelivers(ss: seq<System>, ls: seq<Label>, b: nat, a: nat, e: nat, id: string)
    requires IsRun(ss, ls) && b < a < e < |ls| && ls[b] == BeginReport && ls[a] == EndStaging && ls[e] == EndExecute
    requires StagingOnly(ls, b, a) && QuietBetween(ss, ls, a, e)
    requires ss[e + 1].phase.Resolving? && ss[e + 1].phase.failure == []
    requires id in ss[b].accs
    ensures exists i :: b < i < a && Delivers(ss, ls, i, a, e, id)
  {
    EveryDueIsStaged(ss, ls, b, a, id);
    var i :| b < i < a && StagedAt(ss, ls, i, id, ss[a].phase.staged);
    ReportIsOneBatch(ss, ls, a, e);
    RunInv(ss, ls, a);
    var ops := OpsOn(ss, ls, i, id);
    if Offers(Pending(ops), FirstKind(ops)) {
      var m :| m in ss[a].phase.staged && m.id == id && ReportsCalls(m, FirstKind(ops), Pending(ops));
      BatchDelivered(ss[a].server, ss[e + 1].server, ss[a].phase.staged, m, FirstKind(ops), Pending(ops));
    }
    assert Delivers(ss, ls, i, a, e, id);
  }

  ghost predicate Delivers(ss: seq<System>, ls: seq<Label>, i: nat, a: nat, e: nat, id: string)
    requires i < |ls| && a < |ls| && e < |ls| < |ss|
  {
    var ops := OpsOn(ss, ls, i, id);
    && ls[i] == StageOne(id)
    && (Offers(Pending(ops), FirstKind(ops)) ==>
          Holds(ss[e + 1].server, ss[a].server, id, FirstKind(ops), Pending(ops)))
  }
}
