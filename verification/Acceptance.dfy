/**
 What an accumulator holds, read off the calls that were made: the first of them that accumulates fixes the type,
 from then on those of the type are accepted, and staging, commits and rollbacks only move marks over them.
 */
module Acceptance {
  import opened Int64
  import opened Model
  import opened Accumulation
  import History

  // ---- the calls ----

  function KindOf(op: Op): MType {
    match op
    case IncCounter(_) => Counter
    case AddGauge(_) => Gauge
    case _ => Unset
  }

  /** The type of the first call that accumulates. */
  function FirstKind(ops: seq<Op>): MType {
    if ops == [] then Unset
    else
      var before := FirstKind(ops[..|ops| - 1]);
      if before == Unset then KindOf(ops[|ops| - 1]) else before
  }

  /** All samples offered, in order. */
  function Samples(ops: seq<Op>): seq<real> {
    if ops == [] then []
    else
      var op := ops[|ops| - 1];
      Samples(ops[..|ops| - 1]) + if op.AddGauge? then [op.x] else []
  }

  /** All increments offered, added up. */
  function Increments(ops: seq<Op>): int {
    if ops == [] then 0
    else
      var op := ops[|ops| - 1];
      Increments(ops[..|ops| - 1]) + if op.IncCounter? then op.inc else 0
  }

  predicate Offers(ops: seq<Op>, kind: MType) {
    exists op :: op in ops && Accumulates(op) && KindOf(op) == kind
  }

  lemma {:induction false} SamplesJoin(a: seq<Op>, b: seq<Op>)
    ensures Samples(a + b) == Samples(a) + Samples(b)
  {
    if b == [] {
      assert a + b == a;
    } else {
      SamplesJoin(a, b[..|b| - 1]);
      assert (a + b)[..|a + b| - 1] == a + b[..|b| - 1];
    }
  }

  lemma {:induction false} IncrementsJoin(a: seq<Op>, b: seq<Op>)
    ensures Increments(a + b) == Increments(a) + Increments(b)
  {
    if b == [] {
      assert a + b == a;
    } else {
      IncrementsJoin(a, b[..|b| - 1]);
      assert (a + b)[..|a + b| - 1] == a + b[..|b| - 1];
    }
  }

  lemma OneMore(ops: seq<Op>, op: Op)
    ensures Samples(ops + [op]) == Samples(ops) + if op.AddGauge? then [op.x] else []
    ensures Increments(ops + [op]) == Increments(ops) + if op.IncCounter? then op.inc else 0
    ensures forall kind :: Offers(ops + [op], kind) <==> Offers(ops, kind) || (Accumulates(op) && KindOf(op) == kind)
  {
    assert (ops + [op])[..|ops|] == ops;
    forall kind
      ensures Offers(ops + [op], kind) <==> Offers(ops, kind) || (Accumulates(op) && KindOf(op) == kind)
    {
      assert op in ops + [op] && forall o :: o in ops ==> o in ops + [op];
    }
  }

  lemma {:induction false} SamplesIffOffered(ops: seq<Op>)
    ensures Samples(ops) != [] <==> Offers(ops, Gauge)
  {
    if ops != [] {
      var n := |ops| - 1;
      SamplesIffOffered(ops[..n]);
      assert ops == ops[..n] + [ops[n]];
      OneMore(ops[..n], ops[n]);
    }
  }

  lemma {:induction false} NoneOfferedNoneAdded(ops: seq<Op>)
    requires !Offers(ops, Counter)
    ensures Increments(ops) == 0
  {
    if ops != [] {
      var n := |ops| - 1;
      assert ops == ops[..n] + [ops[n]];
      OneMore(ops[..n], ops[n]);
      NoneOfferedNoneAdded(ops[..n]);
    }
  }

  // ---- staging, as marks over the calls ----

  /** Calls before `done` were committed; while something is `out`, it is what was accepted from `done` to `cut`. */
  datatype Marks = Marks(done: nat, cut: nat, out: bool)

  function MarksOf(ops: seq<Op>): (k: Marks)
    ensures k.done <= k.cut <= |ops|
  {
    if ops == [] then Marks(0, 0, false)
    else
      var n := |ops| - 1;
      var k := MarksOf(ops[..n]);
      match ops[n]
      case StageOp => if !k.out && Offers(ops[k.done..n], FirstKind(ops)) then Marks(k.done, n, true) else k
      case CommitOp => if k.out then Marks(k.cut, k.cut, false) else k
      case RollbackOp => k.(out := false)
      case _ => k
  }

  /** The calls whose data is staged. */
  function Block(ops: seq<Op>): seq<Op> {
    var k := MarksOf(ops);
    if k.out then ops[k.done..k.cut] else []
  }

  /** The calls since the last commit whose data is not staged. */
  function Pending(ops: seq<Op>): seq<Op> {
    var k := MarksOf(ops);
    ops[if k.out then k.cut else k.done..]
  }

  /** An accumulator that holds just these pending and staged calls. */
  ghost predicate HoldsCalls(a: Acc, kind: MType, pending: seq<Op>, block: seq<Op>, out: bool) {
    && a.mtype == kind && a.isStaged == out && kind in {Unset, Counter, Gauge}
    && a.values == (if kind == Gauge then Samples(pending) else [])
    && a.stagedValues == (if kind == Gauge then Samples(block) else [])
    && (a.delta.Some? <==> kind == Counter && Offers(pending, Counter))
    && Amount(a.delta) == (if kind == Counter then Wrap(Increments(pending)) else 0)
    && a.stagedDelta == (if kind == Counter then Wrap(Increments(block)) else 0)
    && (out ==> kind != Unset && Offers(block, kind))
    && (!out ==> block == [])
    && (kind == Unset ==> !Offers(pending, Counter) && !Offers(pending, Gauge))
  }

  lemma MarksNext(ops: seq<Op>, op: Op)
    ensures var k, k' := MarksOf(ops), MarksOf(ops + [op]);
            match op
            case StageOp =>
              k' == if !k.out && Offers(Pending(ops), FirstKind(ops + [op])) then Marks(k.done, |ops|, true) else k
            case CommitOp => k' == if k.out then Marks(k.cut, k.cut, false) else k
            case RollbackOp => k' == k.(out := false)
            case _ => k' == k
  {
    assert (ops + [op])[..|ops|] == ops;
    assert (ops + [op])[MarksOf(ops).done..|ops|] == ops[MarksOf(ops).done..];
  }

  lemma KindNext(ops: seq<Op>, op: Op)
    ensures FirstKind(ops + [op]) == if FirstKind(ops) == Unset then KindOf(op) else FirstKind(ops)
  {
    assert (ops + [op])[..|ops|] == ops;
  }

  lemma JustLonger(ops: seq<Op>, op: Op)
    requires MarksOf(ops + [op]) == MarksOf(ops)
    ensures Pending(ops + [op]) == Pending(ops) + [op] && Block(ops + [op]) == Block(ops)
  {
  }

  lemma StagedParts(ops: seq<Op>)
    requires !MarksOf(ops).out && MarksOf(ops + [StageOp]) == Marks(MarksOf(ops).done, |ops|, true)
    ensures Block(ops + [StageOp]) == Pending(ops) && Pending(ops + [StageOp]) == [StageOp]
  {
  }

  lemma CommittedParts(ops: seq<Op>)
    requires MarksOf(ops).out && MarksOf(ops + [CommitOp]) == Marks(MarksOf(ops).cut, MarksOf(ops).cut, false)
    ensures Block(ops + [CommitOp]) == [] && Pending(ops + [CommitOp]) == Pending(ops) + [CommitOp]
  {
  }

  lemma RolledBackParts(ops: seq<Op>)
    requires MarksOf(ops).out && MarksOf(ops + [RollbackOp]) == MarksOf(ops).(out := false)
    ensures Block(ops + [RollbackOp]) == []
    ensures Pending(ops + [RollbackOp]) == Block(ops) + Pending(ops) + [RollbackOp]
  {
    var k := MarksOf(ops);
    assert ops[k.done..] == ops[k.done..k.cut] + ops[k.cut..];
  }

  // ---- each call ----

  ghost predicate Explained(a: Acc, ops: seq<Op>) {
    HoldsCalls(a, FirstKind(ops), Pending(ops), Block(ops), MarksOf(ops).out)
  }

  lemma HoldsOneMore(a: Acc, kind: MType, pending: seq<Op>, op: Op, block: seq<Op>, out: bool)
    requires HoldsCalls(a, kind, pending, block, out) && !Accumulates(op)
    ensures HoldsCalls(a, kind, pending + [op], block, out)
  {
    OneMore(pending, op);
  }

  lemma IncrementTaken(a: Acc, kind: MType, pending: seq<Op>, block: seq<Op>, out: bool, inc: int64)
    requires HoldsCalls(a, kind, pending, block, out)
    ensures HoldsCalls(WithCounter(a, inc).0, if kind == Unset then Counter else kind,
                       pending + [IncCounter(inc)], block, out)
    ensures WithCounter(a, inc).1 == if kind == Gauge then Some(IncorrectMetricType) else None
  {
    OneMore(pending, IncCounter(inc));
    WrapAdd(Increments(pending), inc);
    WrapIdempotent(inc);
    if !Offers(pending, Counter) {
      NoneOfferedNoneAdded(pending);
    }
  }

  lemma SampleTaken(a: Acc, kind: MType, pending: seq<Op>, block: seq<Op>, out: bool, x: real)
    requires HoldsCalls(a, kind, pending, block, out)
    ensures HoldsCalls(WithGauge(a, x).0, if kind == Unset then Gauge else kind, pending + [AddGauge(x)], block, out)
    ensures WithGauge(a, x).1 == if kind == Counter then Some(IncorrectMetricType) else None
  {
    OneMore(pending, AddGauge(x));
    SamplesIffOffered(pending);
  }

  lemma StageTaken(a: Acc, kind: MType, pending: seq<Op>)
    requires HoldsCalls(a, kind, pending, [], false)
    ensures Stage(a).isStaged <==> Offers(pending, kind)
    ensures Stage(a).isStaged ==> HoldsCalls(Stage(a), kind, [StageOp], pending, true)
    ensures !Stage(a).isStaged ==> Stage(a) == a
  {
    OneMore([], StageOp);
    SamplesIffOffered(pending);
    assert [] + [StageOp] == [StageOp];
    assert Wrap(0) == 0;
    assert !Offers([], Counter);
  }

  lemma CommitTaken(a: Acc, kind: MType, pending: seq<Op>, block: seq<Op>)
    requires HoldsCalls(a, kind, pending, block, true)
    ensures HoldsCalls(Commit(a).0, kind, pending + [CommitOp], [], false) && Commit(a).1 == None
  {
    HoldsOneMore(a, kind, pending, CommitOp, block, true);
  }

  lemma RollbackTaken(a: Acc, kind: MType, pending: seq<Op>, block: seq<Op>)
    requires HoldsCalls(a, kind, pending, block, true)
    ensures HoldsCalls(Rollback(a), kind, block + pending + [RollbackOp], [], false)
  {
    SamplesJoin(block, pending);
    IncrementsJoin(block, pending);
    OneMore(block + pending, RollbackOp);
    OfferedIn(block, pending);
    WrapAdd(Increments(pending), Wrap(Increments(block)));
    WrapAdd(Increments(block), Increments(pending));
    WrapIdempotent(Wrap(Increments(block)));
    if !Offers(pending, Counter) {
      NoneOfferedNoneAdded(pending);
    }
  }

  lemma OfferedIn(a: seq<Op>, b: seq<Op>)
    ensures forall kind :: Offers(a + b, kind) <==> Offers(a, kind) || Offers(b, kind)
  {
    assert forall op :: op in a + b <==> op in a || op in b;
  }

  lemma StepExplained(a: Acc, ops: seq<Op>, op: Op)
    requires Explained(a, ops)
    ensures Explained(Apply(a, op), ops + [op])
  {
    MarksNext(ops, op);
    KindNext(ops, op);
    var kind, k := FirstKind(ops), MarksOf(ops);
    match op
    case IncCounter(inc) =>
      IncrementTaken(a, kind, Pending(ops), Block(ops), k.out, inc);
      JustLonger(ops, op);
    case AddGauge(x) =>
      SampleTaken(a, kind, Pending(ops), Block(ops), k.out, x);
      JustLonger(ops, op);
    case StageOp => StageExplained(a, ops);
    case CommitOp => CommitExplained(a, ops);
    case RollbackOp => RollbackExplained(a, ops);
  }

  lemma StageExplained(a: Acc, ops: seq<Op>)
    requires Explained(a, ops)
    ensures Explained(Stage(a), ops + [StageOp])
  {
    MarksNext(ops, StageOp);
    KindNext(ops, StageOp);
    if MarksOf(ops).out {
      JustLonger(ops, StageOp);
      HoldsOneMore(a, FirstKind(ops), Pending(ops), StageOp, Block(ops), true);
    } else {
      StageTaken(a, FirstKind(ops), Pending(ops));
      if Offers(Pending(ops), FirstKind(ops)) {
        StagedParts(ops);
      } else {
        JustLonger(ops, StageOp);
        HoldsOneMore(a, FirstKind(ops), Pending(ops), StageOp, [], false);
      }
    }
  }

  lemma CommitExplained(a: Acc, ops: seq<Op>)
    requires Explained(a, ops)
    ensures Explained(Commit(a).0, ops + [CommitOp])
  {
    MarksNext(ops, CommitOp);
    KindNext(ops, CommitOp);
    if MarksOf(ops).out {
      CommitTaken(a, FirstKind(ops), Pending(ops), Block(ops));
      CommittedParts(ops);
    } else {
      JustLonger(ops, CommitOp);
      HoldsOneMore(a, FirstKind(ops), Pending(ops), CommitOp, Block(ops), false);
    }
  }

  lemma RollbackExplained(a: Acc, ops: seq<Op>)
    requires Explained(a, ops)
    ensures Explained(Rollback(a), ops + [RollbackOp])
  {
    MarksNext(ops, RollbackOp);
    KindNext(ops, RollbackOp);
    if MarksOf(ops).out {
      RollbackTaken(a, FirstKind(ops), Pending(ops), Block(ops));
      RolledBackParts(ops);
    } else {
      JustLonger(ops, RollbackOp);
      HoldsOneMore(a, FirstKind(ops), Pending(ops), RollbackOp, Block(ops), false);
    }
  }

  /**
   After any calls an accumulator is staged, typed and filled as the marks over its calls say: pending is what was
   accepted since the last commit and is not staged, and the staged block is what was accepted before that.
   */
  lemma {:induction false} AccHoldsCalls(id: string, ops: seq<Op>)
    ensures var a := ApplyAll(NewAcc(id), ops);
            a.id == id && HoldsCalls(a, FirstKind(ops), Pending(ops), Block(ops), MarksOf(ops).out)
  {
    if ops == [] {
      assert !Offers([], Counter) && !Offers([], Gauge);
    } else {
      var n := |ops| - 1;
      AccHoldsCalls(id, ops[..n]);
      assert ops == ops[..n] + [ops[n]];
      StepExplained(ApplyAll(NewAcc(id), ops[..n]), ops[..n], ops[n]);
      ApplyAllSound(NewAcc(id), ops);
    }
  }

  /**
   Which error each call returns: accumulating errs exactly against the first type, staging exactly while something
   is out or nothing was accumulated yet, committing exactly while nothing is out.
   */
  lemma CallErrors(id: string, ops: seq<Op>, op: Op)
    ensures var a, k := ApplyAll(NewAcc(id), ops), MarksOf(ops);
            match op
            case IncCounter(_) =>
              ErrorOf(a, op) == if FirstKind(ops) in {Unset, Counter} then None else Some(IncorrectMetricType)
            case AddGauge(_) =>
              ErrorOf(a, op) == if FirstKind(ops) in {Unset, Gauge} then None else Some(IncorrectMetricType)
            case StageOp =>
              ErrorOf(a, op) == if k.out then Some(WrongStagingState)
                                else if FirstKind(ops) == Unset then Some(UnknownMetricType) else None
            case CommitOp => ErrorOf(a, op) == if k.out then None else Some(WrongStagingState)
            case RollbackOp => ErrorOf(a, op) == None
  {
    AccHoldsCalls(id, ops);
  }

  /** What staging hands out: the mean, or the total, of what was accepted since the last commit. */
  lemma HandsOut(id: string, ops: seq<Op>)
    ensures var a, b := ApplyAll(NewAcc(id), ops), ApplyAll(NewAcc(id), ops + [StageOp]);
            && (!a.isStaged && b.isStaged <==> !MarksOf(ops).out && Offers(Pending(ops), FirstKind(ops)))
            && (!a.isStaged && b.isStaged ==>
                  StagedMetric(b) == MetricFor(id, FirstKind(ops), Pending(ops)))
  {
    AccHoldsCalls(id, ops);
    AccHoldsCalls(id, ops + [StageOp]);
    MarksNext(ops, StageOp);
    KindNext(ops, StageOp);
    if !MarksOf(ops).out && Offers(Pending(ops), FirstKind(ops)) {
      StagedParts(ops);
    }
  }

  /** The metric that reports these calls. */
  ghost function MetricFor(id: string, kind: MType, ops: seq<Op>): Metric {
    if kind == Gauge && Samples(ops) != [] then GaugeMetric(id, Mean(Samples(ops)))
    else CounterMetric(id, Wrap(Increments(ops)))
  }

  // ---- acceptance ----

  /**
   The first call that accumulates decides: of the samples offered all are accepted, in order, or none, and of the
   increments likewise.
   */
  lemma {:induction false} AcceptedIsOffered(id: string, ops: seq<Op>)
    ensures History.Run(id, ops).samples == if FirstKind(ops) == Gauge then Samples(ops) else []
    ensures History.Run(id, ops).increments == if FirstKind(ops) == Counter then Increments(ops) else 0
    ensures History.Run(id, ops).acc == ApplyAll(NewAcc(id), ops)
    ensures FirstKind(ops) == Unset ==> Samples(ops) == [] && Increments(ops) == 0
  {
    if ops != [] {
      var n := |ops| - 1;
      AcceptedIsOffered(id, ops[..n]);
      CallErrors(id, ops[..n], ops[n]);
    }
  }

  /** An accumulator offered no increments accepts every sample, and none of these calls fails. */
  lemma SamplesAlone(id: string, ops: seq<Op>, i: nat)
    requires forall op :: op in ops ==> !op.IncCounter?
    requires i < |ops| && ops[i].AddGauge?
    ensures History.Run(id, ops).samples == Samples(ops)
    ensures ErrorOf(ApplyAll(NewAcc(id), ops[..i]), ops[i]) == None
  {
    AcceptedIsOffered(id, ops);
    OnlyKind(ops, Counter);
    OnlyKind(ops[..i], Counter);
    CallErrors(id, ops[..i], ops[i]);
  }

  /** An accumulator offered no samples accepts every increment, and none of these calls fails. */
  lemma IncrementsAlone(id: string, ops: seq<Op>, i: nat)
    requires forall op :: op in ops ==> !op.AddGauge?
    requires i < |ops| && ops[i].IncCounter?
    ensures History.Run(id, ops).increments == Increments(ops)
    ensures ErrorOf(ApplyAll(NewAcc(id), ops[..i]), ops[i]) == None
  {
    AcceptedIsOffered(id, ops);
    OnlyKind(ops, Gauge);
    OnlyKind(ops[..i], Gauge);
    CallErrors(id, ops[..i], ops[i]);
  }

  lemma {:induction false} OnlyKind(ops: seq<Op>, kind: MType)
    requires kind != Unset && forall op :: op in ops ==> KindOf(op) != kind
    ensures FirstKind(ops) in {Unset, Counter, Gauge} && FirstKind(ops) != kind
  {
    if ops != [] {
      var n := |ops| - 1;
      assert ops[n] in ops && forall op :: op in ops[..n] ==> op in ops;
      OnlyKind(ops[..n], kind);
    }
  }
}
