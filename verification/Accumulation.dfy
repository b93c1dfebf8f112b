/**
 The agent's metric accumulator, first as transitions on values, then as the object with Go's slices
 (a shared backing array and a length) and the counter pointers.
 */
module Accumulation {
  import opened Int64
  import opened Model

  datatype Error = IncorrectMetricType | UnknownMetricType | WrongStagingState

  datatype Acc = Acc(
    id: string,
    mtype: MType,
    delta: Option<int64>,
    values: seq<real>,
    isStaged: bool,
    stagedDelta: int64,
    stagedValues: seq<real>)

  function NewAcc(id: string): Acc {
    Acc(id, Unset, None, [], false, 0, [])
  }

  function Sum(xs: seq<real>): real {
    if xs == [] then 0.0 else Sum(xs[..|xs| - 1]) + xs[|xs| - 1]
  }

  function Mean(xs: seq<real>): real
    requires xs != []
  {
    Sum(xs) / |xs| as real
  }

  function Amount(d: Option<int64>): int64 {
    if d.Some? then d.value else 0
  }

  function AddTo(delta: Option<int64>, d: int64): Option<int64> {
    Some(if delta.Some? then Wrap(delta.value + d) else d)
  }

  function Typed(a: Acc, mtype: MType): Acc {
    if a.mtype == Unset then a.(mtype := mtype) else a
  }

  function WithCounter(a: Acc, inc: int64): (Acc, Option<Error>) {
    var b := Typed(a, Counter);
    if b.mtype != Counter then (b, Some(IncorrectMetricType)) else (b.(delta := AddTo(b.delta, inc)), None)
  }

  function WithGauge(a: Acc, x: real): (Acc, Option<Error>) {
    var b := Typed(a, Gauge);
    if b.mtype != Gauge then (b, Some(IncorrectMetricType)) else (b.(values := b.values + [x]), None)
  }

  /** The metric that is sent for what is staged. */
  function StagedMetric(a: Acc): Metric
    requires a.mtype == Gauge ==> a.stagedValues != []
  {
    if a.mtype == Gauge then GaugeMetric(a.id, Mean(a.stagedValues))
    else Metric(a.id, a.mtype, Some(a.stagedDelta), None)
  }

  /** The accumulator after StageChanges. */
  function Stage(a: Acc): Acc {
    if a.isStaged then a
    else if a.mtype == Counter && a.delta.Some? then
      a.(isStaged := true, stagedDelta := a.delta.value, delta := None)
    else if a.mtype == Gauge && a.values != [] then
      a.(isStaged := true, stagedValues := a.values, values := [])
    else a
  }

  function StageError(a: Acc): Option<Error> {
    if a.isStaged then Some(WrongStagingState)
    else if a.mtype in {Counter, Gauge} then None
    else Some(UnknownMetricType)
  }

  function Rollback(a: Acc): Acc {
    if !a.isStaged then a
    else if a.mtype == Counter then
      a.(isStaged := false, delta := AddTo(a.delta, a.stagedDelta), stagedDelta := 0)
    else if a.mtype == Gauge then
      a.(isStaged := false, values := a.stagedValues + a.values, stagedValues := [])
    else a.(isStaged := false)
  }

  function Commit(a: Acc): (Acc, Option<Error>) {
    if !a.isStaged then (a, Some(WrongStagingState))
    else if a.mtype == Counter then (a.(isStaged := false, stagedDelta := 0), None)
    else if a.mtype == Gauge then (a.(isStaged := false, stagedValues := []), None)
    else (a.(isStaged := false), None)
  }

  /** What every accumulator satisfies: only the fields of its own type are used, and only while staged. */
  predicate Sound(a: Acc) {
    && a.mtype in {Unset, Counter, Gauge}
    && (a.mtype != Counter ==> a.delta == None && a.stagedDelta == 0)
    && (a.mtype != Gauge ==> a.values == [] && a.stagedValues == [])
    && (a.mtype == Unset ==> !a.isStaged)
    && (!a.isStaged ==> a.stagedDelta == 0 && a.stagedValues == [])
    && (a.isStaged && a.mtype == Gauge ==> a.stagedValues != [])
  }

  datatype Op = IncCounter(inc: int64) | AddGauge(x: real) | StageOp | CommitOp | RollbackOp

  function Apply(a: Acc, op: Op): Acc {
    match op
    case IncCounter(inc) => WithCounter(a, inc).0
    case AddGauge(x) => WithGauge(a, x).0
    case StageOp => Stage(a)
    case CommitOp => Commit(a).0
    case RollbackOp => Rollback(a)
  }

  function ApplyAll(a: Acc, ops: seq<Op>): Acc {
    if ops == [] then a else Apply(ApplyAll(a, ops[..|ops| - 1]), ops[|ops| - 1])
  }

  lemma ApplySound(a: Acc, op: Op)
    requires Sound(a)
    ensures Sound(Apply(a, op)) && Apply(a, op).id == a.id
  {
  }

  /** Staging and rolling back at once is invisible; staging and committing at once empties the accumulator. */
  lemma StageThenResolve(a: Acc)
    requires Sound(a) && !a.isStaged
    ensures Rollback(Stage(a)) == a
    ensures Stage(a).isStaged ==>
              Commit(Stage(a)) == (NewAcc(a.id).(mtype := a.mtype), None)
    ensures Stage(a).isStaged <==> a.delta.Some? || a.values != []
  {
    assert a.values + [] == a.values;
  }

  predicate Accumulates(op: Op) {
    op.IncCounter? || op.AddGauge?
  }

  lemma AddedEitherWay(delta: Option<int64>, d: int64, e: int64)
    ensures AddTo(AddTo(delta, d), e) == AddTo(AddTo(delta, e), d)
  {
    if delta.Some? {
      WrapAdd(delta.value + d, e);
      WrapAdd(delta.value + e, d);
      assert delta.value + d + e == delta.value + e + d;
    }
  }

  /** Whatever is accumulated before a commit or rollback might as well have come after it. */
  lemma ResolveCommutes(a: Acc, op: Op)
    requires Sound(a) && a.isStaged && Accumulates(op)
    ensures var b := Apply(a, op);
            && Sound(b) && b.isStaged && b.id == a.id && b.stagedDelta == a.stagedDelta
            && Commit(b) == (Apply(Commit(a).0, op), None) && Rollback(b) == Apply(Rollback(a), op)
  {
    match op
    case IncCounter(inc) => AddedEitherWay(a.delta, inc, a.stagedDelta);
    case AddGauge(x) => assert a.stagedValues + (a.values + [x]) == a.stagedValues + a.values + [x];
  }

  lemma {:induction false} ResolveCommutesAll(a: Acc, ops: seq<Op>)
    requires Sound(a) && a.isStaged && forall op :: op in ops ==> Accumulates(op)
    ensures var b := ApplyAll(a, ops);
            && Sound(b) && b.isStaged && b.id == a.id && b.stagedDelta == a.stagedDelta
            && Commit(b) == (ApplyAll(Commit(a).0, ops), None) && Rollback(b) == ApplyAll(Rollback(a), ops)
  {
    if ops != [] {
      var n := |ops| - 1;
      assert ops[n] in ops && forall op :: op in ops[..n] ==> op in ops;
      ResolveCommutesAll(a, ops[..n]);
      ResolveCommutes(ApplyAll(a, ops[..n]), ops[n]);
    }
  }

  lemma {:induction false} ApplyAllSound(a: Acc, ops: seq<Op>)
    requires Sound(a)
    ensures Sound(ApplyAll(a, ops)) && ApplyAll(a, ops).id == a.id
  {
    if ops != [] {
      ApplyAllSound(a, ops[..|ops| - 1]);
      ApplySound(ApplyAll(a, ops[..|ops| - 1]), ops[|ops| - 1]);
    }
  }

  // ---- slices ----

  /** A Go slice that starts at its backing array's first element; the nil slice has an empty array. */
  datatype Slice = Slice(arr: array<real>, len: nat) {
    ghost predicate Valid() {
      len <= arr.Length
    }

    function Elements(): seq<real>
      requires Valid()
      reads arr
    {
      arr[..len]
    }
  }

  /** Go's append: in place when the capacity suffices, else into a new array of any sufficient capacity. */
  method Append(s: Slice, xs: seq<real>) returns (r: Slice)
    requires s.Valid()
    modifies s.arr
    ensures r.Valid() && r.Elements() == old(s.Elements()) + xs
    ensures r.arr == s.arr || (fresh(r.arr) && unchanged(s.arr))
  {
    var need := s.len + |xs|;
    if need <= s.arr.Length {
      r := Slice(s.arr, need);
    } else {
      var capacity :| need <= capacity;
      var bigger := new real[capacity];
      r := Slice(bigger, need);
      for i := 0 to s.len
        modifies bigger
        invariant bigger[..i] == s.arr[..i]
      {
        bigger[i] := s.arr[i];
      }
    }
    for i := 0 to |xs|
      invariant r.arr != s.arr ==> unchanged(s.arr)
      invariant r.arr[..s.len + i] == old(s.Elements()) + xs[..i]
    {
      r.arr[s.len + i] := xs[i];
    }
    assert xs[..|xs|] == xs;
  }

  method Total(s: Slice) returns (total: real)
    requires s.Valid()
    ensures total == Sum(s.Elements())
  {
    total := 0.0;
    for i := 0 to s.len
      invariant total == Sum(s.arr[..i])
    {
      assert s.arr[..i + 1][..i] == s.arr[..i];
      total := total + s.arr[i];
    }
  }

  method Average(s: Slice) returns (mean: real)
    requires s.Valid() && s.Elements() != []
    ensures mean == Mean(s.Elements())
  {
    var total := Total(s);
    mean := total / s.len as real;
  }

  // ---- the object ----

  class MetricAccumulator {
    const id: string
    var mtype: MType
    var delta: Int64Ref?
    var values: Slice
    var isStaged: bool
    const stagedDelta: Int64Ref // the field itself: its address is handed out with the staged metric
    var stagedValues: Slice
    ghost var view: Acc         // what the fields hold
    ghost var repr: set<object> // the objects they are held in

    ghost predicate Valid()
      reads this, repr
    {
      && repr == {this, stagedDelta, values.arr, stagedValues.arr} + (if delta == null then {} else {delta})
      && values.Valid() && stagedValues.Valid()
      && delta != stagedDelta
      && view == Acc(id, mtype, if delta == null then None else Some(delta.v), values.Elements(),
                     isStaged, stagedDelta.v, stagedValues.Elements())
      && Sound(view)
      // the two slices may share their array, but never while samples are staged
      && (isStaged && mtype == Gauge ==> values.arr != stagedValues.arr)
    }

    /** Keeps the ghost fields up to date. */
    ghost method Update()
      requires values.Valid() && stagedValues.Valid()
      modifies this`view, this`repr
      ensures repr == {this, stagedDelta, values.arr, stagedValues.arr} + (if delta == null then {} else {delta})
      ensures view == Acc(id, mtype, if delta == null then None else Some(delta.v), values.Elements(),
                          isStaged, stagedDelta.v, stagedValues.Elements())
    {
      repr := {this, stagedDelta, values.arr, stagedValues.arr} + if delta == null then {} else {delta};
      view := Acc(id, mtype, if delta == null then None else Some(delta.v), values.Elements(),
                  isStaged, stagedDelta.v, stagedValues.Elements());
    }

    constructor (id: string)
      ensures Valid() && fresh(repr)
      ensures view == NewAcc(id)
    {
      this.id := id;
      mtype, delta, isStaged := Unset, null, false;
      stagedDelta := new Int64Ref(0);
      var nil := new real[0];
      values := Slice(nil, 0);
      stagedValues := Slice(nil, 0);
      new;
      Update();
    }

    method AccumulateCounter(inc: int64) returns (err: Option<Error>)
      requires Valid()
      modifies repr
      ensures Valid() && fresh(repr - old(repr))
      ensures (view, err) == WithCounter(old(view), inc)
    {
      if mtype == Unset {
        mtype := Counter;
      }
      if mtype != Counter {
        Update();
        return Some(IncorrectMetricType);
      }
      if delta == null {
        delta := new Int64Ref(inc);
      } else {
        delta.v := Wrap(delta.v + inc);
      }
      Update();
      return None;
    }

    method AccumulateGauge(x: real) returns (err: Option<Error>)
      requires Valid()
      modifies repr
      ensures Valid() && fresh(repr - old(repr))
      ensures (view, err) == WithGauge(old(view), x)
    {
      if mtype == Unset {
        mtype := Gauge;
      }
      if mtype != Gauge {
        Update();
        return Some(IncorrectMetricType);
      }
      values := Append(values, [x]);
      Update();
      return None;
    }

    /** A staged counter's metric points at this accumulator's own staged amount. */
    method StageChanges(fmt: real -> string) returns (metric: Metrics?, err: Option<Error>)
      requires Valid()
      modifies repr
      ensures Valid() && fresh(repr - old(repr))
      ensures view == Stage(old(view)) && err == StageError(old(view))
      ensures metric != null <==> !old(isStaged) && isStaged
      ensures metric != null ==>
                fresh(metric) && metric !in repr && metric.hashed == metric.View() == StagedMetric(view)
      ensures metric != null ==> metric.Hashed(fmt) && metric.delta in {null, stagedDelta}
    {
      metric := null;
      if isStaged {
        return null, Some(WrongStagingState);
      }
      if mtype == Counter {
        metric := StageCounterChanges(fmt);
        return metric, None;
      } else if mtype == Gauge {
        metric := StageGaugeChanges(fmt);
        return metric, None;
      }
      return null, Some(UnknownMetricType);
    }

    method StageCounterChanges(fmt: real -> string) returns (metric: Metrics?)
      requires Valid() && !isStaged && mtype == Counter
      modifies this, stagedDelta
      ensures Valid() && fresh(repr - old(repr))
      ensures view == Stage(old(view))
      ensures metric != null <==> isStaged
      ensures metric != null ==>
                fresh(metric) && metric !in repr && metric.hashed == metric.View() == StagedMetric(view)
      ensures metric != null ==> metric.Hashed(fmt) && metric.delta == stagedDelta
    {
      if delta == null {
        return null;
      }
      isStaged := true;
      stagedDelta.v := delta.v;
      delta := null;
      Update();
      metric := new Metrics(fmt, id, mtype, stagedDelta, None);
    }

    method StageGaugeChanges(fmt: real -> string) returns (metric: Metrics?)
      requires Valid() && !isStaged && mtype == Gauge
      modifies this
      ensures Valid() && fresh(repr - old(repr))
      ensures view == Stage(old(view))
      ensures metric != null <==> isStaged
      ensures metric != null ==>
                fresh(metric) && metric !in repr && metric.hashed == metric.View() == StagedMetric(view)
      ensures metric != null ==> metric.Hashed(fmt) && metric.delta == null
    {
      if values.len == 0 {
        return null;
      }
      isStaged := true;
      var empty := new real[0];
      stagedValues := Append(Slice(empty, 0), values.Elements());
      values := Slice(values.arr, 0);
      Update();

      var mean := Average(stagedValues);
      metric := new Metrics(fmt, id, mtype, null, Some(mean));
    }

    method RollbackStaged()
      requires Valid()
      modifies repr
      ensures Valid() && fresh(repr - old(repr))
      ensures view == Rollback(old(view))
    {
      if !isStaged {
        return;
      }
      if mtype == Counter {
        isStaged := false;
        if delta == null {
          delta := new Int64Ref(stagedDelta.v);
        } else {
          delta.v := Wrap(delta.v + stagedDelta.v);
        }
        stagedDelta.v := 0;
      } else if mtype == Gauge {
        isStaged := false;
        values := Append(stagedValues, values.Elements());
        stagedValues := Slice(stagedValues.arr, 0);
      } else {
        assert false; // what is staged has a type
      }
      Update();
    }

    method CommitStaged() returns (err: Option<Error>)
      requires Valid()
      modifies repr
      ensures Valid() && fresh(repr - old(repr))
      ensures (view, err) == Commit(old(view))
    {
      if !isStaged {
        return Some(WrongStagingState);
      }
      if mtype == Counter {
        stagedDelta.v := 0;
      } else if mtype == Gauge {
        stagedValues := Slice(stagedValues.arr, 0);
      }
      isStaged := false;
      Update();
      return None;
    }
  }

  /** The error a call returns. */
  function ErrorOf(a: Acc, op: Op): Option<Error> {
    match op
    case IncCounter(inc) => WithCounter(a, inc).1
    case AddGauge(x) => WithGauge(a, x).1
    case StageOp => StageError(a)
    case CommitOp => Commit(a).1
    case RollbackOp => None
  }

  method Call(fmt: real -> string, ma: MetricAccumulator, op: Op) returns (metric: Metrics?, err: Option<Error>)
    requires ma.Valid()
    modifies ma.repr
    ensures ma.Valid() && fresh(ma.repr - old(ma.repr))
    ensures ma.view == Apply(old(ma.view), op) && err == ErrorOf(old(ma.view), op)
    ensures metric != null <==> op.StageOp? && !old(ma.isStaged) && ma.isStaged
    ensures metric != null ==> fresh(metric) && metric !in ma.repr && metric.View() == StagedMetric(ma.view)
    ensures metric != null ==> metric.delta == if ma.mtype == Gauge then null else ma.stagedDelta
  {
    metric, err := null, None;
    match op
    case IncCounter(inc) => err := ma.AccumulateCounter(inc);
    case AddGauge(x) => err := ma.AccumulateGauge(x);
    case StageOp => metric, err := ma.StageChanges(fmt);
    case CommitOp => err := ma.CommitStaged();
    case RollbackOp => ma.RollbackStaged();
  }

  /** Reusing arrays and pointers never shows: any sequence of calls acts as it does on immutable values. */
  method Drive(fmt: real -> string, ma: MetricAccumulator, ops: seq<Op>)
    requires ma.Valid()
    modifies ma.repr
    ensures ma.Valid() && fresh(ma.repr - old(ma.repr))
    ensures ma.view == ApplyAll(old(ma.view), ops)
  {
    for i := 0 to |ops|
      invariant ma.Valid() && fresh(ma.repr - old(ma.repr))
      invariant ma.view == ApplyAll(old(ma.view), ops[..i])
    {
      assert ops[..i + 1][..i] == ops[..i];
      var _, _ := Call(fmt, ma, ops[i]);
    }
    assert ops[..|ops|] == ops;
  }

  /** A staged metric keeps its amount however much is accumulated behind it, though it points into the accumulator. */
  method AccumulateBehind(ma: MetricAccumulator, metric: Metrics, ops: seq<Op>)
    requires ma.Valid() && ma.isStaged && metric.delta in {null, ma.stagedDelta} && metric !in ma.repr
    requires metric.View() == StagedMetric(ma.view)
    requires forall op | op in ops :: op.IncCounter? || op.AddGauge?
    modifies ma.repr
    ensures ma.Valid() && ma.isStaged && fresh(ma.repr - old(ma.repr))
    ensures metric.View() == old(metric.View()) == StagedMetric(ma.view)
  {
    for i := 0 to |ops|
      invariant ma.Valid() && ma.isStaged && fresh(ma.repr - old(ma.repr))
      invariant metric.delta == old(metric.delta) && metric !in ma.repr
      invariant metric.View() == old(metric.View()) == StagedMetric(ma.view)
    {
      assert ops[i] in ops;
      match ops[i]
      case IncCounter(inc) => var _ := ma.AccumulateCounter(inc);
      case AddGauge(x) => var _ := ma.AccumulateGauge(x);
    }
  }
}
