/** The agent's accumulators by ID: one object for each, none reaching into another. */
module AgentStorage {
  import opened Int64
  import opened Model
  import opened Accumulation

  ghost predicate AllSound(views: map<string, Acc>) {
    forall id :: id in views ==> Sound(views[id]) && views[id].id == id
  }

  class Storage {
    var accums: map<string, MetricAccumulator>
    ghost var views: map<string, Acc> // what the accumulators hold
    ghost var repr: set<object>

    ghost predicate Valid()
      reads this, repr
    {
      && this in repr
      && views.Keys == accums.Keys && AllSound(views)
      && (forall id {:trigger Looked(id)} :: Looked(id) && id in accums ==>
            accums[id] in repr && accums[id].repr <= repr && this !in accums[id].repr)
      && (forall id {:trigger Looked(id)} :: Looked(id) && id in accums ==>
            accums[id].Valid() && accums[id].view == views[id] && accums[id].id == id)
      && (forall i, j {:trigger Looked(i), Looked(j)} ::
             Looked(i) && Looked(j) && i in accums && j in accums && i != j ==>
            accums[i].repr !! accums[j].repr)
    }

    constructor ()
      ensures Valid() && fresh(repr) && views == map[]
    {
      accums, views := map[], map[];
      repr := {this};
    }

    method GetOrNew(id: string) returns (ma: MetricAccumulator)
      requires Valid()
      modifies this
      ensures Valid() && fresh(repr - old(repr))
      ensures id in accums && ma == accums[id]
      ensures Extends(old(accums))
      ensures views == if id in old(views) then old(views) else old(views)[id := NewAcc(id)]
    {
      if id !in accums {
        ma := new MetricAccumulator(id);
        accums := accums[id := ma];
        views := views[id := ma.view];
        repr := repr + ma.repr;
        return;
      }
      return accums[id];
    }

    /** Everything but what is known of the accumulator `id`, which has just been called. */
    ghost predicate ValidBut(id: string)
      reads this, repr
    {
      && this in repr && id in accums
      && views.Keys == accums.Keys && AllSound(views)
      && (forall i {:trigger Looked(i)} :: Looked(i) && i in accums ==>
            accums[i] in repr && accums[i].repr <= repr && this !in accums[i].repr)
      && (forall i {:trigger Looked(i)} :: Looked(i) && i in accums ==> accums[i].Valid() && accums[i].id == i)
      && (forall i {:trigger Looked(i)} :: Looked(i) && i in accums && i != id ==> accums[i].view == views[i])
      && (forall i, j {:trigger Looked(i), Looked(j)} ::
             Looked(i) && Looked(j) && i in accums && j in accums && i != j ==>
            accums[i].repr !! accums[j].repr)
    }

    /** As ValidBut, before the new objects of `id` are in `repr`. */
    ghost predicate Called(id: string)
      reads this, repr, if id in accums then {accums[id]} + accums[id].repr else {}
    {
      && this in repr && id in accums
      && views.Keys == accums.Keys && AllSound(views)
      && (forall i {:trigger Looked(i)} :: Looked(i) && i in accums ==> accums[i] in repr && this !in accums[i].repr)
      && (forall i {:trigger Looked(i)} :: Looked(i) && i in accums && i != id ==>
            accums[i].repr <= repr && accums[i].view == views[i])
      && (forall i {:trigger Looked(i)} :: Looked(i) && i in accums ==> accums[i].Valid() && accums[i].id == i)
      && (forall i, j {:trigger Looked(i), Looked(j)} ::
             Looked(i) && Looked(j) && i in accums && j in accums && i != j ==>
            accums[i].repr !! accums[j].repr)
    }

    ghost method Absorb(id: string)
      requires Called(id)
      modifies this`repr
      ensures ValidBut(id) && repr == old(repr) + accums[id].repr
    {
      repr := repr + accums[id].repr;
    }

    ghost method Settle(id: string)
      requires ValidBut(id)
      modifies this`views
      ensures Valid() && views == old(views)[id := accums[id].view]
    {
      assert Looked(id);
      views := views[id := accums[id].view];
    }

    /** A staged metric object whose delta, if any, is the accumulator's own staged amount. */
    ghost predicate Backs(m: Metrics, v: Metric)
      reads this, m
    {
      && m.id == v.id && m.mtype == v.mtype && m.value == v.value && v.id in accums && v.id in views
      && (if v.delta == None then m.delta == null
          else m.delta == accums[v.id].stagedDelta && views[v.id].stagedDelta == v.delta.value)
    }

    lemma BackedShows(m: Metrics, v: Metric)
      requires Valid() && Backs(m, v)
      ensures m.View() == v
    {
      assert Looked(v.id);
    }

    /** The call itself, before what it made new is the storage's. */
    method Reach(fmt: real -> string, id: string, op: Op) returns (metric: Metrics?, err: Option<Error>)
      requires Valid() && id in accums
      modifies accums[id].repr
      ensures Called(id) && accums[id].Valid() && repr == old(repr) && accums == old(accums) && views == old(views)
      ensures fresh(accums[id].repr - old(accums[id].repr)) && old(accums[id].repr) <= repr
      ensures accums[id].view == Apply(views[id], op) && err == ErrorOf(views[id], op)
      ensures metric != null <==> op.StageOp? && !views[id].isStaged && accums[id].isStaged
      ensures metric != null ==> fresh(metric) && metric !in accums[id].repr
      ensures metric != null ==> metric.View() == StagedMetric(accums[id].view)
      ensures metric != null ==> metric.delta == if accums[id].mtype == Gauge then null else accums[id].stagedDelta
    {
      assert Looked(id);
      metric, err := Call(fmt, accums[id], op);
    }

    /** A call on one accumulator; the others stay as they are. */
    method On(fmt: real -> string, id: string, op: Op) returns (metric: Metrics?, err: Option<Error>)
      requires Valid() && id in accums
      modifies repr
      ensures Valid() && fresh(repr - old(repr)) && accums == old(accums)
      ensures views == old(views)[id := Apply(old(views)[id], op)] && err == ErrorOf(old(views)[id], op)
      ensures metric != null <==> op.StageOp? && !old(views)[id].isStaged && views[id].isStaged
      ensures metric != null ==> fresh(metric) && metric !in repr && Backs(metric, StagedMetric(views[id]))
    {
      assert Looked(id);
      metric, err := Reach(fmt, id, op);
      Absorb(id);
      Settle(id);
    }

    method StoreCounterMetric(fmt: real -> string, id: string, d: int64) returns (err: Option<Error>)
      requires Valid()
      modifies repr
      ensures Valid() && fresh(repr - old(repr)) && Extends(old(accums))
      ensures views == Polled(old(views), id, IncCounter(d)) && err == ErrorOf(AccAt(old(views), id), IncCounter(d))
    {
      err := StoreMetric(fmt, id, IncCounter(d));
    }

    method StoreGaugeMetric(fmt: real -> string, id: string, x: real) returns (err: Option<Error>)
      requires Valid()
      modifies repr
      ensures Valid() && fresh(repr - old(repr)) && Extends(old(accums))
      ensures views == Polled(old(views), id, AddGauge(x)) && err == ErrorOf(AccAt(old(views), id), AddGauge(x))
    {
      err := StoreMetric(fmt, id, AddGauge(x));
    }

    method StoreMetric(fmt: real -> string, id: string, op: Op) returns (err: Option<Error>)
      requires Valid() && Accumulates(op)
      modifies repr
      ensures Valid() && fresh(repr - old(repr)) && Extends(old(accums))
      ensures views == Polled(old(views), id, op) && err == ErrorOf(AccAt(old(views), id), op)
    {
      ghost var before := views;
      var _ := GetOrNew(id);
      ghost var between := views;
      var _, e := On(fmt, id, op);
      CreatedThenPolled(before, between, id, op);
      err := e;
    }

    /** Accumulators are added, never replaced. */
    ghost predicate Extends(had: map<string, MetricAccumulator>)
      reads this
    {
      forall i :: i in had ==> i in accums && accums[i] == had[i]
    }

    /** Any number of pollers at work: errors are only logged there. */
    method Poll(fmt: real -> string, samples: seq<(string, Op)>)
      requires Valid() && forall p :: p in samples ==> Accumulates(p.1)
      modifies repr
      ensures Valid() && fresh(repr - old(repr)) && Extends(old(accums))
      ensures views == PolledAll(old(views), samples)
    {
      ghost var before := views;
      for i := 0 to |samples|
        invariant Valid() && fresh(repr - old(repr))
        invariant Extends(old(accums))
        invariant views == PolledAll(before, samples[..i])
      {
        var (id, op) := samples[i];
        assert samples[i] in samples && samples[..i + 1][..i] == samples[..i];
        if op.IncCounter? {
          var _ := StoreCounterMetric(fmt, id, op.inc);
        } else {
          var _ := StoreGaugeMetric(fmt, id, op.x);
        }
      }
      assert samples[..|samples|] == samples;
    }
  }

  function AccAt(views: map<string, Acc>, id: string): Acc {
    if id in views then views[id] else NewAcc(id)
  }

  function Polled(views: map<string, Acc>, id: string, op: Op): map<string, Acc> {
    views[id := Apply(AccAt(views, id), op)]
  }

  lemma CreatedThenPolled(before: map<string, Acc>, between: map<string, Acc>, id: string, op: Op)
    requires between == if id in before then before else before[id := NewAcc(id)]
    ensures between[id] == AccAt(before, id)
    ensures between[id := Apply(between[id], op)] == Polled(before, id, op)
  {
  }

  function PolledAll(views: map<string, Acc>, samples: seq<(string, Op)>): map<string, Acc> {
    if samples == [] then views
    else
      var p := samples[|samples| - 1];
      Polled(PolledAll(views, samples[..|samples| - 1]), p.0, p.1)
  }

  /** The samples for one ID, in order. */
  function OpsFor(samples: seq<(string, Op)>, id: string): seq<Op> {
    if samples == [] then []
    else
      var p := samples[|samples| - 1];
      OpsFor(samples[..|samples| - 1], id) + if p.0 == id then [p.1] else []
  }

  /** Polling changes each accumulator by its own samples alone. */
  lemma {:induction false} PolledAt(views: map<string, Acc>, samples: seq<(string, Op)>, id: string)
    ensures id in PolledAll(views, samples) <==> id in views || OpsFor(samples, id) != []
    ensures AccAt(PolledAll(views, samples), id) == ApplyAll(AccAt(views, id), OpsFor(samples, id))
    ensures (forall p :: p in samples ==> Accumulates(p.1)) ==>
              forall op :: op in OpsFor(samples, id) ==> Accumulates(op)
  {
    if samples != [] {
      var n := |samples| - 1;
      assert samples[n] in samples && forall p :: p in samples[..n] ==> p in samples;
      PolledAt(views, samples[..n], id);
      var ops, k, op := OpsFor(samples[..n], id), samples[n].0, samples[n].1;
      assert ops + [] == ops;
      assert (ops + [op])[..|ops|] == ops;
      assert OpsFor(samples, id) == if k == id then ops + [op] else ops;
    }
  }
}
