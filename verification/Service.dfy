/** Delivering metrics to the store one by one or as a batch. */
module Service {
  import opened Int64
  import opened Model
  import opened MemStore

  datatype ServiceError = ValueNotProvided | UnsupportedType | Refused(error: MemStore.Error)

  function Wrapped(r: (Store, Option<MemStore.Error>)): (Store, Option<ServiceError>) {
    (r.0, if r.1.Some? then Some(Refused(r.1.value)) else None)
  }

  function Accumulate(s: Store, m: Metric): (Store, Option<ServiceError>) {
    if m.mtype == Counter then
      if m.delta == None then (s, Some(ValueNotProvided)) else Wrapped(AddCounter(s, m.id, m.delta.value))
    else if m.mtype == Gauge then
      if m.value == None then (s, Some(ValueNotProvided)) else Wrapped(SetGauge(s, m.id, m.value.value))
    else (s, Some(UnsupportedType))
  }

  /** What a single delivery answers, for any metric; an error leaves the store alone. */
  lemma AccumulateAnswers(s: Store, m: Metric)
    ensures m.mtype == Counter ==>
              Accumulate(s, m).1 == if m.delta == None then Some(ValueNotProvided)
                                    else if m.id in s && s[m.id].mtype != Counter then Some(Refused(IncorrectAccess))
                                    else None
    ensures m.mtype == Gauge ==>
              Accumulate(s, m).1 == if m.value == None then Some(ValueNotProvided)
                                    else if m.id in s && s[m.id].mtype != Gauge then Some(Refused(IncorrectAccess))
                                    else None
    ensures m.mtype !in {Counter, Gauge} ==> Accumulate(s, m).1 == Some(UnsupportedType)
    ensures Accumulate(s, m).1.Some? ==> Accumulate(s, m).0 == s
    ensures Accumulate(s, m).1 == None ==>
              Accumulate(s, m).0 == s[m.id := Accumulate(s, m).0[m.id]] && Accumulate(s, m).0[m.id].mtype == m.mtype
  {
  }

  /** The store after delivering each metric on its own, errors ignored. */
  function DeliverEach(s: Store, ms: seq<Metric>): Store {
    if ms == [] then s else Accumulate(DeliverEach(s, ms[..|ms| - 1]), ms[|ms| - 1]).0
  }

  class MetricsService {
    const storage: MemStorage

    constructor (storage: MemStorage)
      ensures this.storage == storage
    {
      this.storage := storage;
    }

    method AccumulateMetric(metric: Metrics) returns (err: Option<ServiceError>)
      requires storage.Valid()
      modifies storage.repr
      ensures storage.Valid() && fresh(storage.repr - old(storage.repr))
      ensures (storage.contents, err) == Accumulate(old(storage.contents), old(metric.View()))
    {
      assert Looked(metric.id);
      if metric.mtype == Counter {
        if metric.delta == null {
          return Some(ValueNotProvided);
        }
        var e := storage.AddCounterInMutex(metric.id, metric.delta.v);
        if e.Some? {
          return Some(Refused(e.value));
        }
      } else if metric.mtype == Gauge {
        if metric.value == None {
          return Some(ValueNotProvided);
        }
        var e := storage.SetGaugeInMutex(metric.id, metric.value.value);
        if e.Some? {
          return Some(Refused(e.value));
        }
      } else {
        return Some(UnsupportedType);
      }
      return None;
    }

    method BatchAccumulateMetrics(metrics: seq<Metrics>, ghost xs: seq<Input>) returns (err: Option<ServiceError>)
      requires storage.Valid() && storage.AllDescribed(metrics, xs)
      modifies storage.repr
      ensures storage.Valid() && fresh(storage.repr - old(storage.repr))
      ensures forall x :: x in xs ==> Known(old(storage.contents), x)
      ensures (storage.contents, err) == Wrapped(BatchedInputs(old(storage.contents), xs))
    {
      var e := storage.BatchUpdate(metrics, xs);
      if e.Some? {
        return Some(Refused(e.value));
      }
      return None;
    }
  }

  // ---- batches against single deliveries ----

  ghost predicate DistinctIds(ms: seq<Metric>) {
    forall i, j :: 0 <= i < j < |ms| ==> ms[i].id != ms[j].id
  }

  function Entry(s: Store, id: string): Option<Metric> {
    if id in s then Some(s[id]) else None
  }

  /** The part of a delivery that matters: it reads and changes the entry of its own ID alone. */
  lemma ApplyOneIsLocal(s: Store, t: Store, m: Metric, id: string)
    requires Entry(s, m.id) == Entry(t, m.id)
    ensures Entry(ApplyOne(s, m), m.id) == Entry(ApplyOne(t, m), m.id)
    ensures id != m.id ==> Entry(ApplyOne(s, m), id) == Entry(s, id)
    ensures Clashes(s, m) ==> ApplyOne(s, m) == s
  {
  }

  /** With distinct IDs every entry comes from the one metric with its ID, applied to the initial store. */
  lemma {:induction false} EntryAfter(s: Store, ms: seq<Metric>, id: string)
    requires DistinctIds(ms)
    ensures forall i | 0 <= i < |ms| && ms[i].id == id :: Entry(ApplyAll(s, ms), id) == Entry(ApplyOne(s, ms[i]), id)
    ensures (forall i | 0 <= i < |ms| :: ms[i].id != id) ==> Entry(ApplyAll(s, ms), id) == Entry(s, id)
  {
    if ms != [] {
      var n := |ms| - 1;
      EntryAfter(s, ms[..n], id);
      ApplyOneIsLocal(ApplyAll(s, ms[..n]), s, ms[n], id) by {
        EntryAfter(s, ms[..n], ms[n].id);
      }
    }
  }

  lemma SameEntries(s: Store, t: Store)
    requires forall id :: Entry(s, id) == Entry(t, id)
    ensures s == t
  {
    forall id
      ensures id in s <==> id in t
      ensures id in s ==> s[id] == t[id]
    {
      assert Entry(s, id) == Entry(t, id);
    }
  }

  /** Metrics with distinct IDs may be delivered in any order, and those that clash change nothing. */
  lemma OrderIrrelevant(s: Store, ms: seq<Metric>, ps: seq<Metric>)
    requires DistinctIds(ms) && DistinctIds(ps)
    requires forall m :: m in ms && !Clashes(s, m) ==> m in ps
    requires forall m :: m in ps ==> m in ms
    ensures ApplyAll(s, ms) == ApplyAll(s, ps)
  {
    forall id
      ensures Entry(ApplyAll(s, ms), id) == Entry(ApplyAll(s, ps), id)
    {
      EntryAfter(s, ms, id);
      EntryAfter(s, ps, id);
      if i :| 0 <= i < |ms| && ms[i].id == id {
        assert ms[i] in ms;
        if ms[i] in ps {
          var j :| 0 <= j < |ps| && ps[j] == ms[i];
        } else {
          ApplyOneIsLocal(s, s, ms[i], id);
          forall j | 0 <= j < |ps|
            ensures ps[j].id != id
          {
            assert ps[j] in ms;
          }
        }
      } else {
        forall j | 0 <= j < |ps|
          ensures ps[j].id != id
        {
          assert ps[j] in ms;
        }
      }
    }
    SameEntries(ApplyAll(s, ms), ApplyAll(s, ps));
  }

  lemma {:induction false} DeliverEachIsApplyAll(s: Store, ms: seq<Metric>)
    ensures DeliverEach(s, ms) == ApplyAll(s, ms)
  {
    if ms != [] {
      DeliverEachIsApplyAll(s, ms[..|ms| - 1]);
    }
  }

  function NotClashing(s: Store, ms: seq<Metric>): seq<Metric> {
    if ms == [] then []
    else NotClashing(s, ms[..|ms| - 1]) + if Clashes(s, ms[|ms| - 1]) then [] else [ms[|ms| - 1]]
  }

  lemma {:induction false} NotClashingMembers(s: Store, ms: seq<Metric>)
    ensures forall m :: m in NotClashing(s, ms) <==> m in ms && !Clashes(s, m)
  {
    if ms != [] {
      var n := |ms| - 1;
      NotClashingMembers(s, ms[..n]);
      assert ms == ms[..n] + [ms[n]];
    }
  }

  lemma {:induction false} NotClashingDistinct(s: Store, ms: seq<Metric>)
    requires DistinctIds(ms)
    ensures DistinctIds(NotClashing(s, ms))
  {
    if ms != [] {
      var n := |ms| - 1;
      NotClashingDistinct(s, ms[..n]);
      NotClashingMembers(s, ms[..n]);
      var kept := NotClashing(s, ms[..n]);
      forall i | 0 <= i < |kept|
        ensures kept[i].id != ms[n].id
      {
        assert kept[i] in kept;
      }
    }
  }

  /**
   Single deliveries of a report, in any order, leave the store as one batch of the metrics that do not clash
   with it would; and such a batch is never refused. With no clash that is the whole report.
   */
  lemma EachEqualsBatch(s: Store, ms: seq<Metric>, ps: seq<Metric>)
    requires DistinctIds(ms) && DistinctIds(ps) && forall m :: m in ps <==> m in ms
    ensures Batched(s, NotClashing(s, ms)) == (DeliverEach(s, ps), None)
    ensures (forall m :: m in ms ==> !Clashes(s, m)) ==> Batched(s, ms) == (DeliverEach(s, ps), None)
  {
    NotClashingMembers(s, ms);
    NotClashingDistinct(s, ms);
    DeliverEachIsApplyAll(s, ps);
    OrderIrrelevant(s, ps, NotClashing(s, ms));
    OrderIrrelevant(s, ps, ms);
  }

  /** A well-formed single delivery fails exactly when its type clashes, then without effect. */
  lemma AccumulateRefusedIffClash(s: Store, m: Metric)
    requires WellFormed(m)
    ensures Accumulate(s, m).1 == (if Clashes(s, m) then Some(Refused(IncorrectAccess)) else None)
    ensures Clashes(s, m) ==> Accumulate(s, m).0 == s
  {
  }

  /** With an ID given twice the order matters: the last gauge value stays. */
  lemma OrderMattersForRepeatedIds()
    ensures var a, b := GaugeMetric("x", 1.0), GaugeMetric("x", 2.0);
            DeliverEach(map[], [a, b]) != DeliverEach(map[], [b, a])
  {
    var a, b := GaugeMetric("x", 1.0), GaugeMetric("x", 2.0);
    forall m | m in {a, b}
      ensures DeliverEach(map[], [m]) == map["x" := m]
    {
      assert [m][..0] == [];
    }
    assert [a, b][..1] == [a] && [b, a][..1] == [b];
    assert DeliverEach(map[], [a, b])["x"] == b && DeliverEach(map[], [b, a])["x"] == a;
  }

  // ---- when the order of deliveries shows ----

  /** Two well-formed deliveries to a store may change places. */
  predicate Commute(s: Store, a: Metric, b: Metric) {
    a.id != b.id || Clashes(s, a) || Clashes(s, b) || (a.mtype == Counter && b.mtype == Counter) || a == b
  }

  lemma TwoCounters(s: Store, a: Metric, b: Metric)
    requires Sound(s) && WellFormed(a) && WellFormed(b) && a.id == b.id && a.mtype == b.mtype == Counter
    ensures ApplyOne(ApplyOne(s, a), b) == ApplyOne(ApplyOne(s, b), a)
  {
    if !Clashes(s, a) {
      var d := if a.id in s then s[a.id].delta.value else 0;
      CountersAdd(s, a, d, b);
      CountersAdd(s, b, d, a);
      assert d + a.delta.value + b.delta.value == d + b.delta.value + a.delta.value;
    }
  }

  lemma CountersAdd(s: Store, a: Metric, d: int64, b: Metric)
    requires WellFormed(a) && WellFormed(b) && a.id == b.id && a.mtype == b.mtype == Counter
    requires if a.id in s then s[a.id] == CounterMetric(a.id, d) else d == 0
    ensures ApplyOne(ApplyOne(s, a), b) == s[a.id := CounterMetric(a.id, Wrap(d + a.delta.value + b.delta.value))]
  {
    WrapIdempotent(a.delta.value);
    assert ApplyOne(s, a) == s[a.id := CounterMetric(a.id, Wrap(d + a.delta.value))];
    WrapAdd(d + a.delta.value, b.delta.value);
  }

  lemma TwoIds(s: Store, a: Metric, b: Metric)
    requires a.id != b.id
    ensures ApplyOne(ApplyOne(s, a), b) == ApplyOne(ApplyOne(s, b), a)
  {
    forall id
      ensures Entry(ApplyOne(ApplyOne(s, a), b), id) == Entry(ApplyOne(ApplyOne(s, b), a), id)
    {
      ApplyOneIsLocal(ApplyOne(s, a), s, b, id);
      ApplyOneIsLocal(ApplyOne(s, b), s, a, id);
      ApplyOneIsLocal(s, s, a, id);
      ApplyOneIsLocal(s, s, b, id);
    }
    SameEntries(ApplyOne(ApplyOne(s, a), b), ApplyOne(ApplyOne(s, b), a));
  }

  lemma OneGaugeShows(s: Store, a: Metric, b: Metric)
    requires Sound(s) && WellFormed(a) && WellFormed(b) && !Commute(s, a, b)
    ensures ApplyOne(ApplyOne(s, a), b) != ApplyOne(ApplyOne(s, b), a)
  {
    var ab, ba := ApplyOne(ApplyOne(s, a), b), ApplyOne(ApplyOne(s, b), a);
    if a.id in s || a.mtype == b.mtype {
      assert ab[a.id].value == b.value && ba[a.id].value == a.value;
    } else {
      assert ab[a.id].mtype == a.mtype && ba[a.id].mtype == b.mtype;
    }
  }

  /** Exactly then their order does not show. */
  lemma CommuteIff(s: Store, a: Metric, b: Metric)
    requires Sound(s) && WellFormed(a) && WellFormed(b)
    ensures ApplyOne(ApplyOne(s, a), b) == ApplyOne(ApplyOne(s, b), a) <==> Commute(s, a, b)
  {
    if a.id != b.id {
      TwoIds(s, a, b);
    } else if a.mtype == b.mtype == Counter {
      TwoCounters(s, a, b);
    } else if !Commute(s, a, b) {
      OneGaugeShows(s, a, b);
    }
  }

  ghost predicate AllWellFormed(ms: seq<Metric>) {
    forall m :: m in ms ==> WellFormed(m)
  }

  ghost predicate AllCommute(s: Store, ms: seq<Metric>) {
    forall a, b :: a in ms && b in ms ==> Commute(s, a, b)
  }

  /** Deliveries take no commutation away, since no type ever changes. */
  lemma StillCommute(s: Store, m: Metric, a: Metric, b: Metric)
    requires Sound(s) && WellFormed(m) && Commute(s, a, b)
    ensures Sound(ApplyOne(s, m)) && Commute(ApplyOne(s, m), a, b)
  {
  }

  lemma {:induction false} StillAllCommute(s: Store, ms: seq<Metric>, a: Metric, b: Metric)
    requires Sound(s) && AllWellFormed(ms) && Commute(s, a, b)
    ensures Sound(ApplyAll(s, ms)) && Commute(ApplyAll(s, ms), a, b)
  {
    if ms != [] {
      var n := |ms| - 1;
      assert ms[n] in ms && forall m :: m in ms[..n] ==> m in ms;
      StillAllCommute(s, ms[..n], a, b);
      StillCommute(ApplyAll(s, ms[..n]), ms[n], a, b);
    }
  }

  lemma OneMore(s: Store, ms: seq<Metric>, m: Metric)
    ensures ApplyAll(s, ms + [m]) == ApplyOne(ApplyAll(s, ms), m)
  {
    assert (ms + [m])[..|ms|] == ms;
  }

  /** A delivery that commutes with all that come after it may come last. */
  lemma {:induction false} MovedLast(s: Store, before: seq<Metric>, m: Metric, behind: seq<Metric>)
    requires Sound(s) && AllWellFormed(before) && WellFormed(m) && AllWellFormed(behind)
    requires forall b :: b in behind ==> Commute(s, m, b)
    ensures ApplyAll(s, before + [m] + behind) == ApplyOne(ApplyAll(s, before + behind), m)
  {
    if behind == [] {
      assert before + [m] + behind == before + [m] && before + behind == before;
      OneMore(s, before, m);
    } else {
      var n := |behind| - 1;
      var last, rest := behind[n], behind[..n];
      assert last in behind && forall b :: b in rest ==> b in behind;
      assert before + [m] + behind == before + [m] + rest + [last] && before + behind == before + rest + [last];
      OneMore(s, before + [m] + rest, last);
      OneMore(s, before + rest, last);
      MovedLast(s, before, m, rest);
      StillAllCommute(s, before + rest, m, last);
      CommuteIff(ApplyAll(s, before + rest), m, last);
    }
  }

  function Without(ms: seq<Metric>, i: nat): seq<Metric>
    requires i < |ms|
  {
    ms[..i] + ms[i + 1..]
  }

  lemma WithoutMembers(ms: seq<Metric>, i: nat)
    requires i < |ms|
    ensures multiset(ms) == multiset(Without(ms, i)) + multiset{ms[i]}
    ensures forall m :: m in Without(ms, i) ==> m in ms
    ensures forall m :: m in ms && m != ms[i] ==> m in Without(ms, i)
  {
    assert ms == ms[..i] + [ms[i]] + ms[i + 1..];
  }

  lemma BothWithout(ms: seq<Metric>, ps: seq<Metric>, n: nat, i: nat)
    requires |ms| == n + 1 && i < |ps| && ps[i] == ms[n] && multiset(ps) == multiset(ms)
    ensures multiset(Without(ps, i)) == multiset(ms[..n])
  {
    WithoutMembers(ps, i);
    assert Without(ms, n) == ms[..n];
    WithoutMembers(ms, n);
    TakenAway(multiset(Without(ps, i)), multiset(ms[..n]), ms[n]);
  }

  /** Deliveries that commute may be made in any order. */
  lemma {:induction false} AnyOrder(s: Store, ms: seq<Metric>, ps: seq<Metric>)
    requires Sound(s) && AllWellFormed(ms) && AllCommute(s, ms) && multiset(ps) == multiset(ms)
    ensures ApplyAll(s, ps) == ApplyAll(s, ms)
  {
    SameMembers(ms, ps);
    if ms != [] {
      var n := |ms| - 1;
      assert ms[n] in ms && forall m :: m in ms[..n] ==> m in ms;
      var i :| 0 <= i < |ps| && ps[i] == ms[n];
      PulledLast(s, ps, i);
      OneMore(s, ms[..n], ms[n]);
      assert ms == ms[..n] + [ms[n]];
      BothWithout(ms, ps, n, i);
      AnyOrder(s, ms[..n], Without(ps, i));
    }
  }

  lemma PulledLast(s: Store, ps: seq<Metric>, i: nat)
    requires Sound(s) && AllWellFormed(ps) && AllCommute(s, ps) && i < |ps|
    ensures ApplyAll(s, ps) == ApplyOne(ApplyAll(s, Without(ps, i)), ps[i])
  {
    var before, m, behind := ps[..i], ps[i], ps[i + 1..];
    assert ps == before + [m] + behind;
    assert m in ps && (forall b :: b in before ==> b in ps) && forall b :: b in behind ==> b in ps;
    MovedLast(s, before, m, behind);
  }

  lemma TakenAway(a: multiset<Metric>, b: multiset<Metric>, m: Metric)
    requires a + multiset{m} == b + multiset{m}
    ensures a == b
  {
    assert a == a + multiset{m} - multiset{m};
  }

  lemma SameMembers(ms: seq<Metric>, ps: seq<Metric>)
    requires multiset(ps) == multiset(ms)
    ensures forall m :: m in ps <==> m in ms
  {
    forall m
      ensures m in ps <==> m in ms
    {
      assert m in ps <==> m in multiset(ps);
    }
  }

  lemma {:induction false} TypeFrom(s: Store, ms: seq<Metric>, id: string)
    requires Sound(s) && id in ApplyAll(s, ms)
    ensures (id in s && s[id].mtype == ApplyAll(s, ms)[id].mtype)
            || exists m :: m in ms && m.id == id && m.mtype == ApplyAll(s, ms)[id].mtype && !Clashes(s, m)
  {
    if ms != [] {
      var n := |ms| - 1;
      ApplyAllKeeps(s, ms[..n]);
      assert ms[n] in ms && forall m :: m in ms[..n] ==> m in ms;
      if id in ApplyAll(s, ms[..n]) {
        TypeFrom(s, ms[..n], id);
      }
    }
  }

  /** The value of a gauge delivered last stays, if nothing of another type came before it. */
  lemma LastGaugeStays(s: Store, ms: seq<Metric>, a: Metric)
    requires Sound(s) && WellFormed(a) && a.mtype == Gauge && !Clashes(s, a)
    requires forall m :: m in ms && m.id == a.id && !Clashes(s, m) ==> m.mtype == Gauge
    ensures a.id in ApplyAll(s, ms + [a]) && ApplyAll(s, ms + [a])[a.id].value == a.value
  {
    OneMore(s, ms, a);
    if a.id in ApplyAll(s, ms) {
      TypeFrom(s, ms, a.id);
    }
  }

  /** The first delivery for a new ID decides its type. */
  lemma FirstTypeStays(s: Store, a: Metric, ms: seq<Metric>)
    requires Sound(s) && WellFormed(a) && a.id !in s
    ensures a.id in ApplyAll(s, [a] + ms) && ApplyAll(s, [a] + ms)[a.id].mtype == a.mtype
    decreases |ms|
  {
    if ms == [] {
      assert [a] + ms == [] + [a];
      OneMore(s, [], a);
    } else {
      var n := |ms| - 1;
      assert [a] + ms == [a] + ms[..n] + [ms[n]];
      FirstTypeStays(s, a, ms[..n]);
      OneMore(s, [a] + ms[..n], ms[n]);
    }
  }

  /** Two orders of the same deliveries that end differently. */
  lemma TwoOrders(s: Store, ms: seq<Metric>, a: Metric, b: Metric) returns (ps: seq<Metric>, qs: seq<Metric>)
    requires Sound(s) && AllWellFormed(ms) && a in ms && b in ms && !Commute(s, a, b)
    ensures multiset(ps) == multiset(ms) == multiset(qs) && ApplyAll(s, ps) != ApplyAll(s, qs)
  {
    if c, d :| c in ms && d in ms && c.id == d.id == a.id && c.mtype != d.mtype && !Clashes(s, c) && !Clashes(s, d) {
      ps, qs := FirstDecides(s, ms, c, d);
    } else {
      ps, qs := LastDecides(s, ms, a, b);
    }
  }

  lemma PutBack(all: multiset<Metric>, others: multiset<Metric>, rest: multiset<Metric>, a: Metric, b: Metric)
    requires all == others + multiset{a} && others == rest + multiset{b}
    ensures rest + multiset{b} + multiset{a} == all == rest + multiset{a} + multiset{b}
  {
  }

  lemma LastDecides(s: Store, ms: seq<Metric>, a: Metric, b: Metric) returns (ps: seq<Metric>, qs: seq<Metric>)
    requires Sound(s) && AllWellFormed(ms) && a in ms && b in ms
    requires a.id == b.id && a.mtype == b.mtype == Gauge && a != b
    requires forall m :: m in ms && m.id == a.id && !Clashes(s, m) ==> m.mtype == Gauge
    requires !Clashes(s, a)
    ensures multiset(ps) == multiset(ms) == multiset(qs) && ApplyAll(s, ps) != ApplyAll(s, qs)
  {
    var i :| 0 <= i < |ms| && ms[i] == a;
    WithoutMembers(ms, i);
    var others := Without(ms, i);
    var j :| 0 <= j < |others| && others[j] == b;
    WithoutMembers(others, j);
    var rest := Without(others, j);
    ps, qs := rest + [b] + [a], rest + [a] + [b];
    PutBack(multiset(ms), multiset(others), multiset(rest), a, b);
    LastGaugeStays(s, rest + [b], a);
    LastGaugeStays(s, rest + [a], b);
  }

  lemma FirstDecides(s: Store, ms: seq<Metric>, c: Metric, d: Metric) returns (ps: seq<Metric>, qs: seq<Metric>)
    requires Sound(s) && AllWellFormed(ms) && c in ms && d in ms
    requires c.id == d.id && c.mtype != d.mtype && !Clashes(s, c) && !Clashes(s, d)
    ensures multiset(ps) == multiset(ms) == multiset(qs) && ApplyAll(s, ps) != ApplyAll(s, qs)
  {
    var i :| 0 <= i < |ms| && ms[i] == c;
    var j :| 0 <= j < |ms| && ms[j] == d;
    WithoutMembers(ms, i);
    WithoutMembers(ms, j);
    ps, qs := [c] + Without(ms, i), [d] + Without(ms, j);
    FirstTypeStays(s, c, Without(ms, i));
    FirstTypeStays(s, d, Without(ms, j));
  }

  /** The order of deliveries never shows if and only if all of them commute in pairs. */
  lemma OrderIrrelevantIff(s: Store, ms: seq<Metric>)
    requires Sound(s) && AllWellFormed(ms)
    ensures (forall ps :: multiset(ps) == multiset(ms) ==> ApplyAll(s, ps) == ApplyAll(s, ms)) <==> AllCommute(s, ms)
  {
    if AllCommute(s, ms) {
      forall ps | multiset(ps) == multiset(ms)
        ensures ApplyAll(s, ps) == ApplyAll(s, ms)
      {
        AnyOrder(s, ms, ps);
      }
    } else {
      var a, b :| a in ms && b in ms && !Commute(s, a, b);
      var ps, qs := TwoOrders(s, ms, a, b);
      assert ApplyAll(s, ps) != ApplyAll(s, ms) || ApplyAll(s, qs) != ApplyAll(s, ms);
    }
  }

  /** A batch that is not refused equals single deliveries in every order exactly then, IDs repeated or not. */
  lemma EveryOrderEqualsBatchIff(s: Store, ms: seq<Metric>)
    requires Sound(s) && AllWellFormed(ms) && forall m :: m in ms ==> !Clashes(s, m)
    ensures (forall ps :: multiset(ps) == multiset(ms) ==> Batched(s, ms) == (DeliverEach(s, ps), None))
       <==> AllCommute(s, ms)
  {
    OrderIrrelevantIff(s, ms);
    forall ps | multiset(ps) == multiset(ms)
      ensures Batched(s, ms) == (DeliverEach(s, ps), None) <==> ApplyAll(s, ps) == ApplyAll(s, ms)
    {
      DeliverEachIsApplyAll(s, ps);
    }
    if !AllCommute(s, ms) {
      var ps :| multiset(ps) == multiset(ms) && ApplyAll(s, ps) != ApplyAll(s, ms);
      assert !(Batched(s, ms) == (DeliverEach(s, ps), None));
    } else {
      forall ps | multiset(ps) == multiset(ms)
        ensures Batched(s, ms) == (DeliverEach(s, ps), None)
      {
        assert ApplyAll(s, ps) == ApplyAll(s, ms);
      }
    }
  }
}
