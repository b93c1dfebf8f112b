/** The in-memory store, as transitions on a map and as the object that owns the stored metrics. */
module MemStore {
  import opened Int64
  import opened Model

  datatype Error = IncorrectAccess | MetricNotFound

  type Store = map<string, Metric>

  function AddCounter(s: Store, id: string, d: int64): (Store, Option<Error>) {
    if id !in s then (s[id := CounterMetric(id, d)], None)
    else if s[id].mtype != Counter then (s, Some(IncorrectAccess))
    else (s[id := s[id].(delta := Some(if s[id].delta.Some? then Wrap(s[id].delta.value + d) else d))], None)
  }

  function SetGauge(s: Store, id: string, x: real): (Store, Option<Error>) {
    if id !in s then (s[id := GaugeMetric(id, x)], None)
    else if s[id].mtype != Gauge then (s, Some(IncorrectAccess))
    else (s[id := s[id].(value := Some(x))], None)
  }

  predicate Clashes(s: Store, m: Metric) {
    m.id in s && s[m.id].mtype != m.mtype
  }

  /** One metric of a batch, after validation; a refusal by the store is dropped. */
  function ApplyOne(s: Store, m: Metric): Store {
    if m.mtype == Counter && m.delta.Some? then AddCounter(s, m.id, m.delta.value).0
    else if m.mtype == Gauge && m.value.Some? then SetGauge(s, m.id, m.value.value).0
    else s
  }

  function ApplyAll(s: Store, ms: seq<Metric>): Store {
    if ms == [] then s else ApplyOne(ApplyAll(s, ms[..|ms| - 1]), ms[|ms| - 1])
  }

  function Batched(s: Store, ms: seq<Metric>): (Store, Option<Error>) {
    if exists m :: m in ms && Clashes(s, m) then (s, Some(IncorrectAccess)) else (ApplyAll(s, ms), None)
  }

  function Lookup(s: Store, id: string): (Option<Metric>, Option<Error>) {
    if id in s then (Some(s[id]), None) else (None, Some(MetricNotFound))
  }

  /** Which requests are refused, by the stored type alone, and that a refusal changes nothing. */
  lemma RefusedIff(s: Store, id: string, d: int64, x: real, ms: seq<Metric>)
    ensures AddCounter(s, id, d).1 == if id in s && s[id].mtype != Counter then Some(IncorrectAccess) else None
    ensures SetGauge(s, id, x).1 == if id in s && s[id].mtype != Gauge then Some(IncorrectAccess) else None
    ensures Batched(s, ms).1 == if exists i :: 0 <= i < |ms| && ms[i].id in s && s[ms[i].id].mtype != ms[i].mtype
                                then Some(IncorrectAccess) else None
    ensures AddCounter(s, id, d).1.Some? ==> AddCounter(s, id, d).0 == s
    ensures SetGauge(s, id, x).1.Some? ==> SetGauge(s, id, x).0 == s
    ensures Batched(s, ms).1.Some? ==> Batched(s, ms).0 == s
  {
    if i :| 0 <= i < |ms| && ms[i].id in s && s[ms[i].id].mtype != ms[i].mtype {
      assert ms[i] in ms && Clashes(s, ms[i]);
    } else {
      assert forall m :: m in ms ==> !Clashes(s, m);
    }
  }

  /** Reading finds what is stored and returns an error only if nothing is. */
  lemma LookupFinds(s: Store, id: string)
    ensures id in s ==> Lookup(s, id) == (Some(s[id]), None)
    ensures id !in s ==> Lookup(s, id) == (None, Some(MetricNotFound))
  {
  }

  /** Every metric is stored under its own ID and carries only what its type uses. */
  predicate Sound(s: Store) {
    forall id :: id in s ==> s[id].id == id && WellFormed(s[id])
  }

  datatype Update = Add(id: string, d: int64) | Set(id: string, x: real) | Batch(ms: seq<Metric>)

  function Run(s: Store, u: Update): Store {
    match u
    case Add(id, d) => AddCounter(s, id, d).0
    case Set(id, x) => SetGauge(s, id, x).0
    case Batch(ms) => Batched(s, ms).0
  }

  function RunAll(s: Store, us: seq<Update>): Store {
    if us == [] then s else Run(RunAll(s, us[..|us| - 1]), us[|us| - 1])
  }

  /** What no update takes back: nothing is removed and no metric changes its type. */
  ghost predicate Extends(s': Store, s: Store) {
    forall id :: id in s ==> id in s' && s'[id].mtype == s[id].mtype
  }

  lemma {:induction false} ApplyAllKeeps(s: Store, ms: seq<Metric>)
    requires Sound(s)
    ensures Sound(ApplyAll(s, ms)) && Extends(ApplyAll(s, ms), s)
  {
    if ms != [] {
      ApplyAllKeeps(s, ms[..|ms| - 1]);
    }
  }

  /** The store's invariant, over any run and whatever the batches hold. */
  lemma {:induction false} RunKeeps(s: Store, us: seq<Update>)
    requires Sound(s)
    ensures Sound(RunAll(s, us)) && Extends(RunAll(s, us), s)
  {
    if us != [] {
      var s' := RunAll(s, us[..|us| - 1]);
      RunKeeps(s, us[..|us| - 1]);
      match us[|us| - 1]
      case Batch(ms) => ApplyAllKeeps(s', ms);
      case _ =>
    }
  }

  // ---- order of IDs ----

  /** strings.Compare(a, b) < 0 */
  predicate Less(a: string, b: string) {
    b != "" && (a == "" || a[0] < b[0] || (a[0] == b[0] && Less(a[1..], b[1..])))
  }

  /** Up to position k a and b are the same, and there a ends or has the smaller character. */
  predicate PrecedesAt(a: string, b: string, k: nat) {
    k <= |a| && k < |b| && a[..k] == b[..k] && (k < |a| ==> a[k] < b[k])
  }

  /** The order of IDs is that of the first character in which they differ, an end coming first. */
  lemma {:induction false} LessIff(a: string, b: string)
    ensures Less(a, b) <==> exists k: nat :: PrecedesAt(a, b, k)
  {
    if a != "" && b != "" && a[0] == b[0] {
      LessIff(a[1..], b[1..]);
      if k: nat :| PrecedesAt(a[1..], b[1..], k) {
        assert a[..k + 1] == [a[0]] + a[1..][..k] && b[..k + 1] == [b[0]] + b[1..][..k];
        assert PrecedesAt(a, b, k + 1);
      }
      if k: nat :| PrecedesAt(a, b, k) {
        assert k > 0;
        assert a[1..][..k - 1] == a[..k][1..] && b[1..][..k - 1] == b[..k][1..];
        assert PrecedesAt(a[1..], b[1..], k - 1);
      }
    } else {
      assert Less(a, b) ==> PrecedesAt(a, b, 0);
    }
  }

  lemma {:induction false} LessTotal(a: string, b: string)
    ensures a == b || Less(a, b) || Less(b, a)
    ensures !(Less(a, b) && Less(b, a)) && !Less(a, a)
  {
    if a != "" {
      if b != "" {
        LessTotal(a[1..], b[1..]);
        assert a[0] == b[0] && a[1..] == b[1..] ==> a == [a[0]] + a[1..] == b;
      }
      LessTotal(a[1..], a[1..]);
    }
  }

  lemma {:induction false} LessTransitive(a: string, b: string, c: string)
    requires Less(a, b) && Less(b, c)
    ensures Less(a, c)
  {
    if a != "" && a[0] == b[0] == c[0] {
      LessTransitive(a[1..], b[1..], c[1..]);
    }
  }

  ghost predicate Increasing(ms: seq<Metric>) {
    forall i, j :: 0 <= i < j < |ms| ==> Less(ms[i].id, ms[j].id)
  }

  /** The strictly increasing listing of a store. */
  ghost predicate Lists(ms: seq<Metric>, s: Store) {
    Increasing(ms) && (forall m :: m in ms <==> m.id in s && s[m.id] == m)
  }

  /** A store has one strictly increasing listing. */
  lemma {:induction false} ListingUnique(xs: seq<Metric>, ys: seq<Metric>)
    requires Increasing(xs) && Increasing(ys) && (forall m :: m in xs <==> m in ys)
    ensures xs == ys
  {
    BothEmpty(xs, ys);
    if xs != [] {
      assert xs[0] in ys && ys[0] in xs;
      var i :| 0 <= i < |ys| && ys[i] == xs[0];
      var j :| 0 <= j < |xs| && xs[j] == ys[0];
      LessTotal(xs[0].id, ys[0].id);
      assert i == 0 && j == 0;
      forall m
        ensures m in xs[1..] <==> m in ys[1..]
      {
        TailMember(xs, m);
        TailMember(ys, m);
      }
      ListingUnique(xs[1..], ys[1..]);
      assert xs == [xs[0]] + xs[1..] && ys == [ys[0]] + ys[1..];
    }
  }

  lemma BothEmpty(xs: seq<Metric>, ys: seq<Metric>)
    requires forall m :: m in xs <==> m in ys
    ensures xs == [] <==> ys == []
  {
    if xs != [] {
      assert xs[0] in ys;
    }
    if ys != [] {
      assert ys[0] in xs;
    }
  }

  lemma TailMember(xs: seq<Metric>, m: Metric)
    requires xs != [] && Increasing(xs)
    ensures m in xs[1..] <==> m in xs && m != xs[0]
  {
    LessTotal(xs[0].id, xs[0].id);
    if m in xs && m != xs[0] {
      var k :| 0 <= k < |xs| && xs[k] == m;
      assert xs[1..][k - 1] == m;
    }
  }

  /** What slices.SortFunc does with a list of these IDs: it permutes it, into nondecreasing order. */
  ghost predicate Sorts(order: seq<nat>, ids: seq<string>) {
    && |order| == |ids|
    && (forall i :: 0 <= i < |order| ==> order[i] < |ids|)
    && (forall i, j :: 0 <= i < j < |order| ==> order[i] != order[j])
    && (forall k :: 0 <= k < |ids| ==> k in order)
    && (forall i, j :: 0 <= i < j < |order| ==> !Less(ids[order[j]], ids[order[i]]))
  }

  function IdsOf(ms: seq<Metric>): seq<string> {
    seq(|ms|, i requires 0 <= i < |ms| => ms[i].id)
  }

  function Arranged<T>(xs: seq<T>, order: seq<nat>): seq<T>
    requires forall i :: 0 <= i < |order| ==> order[i] < |xs|
  {
    seq(|order|, i requires 0 <= i < |order| => xs[order[i]])
  }

  /** Whatever sort is used and in whatever order the map is walked, the outcome is the increasing listing. */
  lemma SortedIsListing(out: seq<Metric>, order: seq<nat>, ms: seq<Metric>, s: Store)
    requires Sorts(order, IdsOf(ms)) && |out| == |ms|
    requires forall i :: 0 <= i < |ms| ==> out[i] == ms[order[i]]
    requires forall i, j :: 0 <= i < j < |ms| ==> ms[i].id != ms[j].id
    requires forall m :: m in ms <==> m.id in s && s[m.id] == m
    ensures Lists(out, s)
  {
    forall m
      ensures m in out <==> m in ms
    {
      if m in ms {
        var k :| 0 <= k < |ms| && ms[k] == m;
        assert k in order;
        var i :| 0 <= i < |order| && order[i] == k;
        assert out[i] == m;
      }
    }
    forall i, j | 0 <= i < j < |out|
      ensures Less(out[i].id, out[j].id)
    {
      var k, l := order[i], order[j];
      assert k != l && IdsOf(ms)[k] == ms[k].id && IdsOf(ms)[l] == ms[l].id;
      LessTotal(ms[k].id, ms[l].id);
    }
  }

  lemma {:induction false} Once(xs: seq<Metric>, m: Metric)
    requires forall i, j :: 0 <= i < j < |xs| ==> xs[i].id != xs[j].id
    ensures multiset(xs)[m] <= 1
  {
    if xs != [] {
      assert xs == [xs[0]] + xs[1..];
      Once(xs[1..], m);
      if xs[0] == m {
        assert m !in xs[1..];
      }
    }
  }

  function PutAll(s: Store, ms: seq<Metric>): Store {
    if ms == [] then s else PutAll(s, ms[..|ms| - 1])[ms[|ms| - 1].id := ms[|ms| - 1]]
  }

  // ---- batches of the store's own objects ----

  /**
   What a metric of a batch may be: a caller's, an object of the store's own as `GetByID` hands it out, or a
   caller's whose delta points at the counter the store keeps for an ID.
   */
  datatype Input = Given(m: Metric) | Stored(id: string) | Sharing(m: Metric, id: string)

  predicate Known(s: Store, x: Input) {
    !x.Given? ==> x.id in s
  }

  /** The value of an input when its turn comes. */
  function ValueOf(s: Store, x: Input): Metric
    requires Known(s, x)
  {
    match x
    case Given(m) => m
    case Stored(id) => s[id]
    case Sharing(m, id) => m.(delta := s[id].delta)
  }

  function ApplyInputs(s: Store, xs: seq<Input>): (s': Store)
    requires forall x :: x in xs ==> Known(s, x)
    ensures s.Keys <= s'.Keys
  {
    if xs == [] then s
    else
      var x := xs[|xs| - 1];
      assert x in xs && forall y :: y in xs[..|xs| - 1] ==> y in xs;
      var before := ApplyInputs(s, xs[..|xs| - 1]);
      assert Known(s, x) && (!x.Given? ==> x.id in s.Keys);
      ApplyOne(before, ValueOf(before, x))
  }

  function BatchedInputs(s: Store, xs: seq<Input>): (Store, Option<Error>)
    requires forall x :: x in xs ==> Known(s, x)
  {
    if exists x :: x in xs && Clashes(s, ValueOf(s, x)) then (s, Some(IncorrectAccess)) else (ApplyInputs(s, xs), None)
  }

  function AllGiven(ms: seq<Metric>): seq<Input> {
    seq(|ms|, i requires 0 <= i < |ms| => Given(ms[i]))
  }

  lemma {:induction false} GivenApply(s: Store, ms: seq<Metric>)
    ensures ApplyInputs(s, AllGiven(ms)) == ApplyAll(s, ms)
  {
    if ms != [] {
      var n := |ms| - 1;
      assert AllGiven(ms)[..n] == AllGiven(ms[..n]);
      GivenApply(s, ms[..n]);
    }
  }

  /** Without aliases a batch is the batch of its values. */
  lemma GivenBatch(s: Store, ms: seq<Metric>)
    ensures BatchedInputs(s, AllGiven(ms)) == Batched(s, ms)
  {
    GivenApply(s, ms);
    if m :| m in ms && Clashes(s, m) {
      var i :| 0 <= i < |ms| && ms[i] == m;
      assert AllGiven(ms)[i] == Given(m) && AllGiven(ms)[i] in AllGiven(ms);
      assert Clashes(s, ValueOf(s, Given(m)));
    }
  }

  /** A store's own object is never refused; a counter of it doubles. */
  lemma OwnObjectDoubles(s: Store, id: string)
    requires Sound(s) && id in s
    ensures BatchedInputs(s, [Stored(id)]) ==
            (if s[id].mtype == Counter
               then s[id := CounterMetric(id, Wrap(s[id].delta.value + s[id].delta.value))]
             else s,
             None)
  {
    var xs := [Stored(id)];
    assert Stored(id) in xs && xs[..0] == [];
    assert ApplyInputs(s, xs) == ApplyOne(s, s[id]);
    assert s[id := s[id]] == s;
  }

  // ---- the object ----

  function Increased(m: Metric, d: int64): Metric {
    m.(delta := Some(if m.delta.Some? then Wrap(m.delta.value + d) else d))
  }

  /** Every metric is stored under its own ID. */
  predicate Keyed(s: Store) {
    forall id :: id in s ==> s[id].id == id
  }

  class MemStorage {
    const fmt: real -> string
    var data: map<string, Metrics>
    ghost var contents: Store
    ghost var holder: map<Int64Ref, string> // whose counter it is
    ghost var repr: set<object>

    /** The store owns its objects and counters, shares none between IDs, and `contents` is what they hold. */
    ghost predicate Valid()
      reads this, repr
    {
      && this in repr
      && contents.Keys == data.Keys && Keyed(contents)
      && (forall id {:trigger Looked(id)} :: Looked(id) && id in data ==> Holds(data[id], contents[id]))
      && (forall id {:trigger Looked(id)} :: Looked(id) && id in data ==> data[id].Hashed(fmt))
    }

    ghost predicate Holds(m: Metrics, view: Metric)
      reads this, repr
    {
      && m in repr && m.id == view.id && m.mtype == view.mtype && m.value == view.value
      && (if m.delta == null then view.delta == None
          else m.delta in repr && view.delta == Some(m.delta.v)
               && m.delta in holder && holder[m.delta] == m.id)
      && m.hashed == view
    }

    constructor (fmt: real -> string)
      ensures Valid() && fresh(repr) && contents == map[] && this.fmt == fmt
    {
      this.fmt := fmt;
      data := map[];
      contents, holder := map[], map[];
      repr := {this};
    }

    /** What an update of `id` changes. */
    ghost function Touched(id: string): set<object>
      reads this, if id in data then {data[id]} else {}
    {
      {this} + if id in data then {data[id]} + (if data[id].delta == null then {} else {data[id].delta}) else {}
    }

    /** Objects are added, and keep their counters once they have them. */
    twostate predicate Grown()
      reads this, data.Values
    {
      && fresh(repr - old(repr)) && old(repr) <= repr
      && (forall id {:trigger Looked(id)} :: Looked(id) && id in old(data) ==>
            && id in data && data[id] == old(data[id])
            && (old(data[id].delta) != null ==> data[id].delta == old(data[id].delta))
            && (old(data[id].delta) == null ==> data[id].delta == null || fresh(data[id].delta)))
      && (forall id {:trigger Looked(id)} :: Looked(id) && id in data && id !in old(data) ==>
            fresh(data[id]) && (data[id].delta == null || fresh(data[id].delta)))
    }

    method Insert(m: Metrics)
      requires Valid() && m !in repr && (m.delta == null || m.delta !in repr)
      requires m.hashed == m.View() && m.Hashed(fmt)
      modifies this
      ensures Valid() && repr == old(repr) + {m} + (if m.delta == null then {} else {m.delta})
      ensures data == old(data)[m.id := m]
      ensures contents == old(contents)[m.id := m.View()]
    {
      if m.delta != null {
        Own(m.delta, m.id);
      }
      ghost var v := m.View();
      data := data[m.id := m];
      repr := repr + {m};
      contents := contents[m.id := v];
      assert Holds(m, v);
      assert Keyed(contents);
    }

    /** A counter of the metric to be stored under `id`. */
    ghost method Own(delta: Int64Ref, id: string)
      requires Valid() && delta !in repr
      modifies this`repr, this`holder
      ensures Valid() && repr == old(repr) + {delta}
      ensures holder == old(holder)[delta := id]
    {
      repr := repr + {delta};
      holder := holder[delta := id];
    }

    method Increase(id: string, d: int64)
      requires Valid() && id in data
      modifies Touched(id)
      ensures Valid() && Grown() && data == old(data)
      ensures contents == old(contents)[id := Increased(old(contents)[id], d)]
    {
      var m := data[id];
      assert Looked(id);
      if m.delta == null {
        IncreaseNew(id, d);
      } else {
        IncreaseOld(id, d);
      }
    }

    method IncreaseOld(id: string, d: int64)
      requires Valid() && id in data && data[id].delta != null
      modifies this, data[id], data[id].delta
      ensures Valid() && repr == old(repr) && data == old(data) && data[id].delta == old(data[id].delta)
      ensures contents == old(contents)[id := Increased(old(contents)[id], d)]
    {
      var m := data[id];
      assert Looked(id);
      m.AddCounter(fmt, d);
      contents := contents[id := m.View()];
      assert Looked(id);
    }

    method IncreaseNew(id: string, d: int64)
      requires Valid() && id in data && data[id].delta == null
      modifies this, data[id]
      ensures Valid() && data == old(data) && data[id].delta != null && fresh(data[id].delta)
      ensures repr == old(repr) + {data[id].delta}
      ensures contents == old(contents)[id := Increased(old(contents)[id], d)]
    {
      var m := data[id];
      assert Looked(id);
      m.AddCounter(fmt, d);
      contents := contents[id := m.View()];
      repr := repr + {m.delta};
      holder := holder[m.delta := id];
      assert Looked(id);
    }

    method Replace(id: string, x: real)
      requires Valid() && id in data
      modifies this, data[id]
      ensures Valid() && repr == old(repr) && data == old(data) && data[id].delta == old(data[id].delta)
      ensures contents == old(contents)[id := old(contents)[id].(value := Some(x))]
    {
      var m := data[id];
      assert Looked(id);
      m.SetGauge(fmt, x);
      contents := contents[id := m.View()];
      assert Looked(id);
    }

    method AddCounterInMutex(id: string, d: int64) returns (err: Option<Error>)
      requires Valid()
      modifies Touched(id)
      ensures Valid() && Grown()
      ensures (contents, err) == AddCounter(old(contents), id, d)
    {
      if id !in data {
        var m := new Metrics.CounterWithDelta(fmt, id, d);
        Insert(m);
        return None;
      }
      assert Looked(id);
      if data[id].mtype != Counter {
        return Some(IncorrectAccess);
      }
      Increase(id, d);
      return None;
    }

    method SetGaugeInMutex(id: string, x: real) returns (err: Option<Error>)
      requires Valid()
      modifies Touched(id)
      ensures Valid() && Grown()
      ensures (contents, err) == SetGauge(old(contents), id, x)
    {
      if id !in data {
        var m := new Metrics.GaugeWithValue(fmt, id, x);
        Insert(m);
        return None;
      }
      assert Looked(id);
      if data[id].mtype != Gauge {
        return Some(IncorrectAccess);
      }
      Replace(id, x);
      return None;
    }

    /** The stored object itself is handed out. */
    method GetByID(id: string) returns (m: Metrics?, err: Option<Error>)
      requires Valid()
      ensures m != null ==> m in repr && id in data && m == data[id] && m.hashed == m.View() && m.Hashed(fmt)
      ensures id in data <==> m != null
      ensures err == if id in data then None else Some(MetricNotFound)
      ensures m != null ==> m.View() == contents[id]
    {
      if id !in data {
        return null, Some(MetricNotFound);
      }
      assert Looked(id);
      return data[id], None;
    }

    /** Which input an object is, by what it is and whose counter it points at. */
    ghost predicate Describes(m: Metrics, x: Input)
      reads this, m, m.delta, data.Values
    {
      match x
      case Given(v) =>
        && m.View() == v
        && forall id {:trigger Looked(id)} :: Looked(id) && id in data ==>
             data[id] != m && (m.delta != null ==> data[id].delta != m.delta)
      case Stored(id) => id in data && data[id] == m
      case Sharing(v, id) =>
        && m.id == v.id && m.mtype == v.mtype && m.value == v.value && v.delta == None
        && id in data && m.delta != null && data[id].delta == m.delta
        && forall k {:trigger Looked(k)} :: Looked(k) && k in data ==> data[k] != m
    }

    /** Every object is one of the three, so any batch can be described. */
    lemma SomethingDescribes(m: Metrics) returns (x: Input)
      requires Valid()
      ensures Describes(m, x)
    {
      if id :| id in data && data[id] == m {
        x := Stored(id);
      } else if id :| id in data && m.delta != null && data[id].delta == m.delta {
        x := Sharing(Metric(m.id, m.mtype, None, m.value), id);
      } else {
        x := Given(m.View());
      }
    }

    lemma DescribedShows(m: Metrics, x: Input)
      requires Valid() && Describes(m, x)
      ensures Known(contents, x) && m.View() == ValueOf(contents, x)
    {
      match x
      case Given(_) =>
      case Stored(id) => assert Looked(id);
      case Sharing(_, id) => assert Looked(id);
    }

    ghost predicate AllDescribed(ms: seq<Metrics>, xs: seq<Input>)
      reads this, ms, (set m | m in ms && m.delta != null :: m.delta), data.Values
    {
      |ms| == |xs| && forall i :: 0 <= i < |ms| ==> Describes(ms[i], xs[i])
    }

    method SomeClash(ms: seq<Metrics>, ghost xs: seq<Input>) returns (clash: bool)
      requires Valid() && AllDescribed(ms, xs)
      ensures forall x :: x in xs ==> Known(contents, x)
      ensures clash == exists x :: x in xs && Clashes(contents, ValueOf(contents, x))
    {
      AllKnown(ms, xs);
      for i := 0 to |ms|
        invariant forall k :: 0 <= k < i ==> !Clashes(contents, ValueOf(contents, xs[k]))
      {
        DescribedShows(ms[i], xs[i]);
        assert Looked(ms[i].id);
        if ms[i].id in data && data[ms[i].id].mtype != ms[i].mtype {
          assert Clashes(contents, ValueOf(contents, xs[i])) && xs[i] in xs;
          return true;
        }
      }
      return false;
    }

    lemma AllKnown(ms: seq<Metrics>, xs: seq<Input>)
      requires Valid() && AllDescribed(ms, xs)
      ensures forall x :: x in xs ==> Known(contents, x)
    {
      forall x | x in xs
        ensures Known(contents, x)
      {
        var i :| 0 <= i < |xs| && xs[i] == x;
        DescribedShows(ms[i], xs[i]);
      }
    }

    /** One metric of a batch; what the others are does not change. */
    method StoreOne(m: Metrics, ghost ms: seq<Metrics>, ghost xs: seq<Input>)
      requires Valid() && AllDescribed(ms, xs)
      modifies repr
      ensures Valid() && fresh(repr - old(repr)) && AllDescribed(ms, xs)
      ensures contents == ApplyOne(old(contents), old(m.View()))
    {
      assert Looked(m.id);
      if m.mtype == Counter {
        if m.delta != null {
          var _ := AddCounterInMutex(m.id, m.delta.v);
        }
      } else if m.mtype == Gauge {
        if m.value.Some? {
          var _ := SetGaugeInMutex(m.id, m.value.value);
        }
      }
      forall i | 0 <= i < |ms|
        ensures Describes(ms[i], xs[i])
      {
        assert old(Describes(ms[i], xs[i]));
        assert !xs[i].Given? ==> Looked(xs[i].id);
      }
    }

    /** `xs` says what the metrics are, which may be anything; none that is not stored becomes so. */
    method BatchUpdate(ms: seq<Metrics>, ghost xs: seq<Input>) returns (err: Option<Error>)
      requires Valid() && AllDescribed(ms, xs)
      modifies repr
      ensures Valid() && fresh(repr - old(repr)) && AllDescribed(ms, xs)
      ensures forall x :: x in xs ==> Known(old(contents), x)
      ensures (contents, err) == BatchedInputs(old(contents), xs)
    {
      AllKnown(ms, xs);
      var clash := SomeClash(ms, xs);
      if clash {
        return Some(IncorrectAccess);
      }
      ghost var before := contents;
      for i := 0 to |ms|
        invariant Valid() && fresh(repr - old(repr)) && AllDescribed(ms, xs)
        invariant forall x :: x in xs[..i] ==> x in xs
        invariant contents == ApplyInputs(before, xs[..i])
      {
        assert xs[..i + 1][..i] == xs[..i] && xs[i] in xs;
        DescribedShows(ms[i], xs[i]);
        StoreOne(ms[i], ms, xs);
      }
      assert xs[..|ms|] == xs;
      return None;
    }

    /** `walk` is the order in which the map is walked; the stored objects themselves are handed out. */
    method GetAllSorted(walk: seq<string>, sort: seq<string> -> seq<nat>)
        returns (out: seq<Metrics>, ghost views: seq<Metric>)
      requires Valid()
      requires forall id :: id in walk <==> id in data
      requires forall i, j :: 0 <= i < j < |walk| ==> walk[i] != walk[j]
      requires forall ids :: Sorts(sort(ids), ids)
      ensures |out| == |views| && Lists(views, contents)
      ensures forall i :: 0 <= i < |out| ==>
                views[i].id in data && out[i] == data[views[i].id] && out[i].View() == views[i]
    {
      var mlist, ids;
      ghost var values;
      mlist, ids, values := Collect(walk);
      var order := sort(ids);
      WalkedIsListing(walk, values, order);
      out, views := Arranged(mlist, order), Arranged(values, order);
    }

    method Collect(walk: seq<string>) returns (mlist: seq<Metrics>, ids: seq<string>, ghost values: seq<Metric>)
      requires Valid() && forall id :: id in walk <==> id in data
      ensures |mlist| == |values| == |walk| && ids == walk == IdsOf(values)
      ensures forall k :: 0 <= k < |walk| ==> walk[k] in data && values[k] == contents[walk[k]]
      ensures forall k :: 0 <= k < |walk| ==> mlist[k] == data[walk[k]] && mlist[k].View() == values[k]
    {
      mlist, ids, values := [], [], [];
      for i := 0 to |walk|
        invariant |mlist| == |values| == i && ids == walk[..i]
        invariant forall k :: 0 <= k < i ==> walk[k] in data && values[k] == contents[walk[k]]
        invariant forall k :: 0 <= k < i ==> values[k].id == walk[k]
        invariant forall k :: 0 <= k < i ==> mlist[k] == data[walk[k]] && mlist[k].View() == values[k]
      {
        assert walk[i] in walk;
        assert Looked(walk[i]);
        mlist := mlist + [data[walk[i]]];
        ids := ids + [data[walk[i]].id];
        values := values + [contents[walk[i]]];
      }
      assert walk[..|walk|] == walk;
    }

    /** The values of all stored metrics, put in a sorted order, are the listing. */
    lemma WalkedIsListing(walk: seq<string>, values: seq<Metric>, order: seq<nat>)
      requires Valid() && walk == IdsOf(values) && forall id :: id in walk <==> id in data
      requires forall i, j :: 0 <= i < j < |walk| ==> walk[i] != walk[j]
      requires forall k :: 0 <= k < |walk| ==> walk[k] in data && values[k] == contents[walk[k]]
      requires Sorts(order, walk)
      ensures Lists(Arranged(values, order), contents)
    {
      AllWalked(walk, values);
      SortedIsListing(Arranged(values, order), order, values, contents);
    }

    lemma AllWalked(walk: seq<string>, values: seq<Metric>)
      requires Valid() && |values| == |walk| && forall id :: id in walk <==> id in data
      requires forall k :: 0 <= k < |walk| ==> walk[k] in data && values[k] == contents[walk[k]]
      ensures forall m :: m in values <==> m.id in contents && contents[m.id] == m
    {
      forall m
        ensures m in values <==> m.id in contents && contents[m.id] == m
      {
        if m.id in contents && contents[m.id] == m {
          assert m.id in walk;
          var k :| 0 <= k < |walk| && walk[k] == m.id;
          assert values[k] == m;
        }
      }
    }

    /** Puts metrics from outside into the store as they are, each under its ID; it keeps their counters. */
    method SetAll(ms: seq<Metrics>, ghost views: seq<Metric>)
      requires Valid() && |views| == |ms| && forall i :: 0 <= i < |ms| ==> ms[i].View() == views[i]
      requires forall i :: 0 <= i < |ms| && ms[i].delta != null ==> ms[i].delta !in repr
      requires forall i, j :: 0 <= i < j < |ms| && ms[i].delta != null ==> ms[i].delta != ms[j].delta
      modifies this
      ensures Valid() && contents == PutAll(old(contents), views)
      ensures forall o :: o in repr ==> o in old(repr) || fresh(o) || exists m :: m in ms && o == m.delta
    {
      for i := 0 to |ms|
        invariant Valid() && contents == PutAll(old(contents), views[..i])
        invariant forall o :: o in repr ==> o in old(repr) || fresh(o) || exists k :: 0 <= k < i && o == ms[k].delta
      {
        assert views[..i + 1][..i] == views[..i] && ms[i].View() == views[i];
        var m := new Metrics(fmt, ms[i].id, ms[i].mtype, ms[i].delta, ms[i].value);
        Insert(m);
      }
      assert views[..|ms|] == views;
    }
  }
}
