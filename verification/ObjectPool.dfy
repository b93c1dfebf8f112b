/**
 The pool of resettable objects as an allocator: a queue of free objects, and a constructor called when it is empty.
 */
module ObjectPool {
  import opened Model

  datatype Event<T> = Get(made: T) | Put(item: T)

  /**
   The queue, and in the ghost part of the story: who holds what, everything the constructor made, the most objects
   ever held at once, every object put back and every object handed out again, in order.
   */
  datatype State<T(==)> = State(free: seq<T>, held: set<T>, made: set<T>, peak: nat, puts: seq<T>, reused: seq<T>)

  /** `made` is what the constructor would return if called now. */
  function Next<T>(s: State<T>, e: Event<T>): State<T> {
    match e
    case Get(made) =>
      var item := if s.free != [] then s.free[0] else made;
      var held := s.held + {item};
      State(if s.free != [] then s.free[1..] else [],
            held,
            if s.free != [] then s.made else s.made + {made},
            if |held| > s.peak then |held| else s.peak,
            s.puts,
            if s.free != [] then s.reused + [item] else s.reused)
    case Put(item) => s.(free := s.free + [item], held := s.held - {item}, puts := s.puts + [item])
  }

  function Run<T>(s: State<T>, es: seq<Event<T>>): State<T> {
    if es == [] then s else Next(Run(s, es[..|es| - 1]), es[|es| - 1])
  }

  function Empty<T>(): State<T> {
    State([], {}, {}, 0, [], [])
  }

  /** The constructor makes something new, and only what is held is put back. */
  predicate Fair<T>(s: State<T>, e: Event<T>) {
    match e
    case Get(made) => s.free == [] ==> made !in s.made
    case Put(item) => item in s.held
  }

  predicate FairRun<T>(s: State<T>, es: seq<Event<T>>) {
    es != [] ==> FairRun(s, es[..|es| - 1]) && Fair(Run(s, es[..|es| - 1]), es[|es| - 1])
  }

  predicate Distinct<T(==)>(s: seq<T>) {
    forall i, j :: 0 <= i < j < |s| ==> s[i] != s[j]
  }

  /** Free and held objects are disjoint, together all that were made, and no more were made than ever held at once. */
  predicate Inv<T>(s: State<T>) {
    && Distinct(s.free)
    && Apart(s.free, s.held)
    && Together(s.free, s.held, s.made)
    && |s.made| == s.peak == |s.held| + |s.free|
    && s.reused + s.free == s.puts
  }

  predicate Apart<T>(free: seq<T>, held: set<T>) {
    forall x :: x in held ==> x !in free
  }

  predicate Together<T>(free: seq<T>, held: set<T>, made: set<T>) {
    held <= made && (forall x :: x in free ==> x in made) && forall x :: x in made ==> x in held || x in free
  }

  lemma FirstTaken<T>(free: seq<T>, held: set<T>, made: set<T>)
    requires free != [] && Distinct(free) && Apart(free, held) && Together(free, held, made)
    ensures free[0] !in free[1..] && free[0] !in held
    ensures Distinct(free[1..]) && Apart(free[1..], held + {free[0]}) && Together(free[1..], held + {free[0]}, made)
  {
    assert free == [free[0]] + free[1..];
  }

  lemma GetReusedKeepsInv<T>(s: State<T>, made: T)
    requires Inv(s) && s.free != []
    ensures Inv(Next(s, Get(made)))
    ensures s.free[0] !in s.held
  {
    FirstTaken(s.free, s.held, s.made);
    assert (s.reused + [s.free[0]]) + s.free[1..] == s.reused + s.free;
  }

  lemma GetMadeKeepsInv<T>(s: State<T>, made: T)
    requires Inv(s) && s.free == [] && made !in s.made
    ensures Inv(Next(s, Get(made)))
  {
    assert made !in s.held;
  }

  lemma GetKeepsInv<T>(s: State<T>, made: T)
    requires Inv(s) && Fair(s, Get(made))
    ensures Inv(Next(s, Get(made)))
    ensures (if s.free != [] then s.free[0] else made) !in s.held
  {
    if s.free != [] {
      GetReusedKeepsInv(s, made);
    } else {
      GetMadeKeepsInv(s, made);
    }
  }

  lemma LastGiven<T>(free: seq<T>, held: set<T>, made: set<T>, item: T)
    requires Distinct(free) && Apart(free, held) && Together(free, held, made)
    ensures item in held ==>
              && Distinct(free + [item]) && Apart(free + [item], held - {item})
              && Together(free + [item], held - {item}, made)
    ensures item !in held ==>
              !Distinct(free + [item]) || !Together(free + [item], held - {item}, made)
  {
    var free' := free + [item];
    assert free'[|free|] == item;
    if item !in held && item in made {
      var i :| 0 <= i < |free| && free[i] == item;
      assert free'[i] == free'[|free|];
    }
  }

  /** Putting back keeps the pool in order exactly for a held object: a second Put or a foreign object breaks it. */
  lemma PutKeepsInvIffHeld<T>(s: State<T>, item: T)
    requires Inv(s)
    ensures Inv(Next(s, Put(item))) <==> item in s.held
  {
    LastGiven(s.free, s.held, s.made, item);
    assert s.reused + (s.free + [item]) == (s.reused + s.free) + [item];
  }

  lemma {:induction false} RunKeepsInv<T>(s: State<T>, es: seq<Event<T>>)
    requires Inv(s) && FairRun(s, es)
    ensures Inv(Run(s, es))
  {
    if es != [] {
      var before := es[..|es| - 1];
      RunKeepsInv(s, before);
      match es[|es| - 1]
      case Get(made) => GetKeepsInv(Run(s, before), made);
      case Put(item) => PutKeepsInvIffHeld(Run(s, before), item);
    }
  }

  /** Over any fair run: one constructor call for each object of the peak, and reuse is first in, first out. */
  lemma Allocator<T>(es: seq<Event<T>>)
    requires FairRun(Empty<T>(), es)
    ensures var s := Run(Empty<T>(), es);
            && |s.made| == s.peak
            && Apart(s.free, s.held) && Together(s.free, s.held, s.made) && Distinct(s.free)
            && s.reused <= s.puts
  {
    RunKeepsInv(Empty<T>(), es);
  }

  lemma {:induction false} PeakIsLargestHeld<T>(es: seq<Event<T>>, i: nat)
    requires i <= |es|
    ensures |Run(Empty<T>(), es[..i]).held| <= Run(Empty<T>(), es).peak
  {
    if i == |es| {
      assert es[..i] == es;
      HeldWithinPeak(es);
    } else {
      assert es[..|es| - 1][..i] == es[..i];
      PeakIsLargestHeld(es[..|es| - 1], i);
    }
  }

  lemma {:induction false} HeldWithinPeak<T>(es: seq<Event<T>>)
    ensures |Run(Empty<T>(), es).held| <= Run(Empty<T>(), es).peak
  {
    if es != [] {
      HeldWithinPeak(es[..|es| - 1]);
      var s := Run(Empty<T>(), es[..|es| - 1]);
      match es[|es| - 1]
      case Get(_) =>
      case Put(item) => assert s.held - {item} <= s.held; SubsetCount(s.held - {item}, s.held);
    }
  }

  lemma {:induction false} SubsetCount<T>(a: set<T>, b: set<T>)
    requires a <= b
    ensures |a| <= |b|
  {
    assert b == a + (b - a);
  }

  /** The peak was really reached. */
  lemma {:induction false} PeakReached<T>(es: seq<Event<T>>)
    ensures exists i :: 0 <= i <= |es| && |Run(Empty<T>(), es[..i]).held| == Run(Empty<T>(), es).peak
  {
    assert es[..|es|] == es;
    if es != [] {
      var before := es[..|es| - 1];
      PeakReached(before);
      var i :| 0 <= i <= |before| && |Run(Empty<T>(), before[..i]).held| == Run(Empty<T>(), before).peak;
      assert before[..i] == es[..i];
    }
  }

  /** The pool after n calls of Get. */
  function AfterGets<T>(s: State<T>, made: T, n: nat): State<T> {
    if n == 0 then s else Next(AfterGets(s, made, n - 1), Get(made))
  }

  lemma {:induction false} HandedOut<T>(s: State<T>, made: T, n: nat)
    requires n <= |s.free|
    ensures AfterGets(s, made, n).free == s.free[n..]
    ensures AfterGets(s, made, n).reused == s.reused + s.free[..n]
  {
    if n > 0 {
      HandedOut(s, made, n - 1);
      assert s.free[n - 1..][1..] == s.free[n..] && s.free[n - 1..][0] == s.free[n - 1];
      assert s.free[..n] == s.free[..n - 1] + [s.free[n - 1]];
    }
  }

  lemma TwiceFreeTwiceHandedOut<T>(t: State<T>, i: nat, j: nat, made: T)
    requires i < j < |t.free| && t.free[i] == t.free[j]
    ensures multiset(AfterGets(t, made, |t.free|).reused)[t.free[i]] >= multiset(t.reused)[t.free[i]] + 2
  {
    HandedOut(t, made, |t.free|);
    assert t.free[..|t.free|] == t.free;
    OccursTwice(t.free, i, j);
    CountsAdd(t.reused, t.free, t.free[i]);
  }

  /** Whatever is put back while it is free is handed out twice, whoever holds it the first time. */
  lemma DoublePutSharesObject<T>(s: State<T>, item: T, made: T)
    requires item in s.free
    ensures var t := Next(s, Put(item));
            && !Distinct(t.free)
            && multiset(AfterGets(t, made, |t.free|).reused)[item] >= multiset(s.reused)[item] + 2
  {
    var i :| 0 <= i < |s.free| && s.free[i] == item;
    var t := Next(s, Put(item));
    assert t.free == s.free + [item];
    assert t.free[i] == t.free[|s.free|] == item;
    TwiceFreeTwiceHandedOut(t, i, |s.free|, made);
  }

  lemma CountsAdd<T>(a: seq<T>, b: seq<T>, x: T)
    ensures multiset(a + b)[x] == multiset(a)[x] + multiset(b)[x]
  {
    assert multiset(a + b) == multiset(a) + multiset(b);
  }

  // ---- the pool itself ----

  /** Any object with a state and a Reset of its own. */
  class Item<V> {
    var value: V
    const reset: V -> V

    constructor (value: V, reset: V -> V)
      ensures this.value == value && this.reset == reset
    {
      this.value, this.reset := value, reset;
    }

    method Reset()
      modifies this
      ensures value == reset(old(value))
    {
      value := reset(value);
    }
  }

  class ResettableObjectPool<V> {
    var free: seq<Item<V>>
    ghost var view: State<Item<V>>
    ghost var left: map<Item<V>, V> // how objects were left when they were last put back

    ghost predicate Valid()
      reads this
    {
      free == view.free && forall i :: i in free ==> i in left
    }

    /** Nobody has used an object after putting it back. */
    ghost predicate Untouched()
      requires Valid()
      reads this, free
    {
      forall i :: i in free ==> i.value == left[i]
    }

    constructor ()
      ensures Valid() && Untouched() && view == Empty()
    {
      free := [];
      view, left := Empty(), map[];
    }

    /** `made` is what the constructor function returns if it is called. */
    method Get(made: Item<V>) returns (item: Item<V>)
      requires Valid()
      modifies this
      ensures Valid() && view == Next(old(view), Event.Get(made)) && left == old(left)
      ensures item == if old(free) != [] then old(free)[0] else made
      ensures old(Untouched()) ==> Untouched() && (old(free) != [] ==> item.value == left[item])
    {
      if |free| > 0 {
        item := free[0];
        free := free[1..];
      } else {
        item := made;
      }
      view := Next(view, Event.Get(made));
    }

    method Put(item: Item<V>)
      requires Valid()
      modifies this, item
      ensures Valid() && view == Next(old(view), Event.Put(item))
      ensures item.value == item.reset(old(item.value)) && left == old(left)[item := item.value]
      ensures old(Untouched()) ==> Untouched()
    {
      item.Reset();
      free := free + [item];
      view, left := Next(view, Event.Put(item)), left[item := item.value];
    }
  }

  /** In a pool in order, what is got is held by nobody else, and what is put back must have been held. */
  lemma FairCallsKeepOrder<V>(before: State<Item<V>>, e: Event<Item<V>>)
    requires Inv(before) && Fair(before, e)
    ensures Inv(Next(before, e))
    ensures e.Get? ==> (if before.free != [] then before.free[0] else e.made) !in before.held
  {
    match e
    case Get(made) => GetKeepsInv(before, made);
    case Put(item) => PutKeepsInvIffHeld(before, item);
  }
}
