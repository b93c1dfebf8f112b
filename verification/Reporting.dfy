/**
 The two executors. The worker pool is a transition system: a feeder goroutine, a bounded channel of tasks,
 `rate` workers, a bounded channel of results, and the collecting caller of Execute.
 */
module Reporting {
  import opened Model

  /** What a worker posts: the ID sent and whether the send returned nil. */
  datatype Sent = Sent(id: string, ok: bool)

  datatype Worker = Idle | Holding(m: Metric) | Posting(r: Sent)

  /** `ms` is the argument of the Execute that runs or ran last; `collected` what its caller has received. */
  datatype Pool = Pool(
    rate: nat,
    ms: seq<Metric>,
    unfed: seq<Metric>,
    tasks: seq<Metric>,
    workers: seq<Worker>,
    results: seq<Sent>,
    collected: seq<Sent>,
    running: bool,
    closed: bool)

  datatype Step =
    | Begin(ms: seq<Metric>)
    | Feed
    | Take(w: nat)
    | Send(w: nat, ok: bool)
    | Post(w: nat)
    | Collect
    | Return
    | Shutdown

  function NewPool(rate: nat): Pool {
    Pool(rate, [], [], [], seq(rate, _ => Idle), [], [], false, false)
  }

  /** When a goroutine can move. A channel send waits for room, a receive for an element. */
  predicate Enabled(p: Pool, s: Step) {
    match s
    case Begin(ms) => !p.running && !p.closed
    case Feed => p.unfed != [] && |p.tasks| < p.rate
    case Take(w) => w < |p.workers| && p.workers[w].Idle? && p.tasks != []
    case Send(w, ok) => w < |p.workers| && p.workers[w].Holding?
    case Post(w) => w < |p.workers| && p.workers[w].Posting? && |p.results| < p.rate
    case Collect => p.running && |p.collected| < |p.ms| && p.results != []
    case Return => p.running && |p.collected| == |p.ms|
    case Shutdown => !p.running && !p.closed
  }

  function Next(p: Pool, s: Step): Pool
    requires Enabled(p, s)
  {
    match s
    case Begin(ms) => p.(ms := ms, unfed := p.unfed + ms, collected := [], running := true)
    case Feed => p.(unfed := p.unfed[1..], tasks := p.tasks + [p.unfed[0]])
    case Take(w) => p.(tasks := p.tasks[1..], workers := p.workers[w := Holding(p.tasks[0])])
    case Send(w, ok) => p.(workers := p.workers[w := Posting(Sent(p.workers[w].m.id, ok))])
    case Post(w) => p.(results := p.results + [p.workers[w].r], workers := p.workers[w := Idle])
    case Collect => p.(results := p.results[1..], collected := p.collected + [p.results[0]])
    case Return => p.(running := false)
    case Shutdown => p.(closed := true)
  }

  /** The steps of one Execute between its call and its return. */
  predicate Internal(s: Step) {
    !s.Begin? && !s.Return? && !s.Shutdown?
  }

  // ---- where the metrics are ----

  function Ids(ms: seq<Metric>): seq<string> {
    seq(|ms|, i requires 0 <= i < |ms| => ms[i].id)
  }

  function SentIds(rs: seq<Sent>): seq<string> {
    seq(|rs|, i requires 0 <= i < |rs| => rs[i].id)
  }

  function HeldBy(w: Worker): multiset<Metric> {
    if w.Holding? then multiset{w.m} else multiset{}
  }

  function PostedBy(w: Worker): multiset<Sent> {
    if w.Posting? then multiset{w.r} else multiset{}
  }

  function IdAt(w: Worker): multiset<string> {
    match w
    case Idle => multiset{}
    case Holding(m) => multiset{m.id}
    case Posting(r) => multiset{r.id}
  }

  function Total<T>(share: Worker -> multiset<T>, ws: seq<Worker>): multiset<T> {
    if ws == [] then multiset{} else share(ws[0]) + Total(share, ws[1..])
  }

  /** Metrics whose send has not been made yet. */
  function Unsent(p: Pool): multiset<Metric> {
    multiset(p.unfed) + multiset(p.tasks) + Total(HeldBy, p.workers)
  }

  /** Outcomes of the sends that were made. */
  function Outcomes(p: Pool): multiset<Sent> {
    multiset(p.results) + multiset(p.collected) + Total(PostedBy, p.workers)
  }

  /** The IDs in all five places: unfed, queued, with a worker, posted, collected. */
  function Traffic(p: Pool): multiset<string> {
    multiset(Ids(p.unfed)) + multiset(Ids(p.tasks)) + multiset(SentIds(p.results)) + multiset(SentIds(p.collected))
    + Total(IdAt, p.workers)
  }

  function Without(ws: seq<Worker>, w: nat): seq<Worker>
    requires w < |ws|
  {
    ws[..w] + ws[w + 1..]
  }

  lemma Exchange<T>(a: multiset<T>, b: multiset<T>, c: multiset<T>)
    ensures a + (b + c) == b + (a + c)
  {
  }

  lemma TakenOut<T>(a: multiset<T>, b: multiset<T>, c: multiset<T>)
    ensures a + (b + c) - b == a + c
  {
  }

  lemma {:induction false} SetAside<T>(share: Worker -> multiset<T>, ws: seq<Worker>, w: nat)
    requires w < |ws|
    ensures Total(share, ws) == share(ws[w]) + Total(share, Without(ws, w))
  {
    if w == 0 {
      assert Without(ws, w) == ws[1..];
    } else {
      SetAside(share, ws[1..], w - 1);
      var others := Without(ws[1..], w - 1);
      assert Without(ws, w) == [ws[0]] + others && Without(ws, w)[1..] == others;
      Exchange(share(ws[0]), share(ws[w]), Total(share, others));
    }
  }

  /** Replacing one worker exchanges its share of a total. */
  lemma Replaced<T>(share: Worker -> multiset<T>, ws: seq<Worker>, w: nat, v: Worker) returns (rest: multiset<T>)
    requires w < |ws|
    ensures Total(share, ws) == share(ws[w]) + rest && Total(share, ws[w := v]) == share(v) + rest
  {
    SetAside(share, ws, w);
    SetAside(share, ws[w := v], w);
    assert Without(ws, w) == Without(ws[w := v], w);
    rest := Total(share, Without(ws, w));
  }

  lemma FrontMoved<T>(a: seq<T>, b: seq<T>)
    requires a != []
    ensures multiset(a[1..]) + multiset(b + [a[0]]) == multiset(a) + multiset(b)
    ensures multiset(a) == multiset{a[0]} + multiset(a[1..])
  {
    assert a == [a[0]] + a[1..];
  }

  lemma TakeEffect(p: Pool, w: nat)
    requires Enabled(p, Take(w))
    ensures Unsent(Next(p, Take(w))) == Unsent(p) && Outcomes(Next(p, Take(w))) == Outcomes(p)
  {
    FrontMoved(p.tasks, []);
    var _ := Replaced(HeldBy, p.workers, w, Holding(p.tasks[0]));
    var _ := Replaced(PostedBy, p.workers, w, Holding(p.tasks[0]));
  }

  lemma PostEffect(p: Pool, w: nat)
    requires Enabled(p, Post(w))
    ensures Unsent(Next(p, Post(w))) == Unsent(p) && Outcomes(Next(p, Post(w))) == Outcomes(p)
  {
    var _ := Replaced(HeldBy, p.workers, w, Idle);
    var _ := Replaced(PostedBy, p.workers, w, Idle);
  }

  /** A metric a worker holds is unsent. */
  lemma HeldIsUnsent(p: Pool, w: nat)
    requires w < |p.workers| && p.workers[w].Holding?
    ensures p.workers[w].m in Unsent(p)
  {
    SetAside(HeldBy, p.workers, w);
  }

  lemma SendUnsent(p: Pool, w: nat, ok: bool)
    requires Enabled(p, Send(w, ok))
    ensures p.workers[w].m in Unsent(p)
    ensures Unsent(Next(p, Send(w, ok))) == Unsent(p) - multiset{p.workers[w].m}
  {
    var m := p.workers[w].m;
    var hs := Replaced(HeldBy, p.workers, w, Posting(Sent(m.id, ok)));
    TakenOut(multiset(p.unfed) + multiset(p.tasks), multiset{m}, hs);
  }

  lemma SendOutcomes(p: Pool, w: nat, ok: bool)
    requires Enabled(p, Send(w, ok))
    ensures Outcomes(Next(p, Send(w, ok))) == Outcomes(p) + multiset{Sent(p.workers[w].m.id, ok)}
  {
    var v := Posting(Sent(p.workers[w].m.id, ok));
    var rs := Replaced(PostedBy, p.workers, w, v);
    Exchange(multiset{v.r}, multiset(p.results) + multiset(p.collected), rs);
  }

  lemma SendEffect(p: Pool, w: nat, ok: bool)
    requires Enabled(p, Send(w, ok))
    ensures p.workers[w].m in Unsent(p)
    ensures Unsent(Next(p, Send(w, ok))) == Unsent(p) - multiset{p.workers[w].m}
    ensures Outcomes(Next(p, Send(w, ok))) == Outcomes(p) + multiset{Sent(p.workers[w].m.id, ok)}
  {
    SendUnsent(p, w, ok);
    SendOutcomes(p, w, ok);
  }

  /**
   A send turns one unsent metric into one outcome with its ID. Every other step inside an Execute only
   moves things between channels, workers and the collector.
   */
  lemma StepEffect(p: Pool, s: Step)
    requires Enabled(p, s) && !s.Begin?
    ensures s.Send? ==>
              && p.workers[s.w].m in Unsent(p)
              && Unsent(Next(p, s)) == Unsent(p) - multiset{p.workers[s.w].m}
              && Outcomes(Next(p, s)) == Outcomes(p) + multiset{Sent(p.workers[s.w].m.id, s.ok)}
    ensures !s.Send? ==> Unsent(Next(p, s)) == Unsent(p) && Outcomes(Next(p, s)) == Outcomes(p)
  {
    match s
    case Feed => FrontMoved(p.unfed, p.tasks);
    case Take(w) => TakeEffect(p, w);
    case Send(w, ok) => SendEffect(p, w, ok);
    case Post(w) => PostEffect(p, w);
    case Collect => FrontMoved(p.results, p.collected);
    case _ =>
  }

  lemma FrontIds(ms: seq<Metric>, queue: seq<Metric>)
    requires ms != []
    ensures multiset(Ids(ms)) == multiset{ms[0].id} + multiset(Ids(ms[1..]))
    ensures multiset(Ids(queue + [ms[0]])) == multiset(Ids(queue)) + multiset{ms[0].id}
  {
    assert Ids(ms) == [ms[0].id] + Ids(ms[1..]);
    assert Ids(queue + [ms[0]]) == Ids(queue) + [ms[0].id];
  }

  lemma SentIdsAppend(rs: seq<Sent>, r: Sent)
    ensures SentIds(rs + [r]) == SentIds(rs) + [r.id]
  {
  }

  lemma FeedKeepsTraffic(p: Pool)
    requires Enabled(p, Feed)
    ensures Traffic(Next(p, Feed)) == Traffic(p)
  {
    FrontIds(p.unfed, p.tasks);
  }

  lemma TakeKeepsTraffic(p: Pool, w: nat)
    requires Enabled(p, Take(w))
    ensures Traffic(Next(p, Take(w))) == Traffic(p)
  {
    FrontIds(p.tasks, []);
    var _ := Replaced(IdAt, p.workers, w, Holding(p.tasks[0]));
  }

  lemma SendKeepsTraffic(p: Pool, w: nat, ok: bool)
    requires Enabled(p, Send(w, ok))
    ensures Traffic(Next(p, Send(w, ok))) == Traffic(p)
  {
    var _ := Replaced(IdAt, p.workers, w, Posting(Sent(p.workers[w].m.id, ok)));
  }

  lemma PostKeepsTraffic(p: Pool, w: nat)
    requires Enabled(p, Post(w))
    ensures Traffic(Next(p, Post(w))) == Traffic(p)
  {
    SentIdsAppend(p.results, p.workers[w].r);
    var _ := Replaced(IdAt, p.workers, w, Idle);
  }

  lemma CollectKeepsTraffic(p: Pool)
    requires Enabled(p, Collect)
    ensures Traffic(Next(p, Collect)) == Traffic(p)
  {
    assert SentIds(p.results) == [p.results[0].id] + SentIds(p.results[1..]);
    SentIdsAppend(p.collected, p.results[0]);
  }

  lemma StepKeepsTraffic(p: Pool, s: Step)
    requires Internal(s) && Enabled(p, s)
    ensures Traffic(Next(p, s)) == Traffic(p)
  {
    match s
    case Feed => FeedKeepsTraffic(p);
    case Take(w) => TakeKeepsTraffic(p, w);
    case Send(w, ok) => SendKeepsTraffic(p, w, ok);
    case Post(w) => PostKeepsTraffic(p, w);
    case Collect => CollectKeepsTraffic(p);
  }

  // ---- what every run keeps ----

  /** No metric, no result and no busy worker is left over. */
  predicate Quiescent(p: Pool) {
    p.unfed == [] && p.tasks == [] && p.results == [] && forall w | 0 <= w < |p.workers| :: p.workers[w].Idle?
  }

  predicate Inv(p: Pool) {
    && |p.workers| == p.rate
    && |p.tasks| <= p.rate && |p.results| <= p.rate
    && |p.collected| <= |p.ms|
    && Traffic(p) == multiset(Ids(p.ms))
    && (!p.running ==> |p.collected| == |p.ms|)
    && (p.closed ==> !p.running)
  }

  lemma {:induction false} Busy(ws: seq<Worker>)
    ensures |Total(IdAt, ws)| == |Total(HeldBy, ws)| + |Total(PostedBy, ws)|
  {
    if ws != [] {
      Busy(ws[1..]);
      assert |IdAt(ws[0])| == |HeldBy(ws[0])| + |PostedBy(ws[0])|;
    }
  }

  lemma {:induction false} AllIdle(ws: seq<Worker>)
    ensures |Total(IdAt, ws)| == 0 <==> forall w | 0 <= w < |ws| :: ws[w].Idle?
  {
    if ws != [] {
      AllIdle(ws[1..]);
      assert |Total(IdAt, ws)| == |IdAt(ws[0])| + |Total(IdAt, ws[1..])|;
      assert forall w | 1 <= w < |ws| :: ws[w] == ws[1..][w - 1];
    }
  }

  lemma {:induction false} NewPoolInv(rate: nat)
    ensures Inv(NewPool(rate)) && Quiescent(NewPool(rate))
  {
    AllIdle(NewPool(rate).workers);
  }

  lemma TrafficSize(p: Pool)
    ensures |Traffic(p)| == |p.unfed| + |p.tasks| + |p.results| + |p.collected| + |Total(IdAt, p.workers)|
  {
  }

  /** When all results are in, nothing is left behind, and the IDs collected are exactly those asked for. */
  lemma CollectedAll(p: Pool)
    requires Inv(p) && |p.collected| == |p.ms|
    ensures Quiescent(p) && multiset(SentIds(p.collected)) == multiset(Ids(p.ms))
  {
    TrafficSize(p);
    AllIdle(p.workers);
  }

  /** A starting Execute finds no leftovers: only its own metrics are unsent and no outcome is there. */
  lemma BeginEffect(p: Pool, ms: seq<Metric>)
    requires Inv(p) && Enabled(p, Begin(ms))
    ensures Unsent(Next(p, Begin(ms))) == multiset(ms) && Outcomes(Next(p, Begin(ms))) == multiset{}
  {
    CollectedAll(p);
    AllIdle(p.workers);
    Busy(p.workers);
    assert Total(HeldBy, p.workers) == multiset{} && Total(PostedBy, p.workers) == multiset{};
    assert Next(p, Begin(ms)).unfed == ms;
  }

  lemma ReturnEffect(p: Pool)
    requires Inv(p) && Enabled(p, Return)
    ensures Outcomes(p) == multiset(p.collected)
  {
    CollectedAll(p);
    AllIdle(p.workers);
    Busy(p.workers);
    assert Total(PostedBy, p.workers) == multiset{};
  }

  lemma NoneUnsentAtReturn(p: Pool)
    requires Inv(p) && Enabled(p, Return)
    ensures Unsent(p) == multiset{}
  {
    CollectedAll(p);
    AllIdle(p.workers);
    Busy(p.workers);
    assert Total(HeldBy, p.workers) == multiset{};
  }

  lemma BeginKeepsInv(p: Pool, ms: seq<Metric>)
    requires Inv(p) && Enabled(p, Begin(ms))
    ensures Inv(Next(p, Begin(ms)))
  {
    CollectedAll(p);
    AllIdle(p.workers);
    assert Next(p, Begin(ms)).unfed == ms;
  }

  lemma InternalKeepsInv(p: Pool, s: Step)
    requires Inv(p) && Enabled(p, s) && Internal(s)
    ensures Inv(Next(p, s))
  {
    StepKeepsTraffic(p, s);
  }

  lemma StepKeepsInv(p: Pool, s: Step)
    requires Inv(p) && Enabled(p, s)
    ensures Inv(Next(p, s))
  {
    if s.Begin? {
      BeginKeepsInv(p, s.ms);
    } else if Internal(s) {
      InternalKeepsInv(p, s);
    }
  }

  /** A run: steps in any order in which they are enabled, over any number of Executes and a Shutdown. */
  ghost predicate IsRun(ps: seq<Pool>, ss: seq<Step>) {
    && |ps| == |ss| + 1
    && forall i | 0 <= i < |ss| :: Enabled(ps[i], ss[i]) && ps[i + 1] == Next(ps[i], ss[i])
  }

  lemma {:induction false} RunKeepsInv(ps: seq<Pool>, ss: seq<Step>, i: nat)
    requires IsRun(ps, ss) && ps[0] == NewPool(ps[0].rate) && i <= |ss|
    ensures Inv(ps[i])
  {
    if i == 0 {
      NewPoolInv(ps[0].rate);
    } else {
      RunKeepsInv(ps, ss, i - 1);
      StepKeepsInv(ps[i - 1], ss[i - 1]);
    }
  }

  lemma ClosedIsSilent(p: Pool, s: Step)
    requires Inv(p) && p.closed
    ensures !Enabled(p, s)
  {
    CollectedAll(p);
  }

  /**
   In every run from a new pool, a return hands back exactly the IDs of its own call and leaves nothing for
   a later one; and after Shutdown no goroutine moves, so none sends on a closed channel.
   */
  lemma NothingLeaks(ps: seq<Pool>, ss: seq<Step>, i: nat)
    requires IsRun(ps, ss) && ps[0] == NewPool(ps[0].rate) && i < |ss|
    ensures ss[i].Return? ==>
              Quiescent(ps[i]) && multiset(SentIds(ps[i].collected)) == multiset(Ids(ps[i].ms))
    ensures !ps[i].closed
  {
    RunKeepsInv(ps, ss, i);
    if ss[i].Return? {
      CollectedAll(ps[i]);
    }
    if ps[i].closed {
      ClosedIsSilent(ps[i], ss[i]);
    }
  }

  // ---- progress ----

  lemma Counted(p: Pool)
    requires Inv(p)
    ensures |p.unfed| + |p.tasks| + |p.results| + |p.collected|
            + |Total(HeldBy, p.workers)| + |Total(PostedBy, p.workers)| == |p.ms|
  {
    TrafficSize(p);
    Busy(p.workers);
  }

  /** Steps still to be made by the running Execute: five for a metric, fewer the further it has come. */
  function Remaining(p: Pool): nat {
    5 * |p.unfed| + 4 * |p.tasks| + 3 * |Total(HeldBy, p.workers)| + 2 * |Total(PostedBy, p.workers)| + |p.results|
  }

  /** No deadlock: while results are missing some goroutine can move, whatever the batch length. */
  lemma Progress(p: Pool) returns (s: Step)
    requires Inv(p) && p.rate >= 1 && p.running && |p.collected| < |p.ms|
    ensures Internal(s) && Enabled(p, s)
  {
    if p.results != [] {
      return Collect;
    }
    if w :| 0 <= w < |p.workers| && p.workers[w].Posting? {
      return Post(w);
    }
    if w :| 0 <= w < |p.workers| && p.workers[w].Holding? {
      return Send(w, true);
    }
    AllIdle(p.workers);
    TrafficSize(p);
    if p.tasks != [] {
      return Take(0);
    }
    return Feed;
  }

  /** Replacing one worker's share changes the size of a total by the difference of the shares. */
  lemma ReplacedSize<T>(share: Worker -> multiset<T>, ws: seq<Worker>, w: nat, v: Worker)
    requires w < |ws|
    ensures |Total(share, ws[w := v])| + |share(ws[w])| == |Total(share, ws)| + |share(v)|
  {
    var _ := Replaced(share, ws, w, v);
  }

  lemma TakeUsesOne(p: Pool, w: nat)
    requires Enabled(p, Take(w))
    ensures Remaining(Next(p, Take(w))) == Remaining(p) - 1
  {
    ReplacedSize(HeldBy, p.workers, w, Holding(p.tasks[0]));
    ReplacedSize(PostedBy, p.workers, w, Holding(p.tasks[0]));
  }

  lemma SendUsesOne(p: Pool, w: nat, ok: bool)
    requires Enabled(p, Send(w, ok))
    ensures Remaining(Next(p, Send(w, ok))) == Remaining(p) - 1
  {
    ReplacedSize(HeldBy, p.workers, w, Posting(Sent(p.workers[w].m.id, ok)));
    ReplacedSize(PostedBy, p.workers, w, Posting(Sent(p.workers[w].m.id, ok)));
  }

  lemma PostUsesOne(p: Pool, w: nat)
    requires Enabled(p, Post(w))
    ensures Remaining(Next(p, Post(w))) == Remaining(p) - 1
  {
    ReplacedSize(HeldBy, p.workers, w, Idle);
    ReplacedSize(PostedBy, p.workers, w, Idle);
  }

  /** Each step uses up exactly one of the remaining ones. */
  lemma StepUsesOne(p: Pool, s: Step)
    requires Internal(s) && Enabled(p, s)
    ensures Remaining(Next(p, s)) == Remaining(p) - 1
  {
    match s
    case Take(w) => TakeUsesOne(p, w);
    case Send(w, ok) => SendUsesOne(p, w, ok);
    case Post(w) => PostUsesOne(p, w);
    case _ =>
  }

  lemma AllCollectedIff(p: Pool)
    requires |p.unfed| + |p.tasks| + |p.results| + |p.collected|
             + |Total(HeldBy, p.workers)| + |Total(PostedBy, p.workers)| == |p.ms|
    ensures |p.collected| == |p.ms| <==> Remaining(p) == 0
  {
  }

  lemma DoneWhenNothingRemains(p: Pool)
    requires Inv(p) && p.running
    ensures Enabled(p, Return) <==> Remaining(p) == 0
  {
    Counted(p);
    AllCollectedIff(p);
  }

  /** An Execute of n metrics makes exactly 5n steps before it can return, on every schedule. */
  lemma {:induction false} ExecuteTakesFiveStepsEach(ps: seq<Pool>, ss: seq<Step>, n: nat)
    requires IsRun(ps, ss) && Inv(ps[0]) && 1 <= n <= |ss|
    requires ss[0].Begin? && forall i | 1 <= i < n :: Internal(ss[i])
    ensures Inv(ps[n]) && ps[n].running && ps[n].ms == ss[0].ms
    ensures n - 1 + Remaining(ps[n]) == 5 * |ss[0].ms|
    ensures Enabled(ps[n], Return) <==> n - 1 == 5 * |ss[0].ms|
  {
    var p, s := ps[n - 1], ss[n - 1];
    assert Enabled(p, s) && ps[n] == Next(p, s);
    if n == 1 {
      CollectedAll(p);
      AllIdle(p.workers);
      Busy(p.workers);
      assert ps[n].unfed == s.ms;
    } else {
      ExecuteTakesFiveStepsEach(ps, ss, n - 1);
      StepUsesOne(p, s);
    }
    StepKeepsInv(p, s);
    DoneWhenNothingRemains(ps[n]);
  }

  // ---- the objects ----

  class Result {
    var successIDs: seq<string>
    var failureIDs: seq<string>

    constructor (successIDs: seq<string>, failureIDs: seq<string>)
      ensures this.successIDs == successIDs && this.failureIDs == failureIDs
    {
      this.successIDs, this.failureIDs := successIDs, failureIDs;
    }

    method Append(ar: Result)
      modifies this
      ensures successIDs == old(successIDs + ar.successIDs) && failureIDs == old(failureIDs + ar.failureIDs)
    {
      successIDs, failureIDs := successIDs + ar.successIDs, failureIDs + ar.failureIDs;
    }
  }

  /** The IDs of the sends with a given outcome, in the order collected. */
  function IdsWith(rs: seq<Sent>, ok: bool): seq<string> {
    if rs == [] then []
    else IdsWith(rs[..|rs| - 1], ok) + if rs[|rs| - 1].ok == ok then [rs[|rs| - 1].id] else []
  }

  lemma {:induction false} IdsWithMember(rs: seq<Sent>, ok: bool, id: string)
    ensures id in IdsWith(rs, ok) <==> Sent(id, ok) in rs
  {
    if rs != [] {
      IdsWithMember(rs[..|rs| - 1], ok, id);
      assert rs == rs[..|rs| - 1] + [rs[|rs| - 1]];
    }
  }

  lemma {:induction false} OutcomesPartitionIds(rs: seq<Sent>)
    ensures multiset(IdsWith(rs, true)) + multiset(IdsWith(rs, false)) == multiset(SentIds(rs))
  {
    if rs != [] {
      var n := |rs| - 1;
      OutcomesPartitionIds(rs[..n]);
      assert rs == rs[..n] + [rs[n]];
      SentIdsAppend(rs[..n], rs[n]);
    }
  }

  ghost predicate Distinct(ids: seq<string>) {
    forall i, j :: 0 <= i < j < |ids| ==> ids[i] != ids[j]
  }

  lemma {:induction false} OccursOnce(ids: seq<string>, id: string)
    requires Distinct(ids)
    ensures multiset(ids)[id] <= 1
  {
    if ids != [] {
      assert ids == [ids[0]] + ids[1..];
      OccursOnce(ids[1..], id);
    }
  }

  /** The outcome lists of a report have no ID twice and none in common. */
  lemma SplitDistinct(ids: seq<string>, success: seq<string>, failure: seq<string>)
    requires Distinct(ids) && multiset(success) + multiset(failure) == multiset(ids)
    ensures Distinct(success) && Distinct(failure) && Distinct(success + failure)
    ensures forall id :: id in success ==> id in ids && id !in failure
    ensures forall id :: id in failure ==> id in ids
    ensures forall id :: id in ids ==> id in success || id in failure
  {
    forall id
      ensures multiset(success)[id] + multiset(failure)[id] == multiset(ids)[id] <= 1
      ensures id in success ==> id in ids && id !in failure
      ensures id in failure ==> id in ids
      ensures id in ids ==> id in success || id in failure
    {
      OccursOnce(ids, id);
      assert multiset(success)[id] + multiset(failure)[id] == (multiset(success) + multiset(failure))[id];
      assert id in success <==> multiset(success)[id] > 0;
      assert id in failure <==> multiset(failure)[id] > 0;
      assert id in ids <==> multiset(ids)[id] > 0;
    }
    forall i, j | 0 <= i < j < |success|
      ensures success[i] != success[j]
    {
      if success[i] == success[j] {
        OccursTwice(success, i, j);
      }
    }
    forall i, j | 0 <= i < j < |failure|
      ensures failure[i] != failure[j]
    {
      if failure[i] == failure[j] {
        OccursTwice(failure, i, j);
      }
    }
    var both := success + failure;
    forall i, j | 0 <= i < j < |both|
      ensures both[i] != both[j]
    {
      if i < |success| <= j {
        assert both[i] in success && both[j] in failure;
      }
    }
  }

  lemma InternalStep(p: Pool, s: Step)
    requires Inv(p) && Internal(s) && Enabled(p, s)
    ensures var p' := Next(p, s);
            && Inv(p') && Remaining(p') == Remaining(p) - 1
            && p'.running == p.running && p'.closed == p.closed && p'.ms == p.ms && p'.rate == p.rate
  {
    StepKeepsInv(p, s);
    StepUsesOne(p, s);
  }

  lemma CollectedNext(p: Pool, s: Step)
    requires Internal(s) && Enabled(p, s)
    ensures !s.Collect? ==> Next(p, s).collected == p.collected
    ensures s.Collect? ==>
              var r, c := p.results[0], Next(p, s).collected;
              && IdsWith(c, true) == IdsWith(p.collected, true) + (if r.ok then [r.id] else [])
              && IdsWith(c, false) == IdsWith(p.collected, false) + (if r.ok then [] else [r.id])
  {
    if s.Collect? {
      assert (p.collected + [p.results[0]])[..|p.collected|] == p.collected;
    }
  }

  class BatchExecutor {
    constructor () {
    }

    /** `sendOk` says whether SendMetricArray returned nil. */
    method Execute(ms: seq<Metric>, sendOk: bool) returns (result: Result)
      ensures fresh(result)
      ensures result.successIDs == (if sendOk then Ids(ms) else [])
      ensures result.failureIDs == (if sendOk then [] else Ids(ms))
    {
      var ids := [];
      for i := 0 to |ms|
        invariant ids == Ids(ms[..i])
      {
        ids := ids + [ms[i].id];
        assert Ids(ms[..i + 1]) == Ids(ms[..i]) + [ms[i].id];
      }
      assert ms[..|ms|] == ms;
      if !sendOk {
        result := new Result([], ids);
        return;
      }
      result := new Result(ids, []);
    }
  }

  lemma Begun(p: Pool, ms: seq<Metric>)
    requires Inv(p) && Enabled(p, Begin(ms))
    ensures var p' := Next(p, Begin(ms));
            && Inv(p') && p'.running && !p'.closed && p'.ms == ms && p'.rate == p.rate
            && IdsWith(p'.collected, true) == [] && IdsWith(p'.collected, false) == []
  {
    BeginKeepsInv(p, ms);
  }

  lemma BeginRemaining(p: Pool, ms: seq<Metric>)
    requires Inv(p) && Enabled(p, Begin(ms))
    ensures Remaining(Next(p, Begin(ms))) == 5 * |ms|
    ensures Outcomes(Next(p, Begin(ms))) == multiset{}
  {
    BeginEffect(p, ms);
    CollectedAll(p);
    AllIdle(p.workers);
    Busy(p.workers);
    assert Next(p, Begin(ms)).unfed == ms;
  }

  lemma Returned(p: Pool)
    requires Inv(p) && Enabled(p, Return)
    ensures Inv(Next(p, Return)) && Quiescent(Next(p, Return)) && Next(p, Return) == p.(running := false)
    ensures multiset(IdsWith(p.collected, true)) + multiset(IdsWith(p.collected, false)) == multiset(Ids(p.ms))
  {
    CollectedAll(p);
    OutcomesPartitionIds(p.collected);
    StepKeepsInv(p, Return);
  }

  // ---- schedules ----

  /** The pool after t steps of a schedule, which names the next step by time and state. */
  function After(p: Pool, pick: (nat, Pool) -> Step, t: nat): Pool {
    Iterated(Mover(pick), p, t)
  }

  function Mover(pick: (nat, Pool) -> Step): (nat, Pool) -> Pool {
    (t: nat, p) => if Internal(pick(t, p)) && Enabled(p, pick(t, p)) then Next(p, pick(t, p)) else p
  }

  function Iterated<S>(f: (nat, S) -> S, s: S, t: nat): S {
    if t == 0 then s else f(t - 1, Iterated(f, s, t - 1))
  }

  /** What every step keeps holds at each time. */
  lemma {:induction false} Kept<S(!new)>(f: (nat, S) -> S, s: S, holds: (nat, S) -> bool, n: nat, t: nat)
    requires holds(0, s) && t <= n
    requires forall k: nat, q :: k < n && holds(k, q) ==> holds(k + 1, f(k, q))
    ensures holds(t, Iterated(f, s, t))
  {
    if t > 0 {
      Kept(f, s, holds, n, t - 1);
    }
  }

  /** The sends made in these steps, each with the ID its worker holds and the outcome the schedule gives it. */
  function SendsMade(p: Pool, pick: (nat, Pool) -> Step, t: nat): multiset<Sent> {
    if t == 0 then multiset{}
    else
      var q := After(p, pick, t - 1);
      var s := pick(t - 1, q);
      SendsMade(p, pick, t - 1) + SendIn(q, s)
  }

  function SendIn(p: Pool, s: Step): multiset<Sent> {
    if s.Send? && Enabled(p, s) then multiset{Sent(p.workers[s.w].m.id, s.ok)} else multiset{}
  }

  /** The sends of an Execute: it takes five steps for each metric. */
  function SendsOf(p: Pool, ms: seq<Metric>, pick: (nat, Pool) -> Step): multiset<Sent>
    requires Enabled(p, Begin(ms))
  {
    SendsMade(Next(p, Begin(ms)), pick, 5 * |ms|)
  }

  lemma StepSends(p: Pool, s: Step, before: multiset<Sent>, made: multiset<Sent>)
    requires Internal(s) && Enabled(p, s) && Outcomes(p) == before + made
    ensures Outcomes(Next(p, s)) == before + (made + SendIn(p, s))
  {
    StepEffect(p, s);
    Regroup(before, made, SendIn(p, s));
  }

  lemma Regroup<T>(a: multiset<T>, b: multiset<T>, c: multiset<T>)
    ensures (a + b) + c == a + (b + c) && a + multiset{} == a
  {
  }

  /** The outcomes so far are those at the start and the sends made since. */
  ghost predicate Accounted(p: Pool, start: multiset<Sent>, made: multiset<Sent>) {
    Outcomes(p) == start + made
  }

  lemma OneMoreStep(p: Pool, pick: (nat, Pool) -> Step, t: nat, start: multiset<Sent>)
    requires Accounted(After(p, pick, t), start, SendsMade(p, pick, t))
    ensures Accounted(After(p, pick, t + 1), start, SendsMade(p, pick, t + 1))
  {
    var q := After(p, pick, t);
    var s := pick(t, q);
    if Internal(s) && Enabled(q, s) {
      StepSends(q, s, start, SendsMade(p, pick, t));
    }
  }

  lemma NoSteps(p: Pool, pick: (nat, Pool) -> Step)
    ensures Accounted(After(p, pick, 0), Outcomes(p), SendsMade(p, pick, 0))
  {
    Regroup(Outcomes(p), multiset{}, multiset{});
  }

  /** Accounted, as a property of time. */
  ghost function Balanced(p: Pool, pick: (nat, Pool) -> Step): nat -> bool {
    (t: nat) => Accounted(After(p, pick, t), Outcomes(p), SendsMade(p, pick, t))
  }

  lemma BalancedNext(p: Pool, pick: (nat, Pool) -> Step, t: nat)
    requires Balanced(p, pick)(t)
    ensures Balanced(p, pick)(t + 1)
  {
    OneMoreStep(p, pick, t, Outcomes(p));
  }

  lemma {:induction false} BalancedAt(p: Pool, pick: (nat, Pool) -> Step, t: nat)
    ensures Balanced(p, pick)(t)
  {
    if t == 0 {
      NoSteps(p, pick);
    } else {
      BalancedAt(p, pick, t - 1);
      BalancedNext(p, pick, t - 1);
    }
  }

  lemma OutcomesAreSends(p: Pool, pick: (nat, Pool) -> Step, t: nat)
    ensures Outcomes(After(p, pick, t)) == Outcomes(p) + SendsMade(p, pick, t)
  {
    BalancedAt(p, pick, t);
  }

  /** An ID is a success as often as a send of it succeeded, and a failure as often as one failed. */
  ghost predicate ListsSends(success: seq<string>, failure: seq<string>, sends: multiset<Sent>) {
    && (forall id :: multiset(success)[id] == sends[Sent(id, true)])
    && (forall id :: multiset(failure)[id] == sends[Sent(id, false)])
  }

  /** The outcome lists hold each ID as often as it was sent with that outcome. */
  lemma {:induction false} IdsWithCount(rs: seq<Sent>, ok: bool, id: string)
    ensures multiset(IdsWith(rs, ok))[id] == multiset(rs)[Sent(id, ok)]
  {
    if rs != [] {
      var n := |rs| - 1;
      IdsWithCount(rs[..n], ok, id);
      assert rs == rs[..n] + [rs[n]];
    }
  }

  /** An order in which the goroutines may run: a step that is enabled, as long as results are missing. */
  ghost predicate Schedules(pick: (nat, Pool) -> Step) {
    forall t, p {:trigger Asked(t, p)} ::
      Asked(t, p) && Inv(p) && p.rate >= 1 && p.running && |p.collected| < |p.ms|
      ==> Internal(pick(t, p)) && Enabled(p, pick(t, p))
  }

  /** Always true; the schedule is looked at where this is asserted. */
  ghost predicate Asked(t: nat, p: Pool) {
    true
  }

  /** f makes the step that pick names. */
  ghost predicate Follows(f: (nat, Pool) -> Pool, pick: (nat, Pool) -> Step) {
    forall t, p {:trigger Asked(t, p)} ::
      Asked(t, p) && Internal(pick(t, p)) && Enabled(p, pick(t, p)) ==> f(t, p) == Next(p, pick(t, p))
  }

  /** An Execute that has made t steps of its schedule. */
  ghost predicate Underway(begun: Pool, f: (nat, Pool) -> Pool, t: nat, p: Pool, ms: seq<Metric>) {
    && Inv(p) && p.running && !p.closed && p.ms == ms && p.rate == begun.rate >= 1
    && p == Iterated(f, begun, t) && t + Remaining(p) == 5 * |ms|
  }

  lemma OneStep(begun: Pool, f: (nat, Pool) -> Pool, pick: (nat, Pool) -> Step, t: nat, p: Pool, ms: seq<Metric>)
    requires Schedules(pick) && Follows(f, pick) && Underway(begun, f, t, p, ms) && |p.collected| < |ms|
    ensures var s := pick(t, p);
            && Internal(s) && Enabled(p, s) && Underway(begun, f, t + 1, Next(p, s), ms)
            && t < 5 * |ms|
  {
    assert Asked(t, p);
    InternalStep(p, pick(t, p));
  }

  lemma UnderwayNext(begun: Pool, f: (nat, Pool) -> Pool, pick: (nat, Pool) -> Step, t: nat, p: Pool, ms: seq<Metric>)
    requires Schedules(pick) && Follows(f, pick) && Underway(begun, f, t, p, ms) && t < 5 * |ms|
    ensures Underway(begun, f, t + 1, f(t, p), ms)
  {
    DoneWhenNothingRemains(p);
    OneStep(begun, f, pick, t, p, ms);
  }

  /** Underway, as a property of time and state. */
  ghost function Going(begun: Pool, f: (nat, Pool) -> Pool, ms: seq<Metric>): (nat, Pool) -> bool {
    (t: nat, p: Pool) => Underway(begun, f, t, p, ms)
  }

  lemma GoingNext(begun: Pool, f: (nat, Pool) -> Pool, pick: (nat, Pool) -> Step, ms: seq<Metric>, t: nat, p: Pool)
    requires Schedules(pick) && Follows(f, pick) && t < 5 * |ms| && Going(begun, f, ms)(t, p)
    ensures Going(begun, f, ms)(t + 1, f(t, p))
  {
    UnderwayNext(begun, f, pick, t, p, ms);
  }

  lemma GoingAt(begun: Pool, f: (nat, Pool) -> Pool, pick: (nat, Pool) -> Step, t: nat, ms: seq<Metric>)
    requires Schedules(pick) && Follows(f, pick) && Going(begun, f, ms)(0, begun) && t <= 5 * |ms|
    ensures Going(begun, f, ms)(t, Iterated(f, begun, t))
  {
    forall k: nat, q | k < 5 * |ms| && Going(begun, f, ms)(k, q)
      ensures Going(begun, f, ms)(k + 1, f(k, q))
    {
      GoingNext(begun, f, pick, ms, k, q);
    }
    Kept(f, begun, Going(begun, f, ms), 5 * |ms|, t);
  }

  lemma UnderwayAt(begun: Pool, f: (nat, Pool) -> Pool, pick: (nat, Pool) -> Step, t: nat, p: Pool, ms: seq<Metric>)
    requires Schedules(pick) && Follows(f, pick) && Underway(begun, f, 0, begun, ms)
    requires t <= 5 * |ms| && p == Iterated(f, begun, t)
    ensures Underway(begun, f, t, p, ms)
  {
    GoingAt(begun, f, pick, t, ms);
  }

  lemma MayMove(begun: Pool, f: (nat, Pool) -> Pool, pick: (nat, Pool) -> Step, t: nat, p: Pool, ms: seq<Metric>)
    requires Schedules(pick) && Follows(f, pick) && Underway(begun, f, 0, begun, ms)
    requires t <= 5 * |ms| && p == Iterated(f, begun, t) && |p.collected| < |ms|
    ensures Internal(pick(t, p)) && Enabled(p, pick(t, p)) && t < 5 * |ms|
    ensures Next(p, pick(t, p)) == Iterated(f, begun, t + 1)
  {
    UnderwayAt(begun, f, pick, t, p, ms);
    OneStep(begun, f, pick, t, p, ms);
  }

  lemma CollectedAreSends(begun: Pool, pick: (nat, Pool) -> Step, t: nat, p: Pool)
    requires p == After(begun, pick, t) && Inv(p) && Enabled(p, Return) && Outcomes(begun) == multiset{}
    ensures multiset(p.collected) == SendsMade(begun, pick, t)
  {
    OutcomesAreSends(begun, pick, t);
    ReturnEffect(p);
  }

  lemma TimeIsUp(begun: Pool, f: (nat, Pool) -> Pool, t: nat, p: Pool, ms: seq<Metric>)
    requires Underway(begun, f, t, p, ms) && |p.collected| == |ms|
    ensures t == 5 * |ms| && Enabled(p, Return)
  {
    DoneWhenNothingRemains(p);
  }

  /** When all is collected, the outcome lists are those of the sends the schedule made. */
  lemma AllSent(begun: Pool, pick: (nat, Pool) -> Step, t: nat, p: Pool, ms: seq<Metric>)
    requires Underway(begun, Mover(pick), t, p, ms) && |p.collected| == |ms| && Outcomes(begun) == multiset{}
    ensures ListsSends(IdsWith(p.collected, true), IdsWith(p.collected, false), SendsMade(begun, pick, 5 * |ms|))
  {
    TimeIsUp(begun, Mover(pick), t, p, ms);
    var sends := SendsMade(begun, pick, t);
    CollectedAreSends(begun, pick, t, p);
    ListsCount(p.collected, sends);
  }

  lemma Finishes(begun: Pool, pick: (nat, Pool) -> Step, t: nat, p: Pool, ms: seq<Metric>)
    requires Schedules(pick) && Underway(begun, Mover(pick), 0, begun, ms) && Outcomes(begun) == multiset{}
    requires t <= 5 * |ms| && p == After(begun, pick, t) && |p.collected| >= |ms|
    ensures Enabled(p, Return)
    ensures var p' := Next(p, Return);
            Inv(p') && Quiescent(p') && !p'.running && !p'.closed && p'.rate == begun.rate
    ensures var success, failure := IdsWith(p.collected, true), IdsWith(p.collected, false);
            && multiset(success) + multiset(failure) == multiset(Ids(ms))
            && ListsSends(success, failure, SendsMade(begun, pick, 5 * |ms|))
  {
    UnderwayAt(begun, Mover(pick), pick, t, p, ms);
    Returned(p);
    AllSent(begun, pick, t, p, ms);
  }

  lemma StartsUnderway(p: Pool, ms: seq<Metric>, pick: (nat, Pool) -> Step)
    requires Inv(p) && Enabled(p, Begin(ms)) && p.rate >= 1
    ensures Follows(Mover(pick), pick)
    ensures var begun := Next(p, Begin(ms));
            && Underway(begun, Mover(pick), 0, begun, ms) && Outcomes(begun) == multiset{} && begun.rate == p.rate
            && IdsWith(begun.collected, true) == [] && IdsWith(begun.collected, false) == []
  {
    Begun(p, ms);
    BeginRemaining(p, ms);
  }

  lemma ListsCount(rs: seq<Sent>, sends: multiset<Sent>)
    requires multiset(rs) == sends
    ensures ListsSends(IdsWith(rs, true), IdsWith(rs, false), sends)
  {
    forall id
      ensures multiset(IdsWith(rs, true))[id] == sends[Sent(id, true)]
      ensures multiset(IdsWith(rs, false))[id] == sends[Sent(id, false)]
    {
      IdsWithCount(rs, true, id);
      IdsWithCount(rs, false, id);
    }
  }

  class WorkerPoolExecutor {
    var pool: Pool

    constructor (rate: nat)
      ensures Inv(pool) && Quiescent(pool) && pool == NewPool(rate)
    {
      pool := NewPool(rate);
      NewPoolInv(rate);
    }

    /**
     Runs the goroutines in the order `pick` chooses, which may be any order: at time t in state p it names a
     step that is enabled, and with each send also whether it succeeds.
     */
    method Execute(ms: seq<Metric>, pick: (nat, Pool) -> Step) returns (result: Result)
      requires Inv(pool) && pool.rate >= 1 && !pool.running && !pool.closed
      requires Schedules(pick)
      modifies this
      ensures Inv(pool) && Quiescent(pool) && !pool.running && !pool.closed && pool.rate == old(pool.rate)
      ensures fresh(result)
      ensures multiset(result.successIDs) + multiset(result.failureIDs) == multiset(Ids(ms))
      ensures ListsSends(result.successIDs, result.failureIDs, SendsOf(old(pool), ms, pick))
    {
      StartsUnderway(pool, ms, pick);
      pool := Next(pool, Begin(ms));
      ghost var begun, t := pool, 0;
      result, t := CollectAll(ms, pick, Mover(pick));
      Finishes(begun, pick, t, pool, ms);
      pool := Next(pool, Return);
    }

    /** The goroutines at work, until the caller has received as many results as it asked for. */
    method CollectAll(ms: seq<Metric>, pick: (nat, Pool) -> Step, ghost f: (nat, Pool) -> Pool)
        returns (result: Result, ghost steps: nat)
      requires Schedules(pick) && Follows(f, pick) && Underway(pool, f, 0, pool, ms)
      requires IdsWith(pool.collected, true) == [] && IdsWith(pool.collected, false) == []
      modifies this
      ensures fresh(result) && steps <= 5 * |ms| && pool == Iterated(f, old(pool), steps) && |pool.collected| >= |ms|
      ensures result.successIDs == IdsWith(pool.collected, true)
      ensures result.failureIDs == IdsWith(pool.collected, false)
    {
      result := new Result([], []);
      ghost var begun := pool;
      var t := 0;
      while |pool.collected| < |ms|
        invariant t <= 5 * |ms| && pool == Iterated(f, begun, t)
        invariant result.successIDs == IdsWith(pool.collected, true)
        invariant result.failureIDs == IdsWith(pool.collected, false)
        decreases 5 * |ms| - t
      {
        MayMove(begun, f, pick, t, pool, ms);
        Move(pick(t, pool), result);
        t := t + 1;
      }
      steps := t;
    }

    /** One step of some goroutine, or of the caller, which appends what it receives. */
    method Move(s: Step, result: Result)
      requires Internal(s) && Enabled(pool, s)
      requires result.successIDs == IdsWith(pool.collected, true)
      requires result.failureIDs == IdsWith(pool.collected, false)
      modifies this, result
      ensures pool == Next(old(pool), s)
      ensures result.successIDs == IdsWith(pool.collected, true)
      ensures result.failureIDs == IdsWith(pool.collected, false)
    {
      CollectedNext(pool, s);
      if s.Collect? {
        Receive(result, pool.results[0]);
      }
      pool := Next(pool, s);
    }

    method Receive(result: Result, r: Sent)
      modifies result
      ensures result.successIDs == old(result.successIDs) + (if r.ok then [r.id] else [])
      ensures result.failureIDs == old(result.failureIDs) + (if r.ok then [] else [r.id])
    {
      var ar := new Result(if r.ok then [r.id] else [], if r.ok then [] else [r.id]);
      result.Append(ar);
    }

    method Shutdown()
      requires Inv(pool) && !pool.running && !pool.closed
      modifies this
      ensures Inv(pool) && pool == old(pool).(closed := true)
      ensures forall s :: !Enabled(pool, s)
    {
      StepKeepsInv(pool, Step.Shutdown);
      pool := Next(pool, Step.Shutdown);
      forall s
        ensures !Enabled(pool, s)
      {
        ClosedIsSilent(pool, s);
      }
    }
  }
}
