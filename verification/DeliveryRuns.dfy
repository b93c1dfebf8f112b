/**
 Runs of the delivery system: conservation in all of them, what honest sends add to it, that every report ends and
 resolves what it staged, and that a report in which all sends succeed leaves the server as one batch would.
 */
module DeliveryRuns {
  import opened Int64
  import opened Model
  import opened Accumulation
  import opened Delivery
  import M = MemStore
  import R = Reporting
  import S = Service

  ghost predicate IsRun(ss: seq<System>, ls: seq<Label>) {
    && |ss| == |ls| + 1 && ss[0] == Start(ss[0].rate)
    && forall i | 0 <= i < |ls| :: Enabled(ss[i], ls[i]) && ss[i + 1] == Next(ss[i], ls[i])
  }

  lemma {:induction false} RunInv(ss: seq<System>, ls: seq<Label>, n: nat)
    requires IsRun(ss, ls) && n <= |ls|
    ensures Consistent(ss[n]) && Conserved(ss[n])
  {
    if n == 0 {
      StartInv(ss[0].rate);
    } else {
      RunInv(ss, ls, n - 1);
      StepKeepsInv(ss[n - 1], ls[n - 1]);
    }
  }

  /**
   In every state of every run, with either executor and whatever interleaving, what was accepted for an ID is
   on the server, pending, or staged and not delivered, modulo 2^64 and up to what sends applied beyond what
   they acknowledged.
   */
  lemma CountersConserved(ss: seq<System>, ls: seq<Label>, n: nat, id: string)
    requires IsRun(ss, ls) && n <= |ls|
    ensures Congruent(Income(ss[n], id), Balance(ss[n], id))
  {
    RunInv(ss, ls, n);
  }

  /**
   Between reports nothing is staged, so the books balance on server and pending alone: exactly when the
   surplus is a multiple of 2^64.
   */
  lemma BooksBetweenReports(ss: seq<System>, ls: seq<Label>, n: nat, id: string)
    requires IsRun(ss, ls) && n <= |ls| && ss[n].phase.Between?
    ensures var s := ss[n];
            && (id in s.accs ==> !s.accs[id].isStaged)
            && (Congruent(Booked(s.accepted, id) + Booked(s.foreign, id),
                          Count(s.server, id) + Amount(AccOf(s, id).delta))
                <==> Congruent(Booked(s.surplus, id), 0))
  {
    RunInv(ss, ls, n);
    var s := ss[n];
    assert InFlight(s) == {} && AccOf(s, id).stagedDelta == 0;
    var income := Booked(s.accepted, id) + Booked(s.foreign, id);
    var held := Count(s.server, id) + Amount(AccOf(s, id).delta);
    assert Congruent(Income(s, id), Balance(s, id));
    assert Income(s, id) == income + Booked(s.surplus, id) && Balance(s, id) == held;
    Cancel(income, Booked(s.surplus, id), held);
  }

  lemma Cancel(x: int, y: int, z: int)
    requires Congruent(x + y, z)
    ensures Congruent(x, z) <==> Congruent(y, 0)
  {
    if Congruent(x, z) {
      CongruentAdd(x, z, -x);
      CongruentAdd(x + y, z, -x);
      assert x + y - x == y && Wrap(y) == Wrap(z - x) == Wrap(x - x);
    }
    if Congruent(y, 0) {
      CongruentAdd(y, 0, x);
    }
  }

  // ---- honest sends ----

  /** A request takes effect once if it is answered with nil, else not at all, and no copy of it arrives late. */
  ghost predicate Honest(s: System, l: Label)
    requires Enabled(s, l)
  {
    match l
    case HandleLate(i) => Refused(s.server, s.answered[i])
    case BatchAnswer(ok) => forall m :: m in s.phase.marray ==> Effects(s, m.id) == if ok then 1 else 0
    case PoolStep(step) => step.Send? ==> Effects(s, s.pool.workers[step.w].m.id) == if step.ok then 1 else 0
    case _ => true
  }

  ghost predicate UnsentId(p: R.Pool, id: string) {
    exists m :: m in R.Unsent(p) && m.id == id
  }

  /** The request for an ID has not been answered. */
  ghost predicate Unanswered(s: System, id: string) {
    s.phase.Executing? &&
    if s.rate == 0 then s.phase.outcome == None && id in IdSet(s.phase.marray)
    else UnsentId(s.pool, id)
  }

  /** What took effect of a request that has not been answered. */
  ghost function Owed(s: System, id: string): int {
    if Unanswered(s, id) then Times(Effects(s, id), DeltaIn(Marray(s), id)) else 0
  }

  lemma UnansweredDepends(s: System, s': System, id: string)
    requires s'.rate == s.rate && s'.phase == s.phase && s'.pool == s.pool
    ensures Unanswered(s', id) == Unanswered(s, id)
  {
  }

  lemma HandlingOwes(s: System, s': System, ms: seq<Metric>, id: string)
    requires s.phase.Executing? && S.DistinctIds(ms) && !Refused(s.server, ms)
    requires s' == Handling(s, ms).(effects := Counted(s.effects, ms))
    requires if id in IdSet(ms) then Unanswered(s, id) && DeltaIn(ms, id) == DeltaIn(s.phase.marray, id)
             else DeltaIn(ms, id) == 0
    requires Booked(s.surplus, id) == Owed(s, id)
    ensures Booked(s'.surplus, id) == Owed(s', id)
  {
    UnansweredDepends(s, s', id);
    BookAt(s.surplus, ms, true, id);
    CountedAt(s.effects, ms, id);
  }

  lemma HandleBatchOwes(s: System, id: string)
    requires Consistent(s) && Enabled(s, HandleBatch) && Booked(s.surplus, id) == Owed(s, id)
    ensures Booked(Next(s, HandleBatch).surplus, id) == Owed(Next(s, HandleBatch), id)
  {
    if !Refused(s.server, s.phase.marray) {
      MarraySendable(s);
      DeltaOfMember(s.phase.marray, id);
      HandlingOwes(s, Next(s, HandleBatch), s.phase.marray, id);
    }
  }

  lemma HandleAtOwes(s: System, w: nat, id: string)
    requires Consistent(s) && Enabled(s, HandleAt(w)) && Booked(s.surplus, id) == Owed(s, id)
    ensures Booked(Next(s, HandleAt(w)).surplus, id) == Owed(Next(s, HandleAt(w)), id)
  {
    var m := s.pool.workers[w].m;
    if !Refused(s.server, [m]) {
      R.HeldIsUnsent(s.pool, w);
      SingleDelta(m, id);
      DeltaOfMember(s.phase.marray, id);
      HandlingOwes(s, Next(s, HandleAt(w)), [m], id);
    }
  }

  lemma BatchAnswerOwes(s: System, ok: bool, id: string)
    requires Consistent(s) && Enabled(s, BatchAnswer(ok)) && Honest(s, BatchAnswer(ok))
    requires Booked(s.surplus, id) == Owed(s, id)
    ensures Booked(Next(s, BatchAnswer(ok)).surplus, id) == Owed(Next(s, BatchAnswer(ok)), id)
  {
    var ms := s.phase.marray;
    BookAt(s.surplus, ms, false, id);
    DeltaOfMember(ms, id);
    OnceOrNever(DeltaIn(ms, id));
  }

  /** A send answers for its own metric alone. */
  lemma SendAnswers(p: R.Pool, ms: seq<Metric>, w: nat, ok: bool, id: string)
    requires R.Enabled(p, R.Send(w, ok)) && S.DistinctIds(ms) && UnsentOnce(p, ms)
    ensures p.workers[w].m in ms && p.workers[w].m in R.Unsent(p)
    ensures UnsentId(R.Next(p, R.Send(w, ok)), id) <==> UnsentId(p, id) && id != p.workers[w].m.id
  {
    var m := p.workers[w].m;
    var p' := R.Next(p, R.Send(w, ok));
    R.SendEffect(p, w, ok);
    forall n | n in R.Unsent(p')
      ensures n in R.Unsent(p) && n.id != m.id
    {
      OtherId(ms, n, m);
    }
    if n :| n in R.Unsent(p) && n.id == id && id != m.id {
      assert n in R.Unsent(p');
    }
  }

  lemma SendOwes(s: System, w: nat, ok: bool, id: string)
    requires Consistent(s) && Enabled(s, PoolStep(R.Send(w, ok))) && Honest(s, PoolStep(R.Send(w, ok)))
    requires Booked(s.surplus, id) == Owed(s, id)
    ensures Booked(Next(s, PoolStep(R.Send(w, ok))).surplus, id) == Owed(Next(s, PoolStep(R.Send(w, ok))), id)
  {
    var m := s.pool.workers[w].m;
    SendAnswers(s.pool, s.phase.marray, w, ok, id);
    DeltaOfMember(s.phase.marray, id);
    AnswerOwes(s, Next(s, PoolStep(R.Send(w, ok))), m, ok, id);
  }

  lemma AnswerOwes(s: System, s': System, m: Metric, ok: bool, id: string)
    requires Effects(s, m.id) == (if ok then 1 else 0) && Unanswered(s, m.id)
    requires s'.surplus == Answered(s, [m], ok).surplus && s'.effects == s.effects && Marray(s') == Marray(s)
    requires Unanswered(s', id) <==> Unanswered(s, id) && id != m.id
    requires id == m.id ==> DeltaIn(Marray(s), id) == DeltaOf(m)
    requires Booked(s.surplus, id) == Owed(s, id)
    ensures Booked(s'.surplus, id) == Owed(s', id)
  {
    BookAt(s.surplus, [m], false, id);
    SingleDelta(m, id);
    OnceOrNever(DeltaOf(m));
  }

  lemma OnceOrNever(d: int)
    ensures Times(1, d) == d && Times(0, d) == 0
  {
    assert Times(1, d) == Times(0, d) + d;
  }

  lemma HonestStep(s: System, l: Label, id: string)
    requires Consistent(s) && Enabled(s, l) && Honest(s, l) && Booked(s.surplus, id) == Owed(s, id)
    ensures Booked(Next(s, l).surplus, id) == Owed(Next(s, l), id)
  {
    match l
    case HandleBatch => HandleBatchOwes(s, id);
    case HandleAt(w) => HandleAtOwes(s, w, id);
    case BatchAnswer(ok) => BatchAnswerOwes(s, ok, id);
    case PoolStep(step) =>
      if step.Send? {
        SendOwes(s, step.w, step.ok, id);
      } else {
        MoveOwes(s, step, id);
      }
    case EndExecute => EndExecuteOwes(s, id);
    case _ => OtherStepOwes(s, l, id);
  }

  lemma MoveOwes(s: System, step: R.Step, id: string)
    requires Enabled(s, PoolStep(step)) && !step.Send? && Booked(s.surplus, id) == Owed(s, id)
    ensures Booked(Next(s, PoolStep(step)).surplus, id) == Owed(Next(s, PoolStep(step)), id)
  {
    R.StepEffect(s.pool, step);
    UnsentIdSame(s.pool, R.Next(s.pool, step), id);
  }

  lemma EndExecuteOwes(s: System, id: string)
    requires PoolOk(s) && Enabled(s, EndExecute) && Booked(s.surplus, id) == Owed(s, id)
    ensures Booked(Next(s, EndExecute).surplus, id) == Owed(Next(s, EndExecute), id)
  {
    if s.rate > 0 {
      R.NoneUnsentAtReturn(s.pool);
    }
  }

  lemma UnsentIdSame(p: R.Pool, p': R.Pool, id: string)
    requires R.Unsent(p') == R.Unsent(p)
    ensures UnsentId(p', id) == UnsentId(p, id)
  {
  }

  lemma EndStagingOwes(s: System, id: string)
    requires Enabled(s, EndStaging) && Booked(s.surplus, id) == Owed(s, id)
    ensures Booked(Next(s, EndStaging).surplus, id) == Owed(Next(s, EndStaging), id)
  {
    OnceOrNever(DeltaIn(Marray(Next(s, EndStaging)), id));
  }

  /** Steps that leave requests, answers and their effects alone. */
  predicate Aside(l: Label) {
    l.Create? || l.PollCounter? || l.PollGauge? || l.OtherClient? || l.HandleLate?
  }

  lemma AsideOwes(s: System, l: Label, id: string)
    requires Enabled(s, l) && Honest(s, l) && Aside(l) && Booked(s.surplus, id) == Owed(s, id)
    ensures Booked(Next(s, l).surplus, id) == Owed(Next(s, l), id)
  {
    UnansweredDepends(s, Next(s, l), id);
  }

  lemma OtherStepOwes(s: System, l: Label, id: string)
    requires Enabled(s, l) && Honest(s, l) && Booked(s.surplus, id) == Owed(s, id)
    requires !l.HandleBatch? && !l.HandleAt? && !l.BatchAnswer? && !l.PoolStep? && !l.EndExecute?
    ensures Booked(Next(s, l).surplus, id) == Owed(Next(s, l), id)
  {
    if Aside(l) {
      AsideOwes(s, l, id);
    } else if l.EndStaging? {
      EndStagingOwes(s, id);
    } else {
      assert !s.phase.Executing? && !Next(s, l).phase.Executing?;
    }
  }

  lemma HonestAt(ss: seq<System>, ls: seq<Label>, i: nat, id: string)
    requires IsRun(ss, ls) && i < |ls| && Honest(ss[i], ls[i]) && Booked(ss[i].surplus, id) == Owed(ss[i], id)
    ensures Booked(ss[i + 1].surplus, id) == Owed(ss[i + 1], id)
  {
    RunInv(ss, ls, i);
    HonestStep(ss[i], ls[i], id);
  }

  /** Over honest runs the surplus is what took effect of requests that are not answered yet, so none in the end. */
  lemma {:induction false} HonestRunHasNoSurplus(ss: seq<System>, ls: seq<Label>, n: nat, id: string)
    requires IsRun(ss, ls) && n <= |ls| && forall i | 0 <= i < n :: Honest(ss[i], ls[i])
    ensures Booked(ss[n].surplus, id) == Owed(ss[n], id)
    ensures !Unanswered(ss[n], id) ==> Booked(ss[n].surplus, id) == 0
  {
    if n > 0 {
      HonestRunHasNoSurplus(ss, ls, n - 1, id);
      HonestAt(ss, ls, n - 1, id);
    } else {
      assert ss[0] == Start(ss[0].rate);
    }
  }

  /** With honest sends nothing is lost or doubled: between reports, accepted == server + pending modulo 2^64. */
  lemma NothingLostOrDoubled(ss: seq<System>, ls: seq<Label>, n: nat, id: string)
    requires IsRun(ss, ls) && n <= |ls| && forall i | 0 <= i < n :: Honest(ss[i], ls[i])
    requires ss[n].phase.Between?
    ensures var s := ss[n];
            Congruent(Booked(s.accepted, id) + Booked(s.foreign, id), Count(s.server, id) + Amount(AccOf(s, id).delta))
  {
    HonestRunHasNoSurplus(ss, ls, n, id);
    BooksBetweenReports(ss, ls, n, id);
  }

  // ---- every report ends ----

  /**
   Every report resolves what it staged: no stage or commit ever meets the wrong staging state, and between
   reports each staging has been followed by exactly one commit or rollback.
   */
  lemma EveryReportResolves(ss: seq<System>, ls: seq<Label>, n: nat)
    requires IsRun(ss, ls) && n <= |ls|
    ensures ss[n].wrongStates == 0
    ensures ss[n].phase.Between? ==> ss[n].stagings == ss[n].resolutions
  {
    RunInv(ss, ls, n);
    if ss[n].phase.Between? {
      assert InFlight(ss[n]) == {};
    }
  }

  /** Staging reports an unknown type exactly for an accumulator just created, and passes it over without loss. */
  lemma UntypedIsSkipped(ss: seq<System>, ls: seq<Label>, n: nat)
    requires IsRun(ss, ls) && n < |ls| && ls[n].StageOne?
    ensures var s, id := ss[n], ls[n].id;
            && id in s.accs && s.phase.Staging?
            && (StageError(s.accs[id]) == Some(UnknownMetricType) <==> s.accs[id].mtype == Unset)
            && (s.accs[id].mtype == Unset ==> ss[n + 1] == s.(phase := s.phase.(visited := s.phase.visited + {id})))
  {
    RunInv(ss, ls, n);
    var s, id := ss[n], ls[n].id;
    assert Enabled(s, ls[n]) && ss[n + 1] == Next(s, ls[n]);
    assert Sound(s.accs[id]) && id !in InFlight(s);
    assert s.accs[id := s.accs[id]] == s.accs;
  }

  lemma PoolNotStuck(s: System) returns (l: Label)
    requires PoolOk(s) && s.rate > 0 && s.phase.Executing?
    ensures Enabled(s, l) && (l.PoolStep? || l.EndExecute?)
  {
    if |s.pool.collected| == |s.pool.ms| {
      return EndExecute;
    }
    var step := R.Progress(s.pool);
    if step.Send? {
      step := R.Send(step.w, false);
    }
    l := PoolStep(step);
  }

  lemma StagingNotStuck(s: System) returns (l: Label)
    requires Consistent(s) && s.phase.Staging?
    ensures Enabled(s, l) && (l.StageOne? || l.EndStaging?)
  {
    if s.phase.due <= s.phase.visited {
      l := EndStaging;
    } else {
      var id :| id in s.phase.due && id !in s.phase.visited;
      l := StageOne(id);
    }
  }

  /** The steps of the reporter and of its executor. */
  predicate Reports(l: Label) {
    l.BeginReport? || l.StageOne? || l.EndStaging? || l.BatchAnswer? || l.PoolStep? || l.EndExecute?
    || l.ResolveOne? || l.EndReport?
  }

  /** The reporter is never stuck: in every state of every run some step of its own can be made. */
  lemma ReporterNotStuck(ss: seq<System>, ls: seq<Label>, n: nat) returns (l: Label)
    requires IsRun(ss, ls) && n <= |ls|
    ensures Enabled(ss[n], l) && Reports(l)
  {
    RunInv(ss, ls, n);
    var s := ss[n];
    match s.phase
    case Between => l := BeginReport;
    case Staging(_, _, _) => l := StagingNotStuck(s);
    case Executing(_, outcome) =>
      if s.rate > 0 {
        l := PoolNotStuck(s);
      } else {
        l := if outcome == None then BatchAnswer(false) else EndExecute;
      }
    case Resolving(success, failure) =>
      l := if s.phase == Resolving([], []) then EndReport else ResolveOne;
  }

  // ---- both executors leave the same server ----

  function ApplyTimes(s: M.Store, m: Metric, n: nat): M.Store {
    if n == 0 then s else M.ApplyOne(ApplyTimes(s, m, n - 1), m)
  }

  /** The server under a report, as the effects of its requests on the store it began with. */
  ghost predicate Reached(s: System, before: M.Store, ms: seq<Metric>) {
    && s.phase.Executing? && s.phase.marray == ms
    && (forall id :: id !in IdSet(ms) ==> S.Entry(s.server, id) == S.Entry(before, id))
    && (forall m :: m in ms ==> ReachedOne(s, before, m))
  }

  ghost predicate ReachedOne(s: System, before: M.Store, m: Metric) {
    && S.Entry(s.server, m.id) == S.Entry(ApplyTimes(before, m, Effects(s, m.id)), m.id)
    && (Effects(s, m.id) >= 1 ==> !M.Clashes(before, m))
    && (Delivered(s, m.id) ==> Effects(s, m.id) == 1)
  }

  /** No other client and no late copy in between. */
  predicate Quiet(l: Label) {
    l.Create? || l.PollCounter? || l.PollGauge? || l.HandleBatch? || l.HandleAt? || l.BatchAnswer? || l.PoolStep?
  }

  lemma EffectOnOne(s: System, s': System, before: M.Store, m: Metric)
    requires ReachedOne(s, before, m) && !M.Clashes(s.server, m) && !Delivered(s', m.id)
    requires S.Entry(s'.server, m.id) == S.Entry(M.ApplyOne(s.server, m), m.id)
    requires Effects(s', m.id) == Effects(s, m.id) + 1
    ensures ReachedOne(s', before, m)
  {
    S.ApplyOneIsLocal(s.server, ApplyTimes(before, m, Effects(s, m.id)), m, m.id);
  }

  lemma BatchEffects(server: M.Store, effects: map<string, nat>, ms: seq<Metric>, id: string)
    requires S.DistinctIds(ms)
    ensures id !in IdSet(ms) ==> S.Entry(M.ApplyAll(server, ms), id) == S.Entry(server, id)
    ensures forall m :: m in ms && m.id == id ==>
              S.Entry(M.ApplyAll(server, ms), id) == S.Entry(M.ApplyOne(server, m), id)
    ensures id in IdSet(ms) ==> EffectsIn(Counted(effects, ms), id) == EffectsIn(effects, id) + 1
  {
    S.EntryAfter(server, ms, id);
    CountedAt(effects, ms, id);
    assert forall i | 0 <= i < |ms| :: ms[i] in ms;
  }

  lemma HandleBatchReached(s: System, before: M.Store, ms: seq<Metric>)
    requires MarrayOk(s) && Enabled(s, HandleBatch) && Reached(s, before, ms)
    ensures Reached(Next(s, HandleBatch), before, ms)
  {
    var s' := Next(s, HandleBatch);
    if !Refused(s.server, ms) {
      assert s'.server == M.ApplyAll(s.server, ms);
      forall id | id !in IdSet(ms)
        ensures S.Entry(s'.server, id) == S.Entry(before, id)
      {
        BatchEffects(s.server, s.effects, ms, id);
      }
      forall m | m in ms
        ensures ReachedOne(s', before, m)
      {
        assert ReachedOne(s, before, m) && m.id in IdSet(ms);
        BatchEffects(s.server, s.effects, ms, m.id);
        EffectOnOne(s, s', before, m);
      }
    } else {
      ReachedDepends(s, s', before, ms);
    }
  }

  lemma SingleHandled(server: M.Store, m: Metric)
    requires !Refused(server, [m])
    ensures M.Batched(server, [m]).0 == M.ApplyOne(server, m) && !M.Clashes(server, m)
  {
    assert m in [m] && [m][..0] == [];
    assert M.ApplyAll(server, [m]) == M.ApplyOne(M.ApplyAll(server, []), m);
  }

  lemma TakesEffectReached(s: System, s': System, m: Metric, before: M.Store, ms: seq<Metric>)
    requires Reached(s, before, ms) && m in ms && S.DistinctIds(ms) && !M.Clashes(s.server, m) && !Delivered(s, m.id)
    requires s' == s.(server := M.ApplyOne(s.server, m), effects := Counted(s.effects, [m]), surplus := s'.surplus)
    ensures Reached(s', before, ms)
  {
    assert ReachedOne(s, before, m);
    assert Delivered(s', m.id) == Delivered(s, m.id);
    OnlyThisOne(s, s', m);
    EffectOnOne(s, s', before, m);
    OthersReached(s, s', before, ms, m);
  }

  lemma HeldIsUndelivered(s: System, w: nat)
    requires PoolOk(s) && Enabled(s, HandleAt(w))
    ensures s.pool.workers[w].m in s.phase.marray && !Delivered(s, s.pool.workers[w].m.id)
  {
    R.HeldIsUnsent(s.pool, w);
  }

  lemma HandleAtReached(s: System, w: nat, before: M.Store, ms: seq<Metric>)
    requires PoolOk(s) && MarrayOk(s) && Enabled(s, HandleAt(w)) && Reached(s, before, ms)
    ensures Reached(Next(s, HandleAt(w)), before, ms)
  {
    var m := s.pool.workers[w].m;
    HeldIsUndelivered(s, w);
    if Refused(s.server, [m]) {
      ReachedDepends(s, Next(s, HandleAt(w)), before, ms);
    } else {
      SingleHandled(s.server, m);
      TakesEffectReached(s, Next(s, HandleAt(w)), m, before, ms);
    }
  }

  lemma OnlyThisOne(s: System, s': System, m: Metric)
    requires s'.server == M.ApplyOne(s.server, m) && s'.effects == Counted(s.effects, [m])
    ensures Effects(s', m.id) == Effects(s, m.id) + 1
    ensures forall id :: id != m.id ==>
              S.Entry(s'.server, id) == S.Entry(s.server, id) && Effects(s', id) == Effects(s, id)
  {
    CountedAt(s.effects, [m], m.id);
    forall id | id != m.id
      ensures S.Entry(s'.server, id) == S.Entry(s.server, id) && Effects(s', id) == Effects(s, id)
    {
      S.ApplyOneIsLocal(s.server, s.server, m, id);
      CountedAt(s.effects, [m], id);
    }
  }

  lemma OthersReached(s: System, s': System, before: M.Store, ms: seq<Metric>, m: Metric)
    requires Reached(s, before, ms) && m in ms && S.DistinctIds(ms) && ReachedOne(s', before, m)
    requires s'.rate == s.rate && s'.phase == s.phase && s'.pool == s.pool
    requires forall id :: id != m.id ==>
               S.Entry(s'.server, id) == S.Entry(s.server, id) && Effects(s', id) == Effects(s, id)
    ensures Reached(s', before, ms)
  {
    assert m.id in IdSet(ms);
    forall n | n in ms && n != m
      ensures ReachedOne(s', before, n)
    {
      assert ReachedOne(s, before, n);
      OtherId(ms, n, m);
    }
  }

  lemma ReachedDepends(s: System, s': System, before: M.Store, ms: seq<Metric>)
    requires Reached(s, before, ms) && s'.rate == s.rate && s'.phase == s.phase && s'.pool == s.pool
    requires s'.server == s.server && s'.effects == s.effects
    ensures Reached(s', before, ms)
  {
    forall m | m in ms
      ensures ReachedOne(s', before, m)
    {
      assert ReachedOne(s, before, m);
    }
  }

  lemma BatchAnswerReached(s: System, ok: bool, before: M.Store, ms: seq<Metric>)
    requires Enabled(s, BatchAnswer(ok)) && Honest(s, BatchAnswer(ok)) && Reached(s, before, ms)
    ensures Reached(Next(s, BatchAnswer(ok)), before, ms)
  {
    forall m | m in ms
      ensures ReachedOne(Next(s, BatchAnswer(ok)), before, m)
    {
      assert ReachedOne(s, before, m);
    }
  }

  lemma PoolStepReached(s: System, step: R.Step, before: M.Store, ms: seq<Metric>)
    requires Enabled(s, PoolStep(step)) && Honest(s, PoolStep(step)) && Reached(s, before, ms)
    ensures Reached(Next(s, PoolStep(step)), before, ms)
  {
    forall m | m in ms
      ensures ReachedOne(Next(s, PoolStep(step)), before, m)
    {
      assert ReachedOne(s, before, m);
      PoolStepDelivers(s.pool, step, m.id);
    }
  }

  lemma StepReached(s: System, l: Label, before: M.Store, ms: seq<Metric>)
    requires Consistent(s) && Enabled(s, l) && Honest(s, l) && Quiet(l) && Reached(s, before, ms)
    ensures Reached(Next(s, l), before, ms)
  {
    if l.HandleBatch? {
      HandleBatchReached(s, before, ms);
    } else if l.HandleAt? {
      HandleAtReached(s, l.w, before, ms);
    } else if l.BatchAnswer? {
      BatchAnswerReached(s, l.ok, before, ms);
    } else if l.PoolStep? {
      PoolStepReached(s, l.step, before, ms);
    } else {
      ReachedDepends(s, Next(s, l), before, ms);
    }
  }

  lemma BeginReached(s: System)
    requires PoolOk(s) && Enabled(s, EndStaging)
    ensures Reached(Next(s, EndStaging), s.server, s.phase.staged)
  {
    NothingDelivered(s);
    forall m | m in s.phase.staged
      ensures ReachedOne(Next(s, EndStaging), s.server, m)
    {
    }
  }

  lemma SegmentStep(ss: seq<System>, ls: seq<Label>, i: nat, before: M.Store, ms: seq<Metric>)
    requires IsRun(ss, ls) && i < |ls| && Quiet(ls[i]) && Honest(ss[i], ls[i]) && Reached(ss[i], before, ms)
    ensures Reached(ss[i + 1], before, ms)
  {
    RunInv(ss, ls, i);
    StepReached(ss[i], ls[i], before, ms);
  }

  lemma SegmentBegins(ss: seq<System>, ls: seq<Label>, a: nat)
    requires IsRun(ss, ls) && a < |ls| && ls[a] == EndStaging
    ensures ss[a].phase.Staging? && Reached(ss[a + 1], ss[a].server, ss[a].phase.staged)
  {
    RunInv(ss, ls, a);
    BeginReached(ss[a]);
  }

  ghost predicate QuietBetween(ss: seq<System>, ls: seq<Label>, a: nat, b: nat)
    requires IsRun(ss, ls)
  {
    forall i | a < i < b && i < |ls| :: Quiet(ls[i]) && Honest(ss[i], ls[i])
  }

  lemma {:induction false} SegmentReached(ss: seq<System>, ls: seq<Label>, a: nat, b: nat)
    requires IsRun(ss, ls) && a < b <= |ls| && ls[a] == EndStaging && QuietBetween(ss, ls, a, b)
    ensures ss[a].phase.Staging? && Reached(ss[b], ss[a].server, ss[a].phase.staged)
  {
    SegmentBegins(ss, ls, a);
    if a + 1 < b {
      SegmentReached(ss, ls, a, b - 1);
      SegmentStep(ss, ls, b - 1, ss[a].server, ss[a].phase.staged);
    }
  }

  /** What is reached when every metric took effect once. */
  lemma AllOnce(server: M.Store, before: M.Store, ms: seq<Metric>)
    requires S.DistinctIds(ms)
    requires forall id :: id !in IdSet(ms) ==> S.Entry(server, id) == S.Entry(before, id)
    requires forall m :: m in ms ==>
               S.Entry(server, m.id) == S.Entry(ApplyTimes(before, m, 1), m.id) && !M.Clashes(before, m)
    ensures M.Batched(before, ms) == (server, None)
  {
    forall id
      ensures S.Entry(server, id) == S.Entry(M.ApplyAll(before, ms), id)
    {
      S.EntryAfter(before, ms, id);
      if id in IdSet(ms) {
        var m :| m in ms && m.id == id;
        var i :| 0 <= i < |ms| && ms[i] == m;
        assert ApplyTimes(before, m, 1) == M.ApplyOne(ApplyTimes(before, m, 0), m);
      } else {
        assert forall i | 0 <= i < |ms| :: ms[i] in ms;
      }
    }
    S.SameEntries(server, M.ApplyAll(before, ms));
  }

  /**
   With either executor, a report of honest sends that all succeed leaves the server as one accepted batch of its
   metrics does, however its requests were interleaved.
   */
  lemma ReportIsOneBatch(ss: seq<System>, ls: seq<Label>, a: nat, b: nat)
    requires IsRun(ss, ls) && a < b < |ls| && ls[a] == EndStaging && ls[b] == EndExecute && QuietBetween(ss, ls, a, b)
    requires ss[b + 1].phase.Resolving? && ss[b + 1].phase.failure == []
    ensures ss[a].phase.Staging? && M.Batched(ss[a].server, ss[a].phase.staged) == (ss[b + 1].server, None)
  {
    SegmentReached(ss, ls, a, b);
    RunInv(ss, ls, b);
    var before, ms, s := ss[a].server, ss[a].phase.staged, ss[b];
    assert Enabled(s, ls[b]) && ss[b + 1] == Next(s, ls[b]);
    var success, failure := OutcomeLists(s);
    MarraySendable(s);
    forall m | m in ms
      ensures S.Entry(s.server, m.id) == S.Entry(ApplyTimes(before, m, 1), m.id) && !M.Clashes(before, m)
    {
      assert m.id in IdSet(ms) && m.id in success && ReachedOne(s, before, m);
    }
    AllOnce(s.server, before, ms);
  }

  // ---- a request made again ----

  lemma Extended(ss: seq<System>, ls: seq<Label>, l: Label) returns (ss': seq<System>, ls': seq<Label>)
    requires IsRun(ss, ls) && Enabled(ss[|ls|], l)
    ensures ss' == ss + [Next(ss[|ls|], l)] && ls' == ls + [l] && IsRun(ss', ls')
    ensures ss'[|ls'|] == Next(ss[|ls|], l)
  {
    ss', ls' := ss + [Next(ss[|ls|], l)], ls + [l];
  }

  /** A run to a batch whose answer is awaited: one counter was incremented once. */
  lemma OnePolled() returns (ss: seq<System>, ls: seq<Label>)
    ensures IsRun(ss, ls)
    ensures var s := ss[|ls|];
            && s.rate == 0 && s.phase == Executing([CounterMetric("c", 1)], None) && s.server == map[]
            && Booked(s.accepted, "c") == 1 && Effects(s, "c") == 0
            && "c" in s.accs && s.accs["c"].mtype == Counter && s.accs["c"].isStaged
  {
    var s0 := Start(0);
    ss, ls := Extended([s0], [], Create("c"));
    ss, ls := Extended(ss, ls, PollCounter("c", 1));
    ss, ls := Extended(ss, ls, BeginReport);
    ss, ls := Extended(ss, ls, StageOne("c"));
    assert ss[|ls|].phase.staged == [CounterMetric("c", 1)];
    ss, ls := Extended(ss, ls, EndStaging);
  }

  lemma CounterCounted(n: nat)
    ensures !Refused(Handled(map[], [CounterMetric("c", 1)], n), [CounterMetric("c", 1)])
    ensures Count(Handled(map[], [CounterMetric("c", 1)], n), "c") == Wrap(n)
  {
    var m := CounterMetric("c", 1);
    assert [m][..0] == [];
    HandledEffect(map[], [m], n, "c");
    TimesOne(n);
  }

  lemma {:induction false} TimesOne(n: nat)
    ensures Times(n, 1) == n
  {
    if n > 0 {
      TimesOne(n - 1);
    }
  }

  /** The request of such a run handled n times. */
  lemma {:induction false} HandledAgain(n: nat) returns (ss: seq<System>, ls: seq<Label>)
    ensures IsRun(ss, ls)
    ensures var s := ss[|ls|];
            && s.rate == 0 && s.phase == Executing([CounterMetric("c", 1)], None)
            && s.server == Handled(map[], [CounterMetric("c", 1)], n)
            && Booked(s.accepted, "c") == 1 && Effects(s, "c") == n
            && "c" in s.accs && s.accs["c"].mtype == Counter && s.accs["c"].isStaged
  {
    if n == 0 {
      ss, ls := OnePolled();
    } else {
      ss, ls := HandledAgain(n - 1);
      var s := ss[|ls|];
      CounterCounted(n - 1);
      CountedAt(s.effects, s.phase.marray, "c");
      assert CounterMetric("c", 1) in s.phase.marray;
      ss, ls := Extended(ss, ls, HandleBatch);
    }
  }

  lemma Acknowledged(n: nat) returns (ss: seq<System>, ls: seq<Label>)
    requires n >= 1
    ensures IsRun(ss, ls)
    ensures var s := ss[|ls|];
            && s.phase == Resolving(["c"], []) && Booked(s.accepted, "c") == 1 && Count(s.server, "c") == Wrap(n)
            && "c" in s.accs && s.accs["c"].mtype == Counter && s.accs["c"].isStaged
  {
    ss, ls := HandledAgain(n);
    CounterCounted(n);
    ss, ls := Extended(ss, ls, BatchAnswer(true));
    ss, ls := Extended(ss, ls, EndExecute);
    assert R.Ids([CounterMetric("c", 1)]) == ["c"];
  }

  /** One increment, one report, n - 1 lost answers: the request is made again, and the server counts n. */
  lemma ResendingMultiplies(n: nat)
    requires n >= 1
    ensures exists ss: seq<System>, ls: seq<Label> :: IsRun(ss, ls) && ss[|ls|].phase.Between?
              && Booked(ss[|ls|].accepted, "c") == 1 && Count(ss[|ls|].server, "c") == Wrap(n)
  {
    var ss, ls := Acknowledged(n);
    ss, ls := Extended(ss, ls, ResolveOne);
    assert ss[|ls|].phase == Resolving([], []);
    ss, ls := Extended(ss, ls, EndReport);
    assert IsRun(ss, ls) && ss[|ls|].phase.Between?;
  }

  /** One lost answer doubles the increment. */
  lemma ResendingDoubles()
    ensures exists ss: seq<System>, ls: seq<Label> :: IsRun(ss, ls) && ss[|ls|].phase.Between?
              && Booked(ss[|ls|].accepted, "c") == 1 && Count(ss[|ls|].server, "c") == 2
  {
    ResendingMultiplies(2);
    WrapIdempotent(2);
  }
}
