/** One report over the agent's accumulators: stage all, send, commit or roll back. */
module Reporter {
  import opened Model
  import opened Accumulation
  import opened AgentStorage
  import opened Reporting

  predicate HasData(a: Acc) {
    a.delta.Some? || a.values != []
  }

  function Emptied(a: Acc): Acc {
    NewAcc(a.id).(mtype := a.mtype)
  }

  /** The metric sent for an accumulator with data. */
  ghost function Report(a: Acc): (m: Metric)
    requires Sound(a) && !a.isStaged && HasData(a)
    ensures m.id == a.id && WellFormed(m)
  {
    StageThenResolve(a);
    StagedMetric(Stage(a))
  }

  /** The metrics a report sends, in the order in which the accumulators are visited. */
  ghost function ToSend(accs: map<string, Acc>, order: seq<string>): seq<Metric>
    requires forall id :: id in order ==> id in accs && Sound(accs[id]) && !accs[id].isStaged
  {
    if order == [] then []
    else
      var a := accs[order[|order| - 1]];
      ToSend(accs, order[..|order| - 1]) + if HasData(a) then [Report(a)] else []
  }

  /** The accumulators whose type was not set yet, in visiting order, each with its error. */
  function Untyped(accs: map<string, Acc>, order: seq<string>): seq<(string, Accumulation.Error)>
    requires forall id :: id in order ==> id in accs
  {
    if order == [] then []
    else
      var id := order[|order| - 1];
      Untyped(accs, order[..|order| - 1]) + if accs[id].mtype == Unset then [(id, UnknownMetricType)] else []
  }

  /** The accumulators after the same call on each of those in `ids`, made once. */
  function Applied(accs: map<string, Acc>, ids: seq<string>, op: Op): map<string, Acc>
    requires forall id :: id in ids ==> id in accs
  {
    if ids == [] then accs
    else
      var id := ids[|ids| - 1];
      Applied(accs, ids[..|ids| - 1], op)[id := Apply(accs[id], op)]
  }

  lemma {:induction false} AppliedAt(accs: map<string, Acc>, ids: seq<string>, op: Op, id: string)
    requires forall id :: id in ids ==> id in accs
    ensures Applied(accs, ids, op).Keys == accs.Keys
    ensures id in accs ==> Applied(accs, ids, op)[id] == if id in ids then Apply(accs[id], op) else accs[id]
  {
    if ids != [] {
      var n := |ids| - 1;
      assert ids == ids[..n] + [ids[n]];
      AppliedAt(accs, ids[..n], op, id);
    }
  }

  lemma NotAppliedYet(accs: map<string, Acc>, ids: seq<string>, op: Op, i: nat)
    requires i < |ids| && Distinct(ids) && forall id :: id in ids ==> id in accs
    ensures ids[i] in Applied(accs, ids[..i], op) && Applied(accs, ids[..i], op)[ids[i]] == accs[ids[i]]
    ensures Applied(accs, ids[..i + 1], op) == Applied(accs, ids[..i], op)[ids[i] := Apply(accs[ids[i]], op)]
  {
    AppliedAt(accs, ids[..i], op, ids[i]);
    assert ids[..i + 1][..i] == ids[..i];
  }

  lemma NotSentYet(accs: map<string, Acc>, order: seq<string>, i: nat)
    requires forall id :: id in order ==> id in accs && Sound(accs[id]) && !accs[id].isStaged && accs[id].id == id
    requires Distinct(order) && i < |order|
    ensures forall v :: v in ToSend(accs, order[..i]) ==> v.id != order[i]
  {
    var before := order[..i];
    ToSendIds(accs, before);
    var ms := ToSend(accs, before);
    forall v | v in ms
      ensures v.id != order[i]
    {
      var k :| 0 <= k < |ms| && ms[k] == v;
      assert Ids(ms)[k] == v.id;
      assert v.id in Ids(ms);
      assert v.id in before;
      var j :| 0 <= j < |before| && before[j] == v.id;
      assert order[j] == v.id;
    }
  }

  lemma ResolvedAt(accs: map<string, Acc>, success: seq<string>, failure: seq<string>)
    requires forall id :: id in success || id in failure ==> id in accs
    requires forall id :: id in success ==> id !in failure
    ensures Applied(accs, success, CommitOp).Keys == accs.Keys
    ensures Applied(Applied(accs, success, CommitOp), failure, RollbackOp).Keys == accs.Keys
    ensures forall id :: id in accs ==>
              Applied(Applied(accs, success, CommitOp), failure, RollbackOp)[id]
              == if id in success then Commit(accs[id]).0
                 else if id in failure then Rollback(accs[id]) else accs[id]
  {
    AppliedAt(accs, success, CommitOp, "");
    var between := Applied(accs, success, CommitOp);
    AppliedAt(between, failure, RollbackOp, "");
    forall id | id in accs
      ensures Applied(between, failure, RollbackOp)[id]
              == if id in success then Commit(accs[id]).0
                 else if id in failure then Rollback(accs[id]) else accs[id]
    {
      AppliedAt(accs, success, CommitOp, id);
      AppliedAt(between, failure, RollbackOp, id);
    }
  }

  lemma ToSendNext(accs: map<string, Acc>, order: seq<string>, i: nat)
    requires forall id :: id in order ==> id in accs && Sound(accs[id]) && !accs[id].isStaged
    requires i < |order|
    ensures order[i] in order
    ensures ToSend(accs, order[..i + 1])
            == ToSend(accs, order[..i]) + if HasData(accs[order[i]]) then [Report(accs[order[i]])] else []
    ensures Untyped(accs, order[..i + 1])
            == Untyped(accs, order[..i]) + if accs[order[i]].mtype == Unset then [(order[i], UnknownMetricType)] else []
  {
    assert order[..i + 1][..i] == order[..i];
  }

  lemma {:induction false} ToSendIds(accs: map<string, Acc>, order: seq<string>)
    requires forall id :: id in order ==> id in accs && Sound(accs[id]) && !accs[id].isStaged && accs[id].id == id
    requires Distinct(order)
    ensures forall id :: id in Ids(ToSend(accs, order)) <==> id in order && HasData(accs[id])
    ensures Distinct(Ids(ToSend(accs, order)))
  {
    if order != [] {
      var n := |order| - 1;
      ToSendIds(accs, order[..n]);
      assert order == order[..n] + [order[n]];
      var ms := ToSend(accs, order[..n]);
      if HasData(accs[order[n]]) {
        var m := Report(accs[order[n]]);
        assert ToSend(accs, order) == ms + [m] && Ids(ms + [m]) == Ids(ms) + [m.id];
        assert m.id !in order[..n];
      } else {
        assert ToSend(accs, order) == ms;
      }
    }
  }

  /** What committing and rolling back make of staged accumulators. */
  lemma StagedThenResolved(accs: map<string, Acc>, order: seq<string>)
    requires forall id :: id in accs <==> id in order
    requires forall id :: id in accs ==> Sound(accs[id]) && !accs[id].isStaged
    ensures var staged := Applied(accs, order, StageOp);
            && staged.Keys == accs.Keys
            && (forall id :: id in accs ==> staged[id].isStaged == HasData(accs[id]))
            && (forall id :: id in accs && HasData(accs[id]) ==> Commit(staged[id]).0 == Emptied(accs[id]))
            && (forall id :: id in accs ==> Rollback(staged[id]) == accs[id])
            && (forall id :: id in accs && !HasData(accs[id]) ==> staged[id] == accs[id])
  {
    AppliedAt(accs, order, StageOp, "");
    forall id | id in accs
      ensures var a := Applied(accs, order, StageOp)[id];
              && a.isStaged == HasData(accs[id]) && Rollback(a) == accs[id]
              && (if HasData(accs[id]) then Commit(a).0 == Emptied(accs[id]) else a == accs[id])
    {
      AppliedAt(accs, order, StageOp, id);
      StageThenResolve(accs[id]);
    }
  }

  /** How an accumulator fares in a report, with what came meanwhile. */
  ghost predicate ReportedAt(views: map<string, Acc>, before: map<string, Acc>, success: seq<string>,
                             meanwhile: seq<(string, Op)>, id: string) {
    && (id in views <==> id in before || OpsFor(meanwhile, id) != [])
    && AccAt(views, id) == ApplyAll(if id in before && id in success then Emptied(before[id]) else AccAt(before, id),
                                    OpsFor(meanwhile, id))
  }

  ghost predicate Reported(views: map<string, Acc>, before: map<string, Acc>, success: seq<string>,
                           meanwhile: seq<(string, Op)>) {
    forall id :: ReportedAt(views, before, success, meanwhile, id)
  }

  /** A report is under way over all accumulators, each visited once, and finds none of them staged. */
  ghost predicate Visits(before: map<string, Acc>, order: seq<string>) {
    && AllSound(before) && (forall id :: id in before ==> !before[id].isStaged)
    && Distinct(order) && (forall id :: id in order <==> id in before)
  }

  /** What is staged waits behind any accumulation, to be emptied or restored under it. */
  lemma StagedBehind(before: map<string, Acc>, order: seq<string>, meanwhile: seq<(string, Op)>, id: string)
    requires Visits(before, order)
    requires forall p :: p in meanwhile ==> Accumulates(p.1)
    ensures var behind := PolledAll(Applied(before, order, StageOp), meanwhile);
            var ops := OpsFor(meanwhile, id);
            && (id in behind <==> id in before || ops != [])
            && (id in before && HasData(before[id]) ==>
                  && behind[id].isStaged && behind[id].stagedDelta == Stage(before[id]).stagedDelta
                  && Commit(behind[id]).0 == ApplyAll(Emptied(before[id]), ops)
                  && Rollback(behind[id]) == ApplyAll(before[id], ops))
            && (!(id in before && HasData(before[id])) ==> AccAt(behind, id) == ApplyAll(AccAt(before, id), ops))
  {
    var staged := Applied(before, order, StageOp);
    AppliedAt(before, order, StageOp, id);
    PolledAt(staged, meanwhile, id);
    if id in before {
      StageThenResolve(before[id]);
      if HasData(before[id]) {
        ResolveCommutesAll(staged[id], OpsFor(meanwhile, id));
      }
    }
  }

  class Reporter {
    const fmt: real -> string
    const stor: Storage
    const batch: BatchExecutor?
    const pool: WorkerPoolExecutor?

    /** A positive number of requests selects the worker pool, else all is sent as one batch. */
    constructor (fmt: real -> string, stor: Storage, maxNumberOfRequests: int)
      requires stor.Valid()
      ensures this.stor == stor && this.fmt == fmt && Ready()
      ensures pool != null <==> maxNumberOfRequests > 0
    {
      this.fmt, this.stor := fmt, stor;
      if maxNumberOfRequests > 0 {
        batch := null;
        pool := new WorkerPoolExecutor(maxNumberOfRequests);
      } else {
        batch := new BatchExecutor();
        pool := null;
      }
    }

    ghost predicate Ready()
      reads this, pool, stor, stor.repr
    {
      && stor.Valid() && pool !in stor.repr
      && (pool == null ==> batch != null)
      && (pool != null ==> Inv(pool.pool) && pool.pool.rate >= 1 && !pool.pool.running && !pool.pool.closed)
    }

    /**
     `order` is the order in which the accumulators come up, `meanwhile` what is accumulated while the metrics are
     under way, `sendOk` the outcome of a batch send, `pick` the schedule and outcomes of a pooled one; `log` collects
     the errors that are only logged.
     */
    method ExecReport(order: seq<string>, meanwhile: seq<(string, Op)>, sendOk: bool, pick: (nat, Pool) -> Step)
        returns (sent: seq<Metric>, result: Result, log: seq<(string, Accumulation.Error)>)
      requires Ready()
      requires Visits(stor.views, order)
      requires forall p :: p in meanwhile ==> Accumulates(p.1)
      requires Schedules(pick)
      modifies stor.repr, pool
      ensures Ready() && fresh(stor.repr - old(stor.repr))
      // what is sent is what was staged, whatever is accumulated behind it
      ensures sent == ToSend(old(stor.views), order)
      // every accumulator with data is reported once, and succeeds as its send did
      ensures forall id :: id in result.successIDs || id in result.failureIDs
                           <==> id in old(stor.views) && HasData(old(stor.views)[id])
      ensures Distinct(result.successIDs + result.failureIDs)
      ensures Outcome(result, sent, sendOk, pick, old(PoolState()))
      // and it ends up as if what came meanwhile had come to it emptied, or as it was
      ensures Reported(stor.views, old(stor.views), result.successIDs, meanwhile)
      // the errors are exactly the accumulators whose type is not set yet
      ensures log == Untyped(old(stor.views), order)
    {
      ghost var before := stor.views;
      var marray;
      marray, log := StageAll(order);
      PollBehind(marray, before, order, meanwhile);
      sent := Read(marray, ToSend(before, order));
      result := Send(sent, sendOk, pick);
      ResolveReport(result.successIDs, result.failureIDs, before, order, meanwhile);
    }

    /** The pollers' work while metrics are under way leaves these as they are. */
    method PollBehind(marray: seq<Metrics>, ghost before: map<string, Acc>, ghost order: seq<string>,
                      meanwhile: seq<(string, Op)>)
      requires Visits(before, order)
      requires forall p :: p in meanwhile ==> Accumulates(p.1)
      requires stor.Valid() && stor.views == Applied(before, order, StageOp)
      requires AllBacked(marray, ToSend(before, order))
      modifies stor.repr
      ensures stor.Valid() && fresh(stor.repr - old(stor.repr))
      ensures stor.views == PolledAll(Applied(before, order, StageOp), meanwhile)
      ensures AllBacked(marray, ToSend(before, order))
    {
      stor.Poll(fmt, meanwhile);
      ToSendIds(before, order);
      forall i | 0 <= i < |marray|
        ensures marray[i] !in stor.repr && stor.Backs(marray[i], ToSend(before, order)[i])
      {
        ghost var v := ToSend(before, order)[i];
        assert Ids(ToSend(before, order))[i] == v.id;
        AppliedAt(before, order, StageOp, v.id);
        StagedBehind(before, order, meanwhile, v.id);
      }
    }

    /** The values of the staged metrics, as an executor reads them when it sends. */
    method Read(marray: seq<Metrics>, ghost values: seq<Metric>) returns (ms: seq<Metric>)
      requires stor.Valid() && |marray| == |values|
      requires forall i :: 0 <= i < |marray| ==> stor.Backs(marray[i], values[i])
      ensures ms == values
    {
      ms := [];
      for i := 0 to |marray|
        invariant ms == values[..i]
      {
        stor.BackedShows(marray[i], values[i]);
        ms := ms + [marray[i].View()];
      }
    }

    /** Resolving what was staged: `before` is what the accumulators held before it, `meanwhile` came since. */
    method ResolveReport(success: seq<string>, failure: seq<string>, ghost before: map<string, Acc>,
                         ghost order: seq<string>, ghost meanwhile: seq<(string, Op)>)
      requires Visits(before, order)
      requires forall p :: p in meanwhile ==> Accumulates(p.1)
      requires stor.Valid() && stor.views == PolledAll(Applied(before, order, StageOp), meanwhile)
      requires multiset(success) + multiset(failure) == multiset(Ids(ToSend(before, order)))
      modifies stor.repr
      ensures stor.Valid() && fresh(stor.repr - old(stor.repr))
      ensures Distinct(success + failure)
      ensures forall id :: id in success || id in failure <==> id in before && HasData(before[id])
      ensures Reported(stor.views, before, success, meanwhile)
    {
      ToSendIds(before, order);
      SplitDistinct(Ids(ToSend(before, order)), success, failure);
      ghost var behind := stor.views;
      forall id
        ensures id in behind <==> id in before || OpsFor(meanwhile, id) != []
        ensures id in success || id in failure ==> id in behind && behind[id].isStaged
      {
        StagedBehind(before, order, meanwhile, id);
      }
      Resolve(success, failure);
      forall id
        ensures ReportedAt(stor.views, before, success, meanwhile, id)
      {
        StagedBehind(before, order, meanwhile, id);
      }
    }

    /** Success and failure are what the sends returned. */
    /** The outcome lists are those of the sends: of the one batch, or of those the schedule makes in the pool. */
    ghost predicate Outcome(result: Result, marray: seq<Metric>, sendOk: bool, pick: (nat, Pool) -> Step, before: Pool)
      reads result
    {
      if pool == null then
        && result.successIDs == (if sendOk then Ids(marray) else [])
        && result.failureIDs == (if sendOk then [] else Ids(marray))
      else
        && Enabled(before, Begin(marray))
        && ListsSends(result.successIDs, result.failureIDs, SendsOf(before, marray, pick))
    }

    /** The pool's state, if there is a pool. */
    ghost function PoolState(): Pool
      reads pool
    {
      if pool == null then NewPool(0) else pool.pool
    }

    method Send(marray: seq<Metric>, sendOk: bool, pick: (nat, Pool) -> Step) returns (result: Result)
      requires Ready()
      requires Schedules(pick)
      modifies pool
      ensures Ready() && fresh(result)
      ensures multiset(result.successIDs) + multiset(result.failureIDs) == multiset(Ids(marray))
      ensures Outcome(result, marray, sendOk, pick, old(PoolState()))
    {
      if pool != null {
        result := pool.Execute(marray, pick);
      } else {
        result := batch.Execute(marray, sendOk);
      }
    }

    /** Commits the successes and rolls back the failures. */
    method Resolve(success: seq<string>, failure: seq<string>)
      requires stor.Valid() && forall id :: id in success || id in failure ==> id in stor.views
      requires forall id :: id in success ==> stor.views[id].isStaged && id !in failure
      requires Distinct(success) && Distinct(failure)
      modifies stor.repr
      ensures stor.Valid() && fresh(stor.repr - old(stor.repr)) && stor.views.Keys == old(stor.views).Keys
      ensures forall id :: id in stor.views ==>
                stor.views[id] == if id in success then Commit(old(stor.views)[id]).0
                                   else if id in failure then Rollback(old(stor.views)[id])
                                   else old(stor.views)[id]
    {
      ResolvedAt(stor.views, success, failure);
      CommitAll(success);
      RollbackAll(failure);
    }

    method CommitAll(ids: seq<string>)
      requires stor.Valid() && Distinct(ids)
      requires forall id :: id in ids ==> id in stor.views && stor.views[id].isStaged
      modifies stor.repr
      ensures stor.Valid() && fresh(stor.repr - old(stor.repr))
      ensures stor.views == Applied(old(stor.views), ids, CommitOp)
    {
      ghost var before := stor.views;
      for i := 0 to |ids|
        invariant stor.Valid() && fresh(stor.repr - old(stor.repr))
        invariant stor.views == Applied(before, ids[..i], CommitOp)
      {
        assert ids[i] in ids;
        NotAppliedYet(before, ids, CommitOp, i);
        var _, err := stor.On(fmt, ids[i], CommitOp);
        assert err == None; // so the error branch is never taken
      }
      assert ids[..|ids|] == ids;
    }

    method RollbackAll(ids: seq<string>)
      requires stor.Valid() && Distinct(ids)
      requires forall id :: id in ids ==> id in stor.views
      modifies stor.repr
      ensures stor.Valid() && fresh(stor.repr - old(stor.repr))
      ensures stor.views == Applied(old(stor.views), ids, RollbackOp)
    {
      ghost var before := stor.views;
      for i := 0 to |ids|
        invariant stor.Valid() && fresh(stor.repr - old(stor.repr))
        invariant stor.views == Applied(before, ids[..i], RollbackOp)
      {
        assert ids[i] in ids;
        NotAppliedYet(before, ids, RollbackOp, i);
        var _, _ := stor.On(fmt, ids[i], RollbackOp);
      }
      assert ids[..|ids|] == ids;
    }

    /** Staging one more leaves those staged before as they are. */
    method StageOne(id: string, ghost marray: seq<Metrics>, ghost values: seq<Metric>)
        returns (metric: Metrics?, err: Option<Accumulation.Error>)
      requires stor.Valid() && id in stor.views && !stor.views[id].isStaged
      requires AllBacked(marray, values) && forall v :: v in values ==> v.id != id
      modifies stor.repr
      ensures stor.Valid() && fresh(stor.repr - old(stor.repr)) && stor.accums == old(stor.accums)
      ensures stor.views == old(stor.views)[id := Stage(old(stor.views)[id])]
      ensures metric != null <==> HasData(old(stor.views)[id])
      ensures if metric == null then AllBacked(marray, values)
              else AllBacked(marray + [metric], values + [Report(old(stor.views)[id])])
      ensures err == if old(stor.views)[id].mtype == Unset then Some(UnknownMetricType) else None
    {
      StageThenResolve(stor.views[id]);
      metric, err := stor.On(fmt, id, StageOp);
      forall i | 0 <= i < |marray|
        ensures marray[i] !in stor.repr && stor.Backs(marray[i], values[i])
      {
        assert values[i] in values;
      }
    }

    method StageAll(order: seq<string>) returns (marray: seq<Metrics>, log: seq<(string, Accumulation.Error)>)
      requires stor.Valid() && Visits(stor.views, order)
      modifies stor.repr
      ensures stor.Valid() && fresh(stor.repr - old(stor.repr)) && stor.accums == old(stor.accums)
      ensures stor.views == Applied(old(stor.views), order, StageOp)
      ensures AllBacked(marray, ToSend(old(stor.views), order))
      ensures log == Untyped(old(stor.views), order)
    {
      marray, log := [], [];
      ghost var before := stor.views;
      for i := 0 to |order|
        invariant stor.Valid() && fresh(stor.repr - old(stor.repr)) && stor.accums == old(stor.accums)
        invariant StagedUpTo(before, order, i, marray, log)
      {
        marray, log := StageNext(before, order, i, marray, log);
      }
      assert order[..|order|] == order;
    }

    ghost predicate StagedUpTo(before: map<string, Acc>, order: seq<string>, i: nat, marray: seq<Metrics>,
                               log: seq<(string, Accumulation.Error)>)
      requires i <= |order| && forall id :: id in order ==> id in before && Sound(before[id]) && !before[id].isStaged
      reads stor, marray
    {
      && stor.views == Applied(before, order[..i], StageOp)
      && AllBacked(marray, ToSend(before, order[..i]))
      && log == Untyped(before, order[..i])
    }

    /** The turn of one accumulator. */
    method StageNext(ghost before: map<string, Acc>, order: seq<string>, i: nat, marray: seq<Metrics>,
                     log: seq<(string, Accumulation.Error)>)
        returns (marray': seq<Metrics>, log': seq<(string, Accumulation.Error)>)
      requires stor.Valid() && AllSound(before) && i < |order| && Distinct(order)
      requires forall id :: id in order ==> id in before && !before[id].isStaged
      requires StagedUpTo(before, order, i, marray, log)
      modifies stor.repr
      ensures stor.Valid() && fresh(stor.repr - old(stor.repr)) && stor.accums == old(stor.accums)
      ensures StagedUpTo(before, order, i + 1, marray', log')
    {
      ToSendNext(before, order, i);
      NotSentYet(before, order, i);
      NotAppliedYet(before, order, StageOp, i);
      marray', log' := marray, log;
      var metric, err := StageOne(order[i], marray, ToSend(before, order[..i]));
      if err.Some? {
        log' := log + [(order[i], err.value)];
        return;
      }
      if metric != null {
        marray' := marray + [metric];
      }
    }

    /** The metric objects that stand for these values, none of them part of the storage. */
    ghost predicate AllBacked(marray: seq<Metrics>, values: seq<Metric>)
      reads stor, marray
    {
      && |marray| == |values|
      && forall i :: 0 <= i < |marray| ==> marray[i] !in stor.repr && stor.Backs(marray[i], values[i])
    }
  }
}
