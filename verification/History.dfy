/** What one accumulator has taken in and given out, over any sequence of calls. */
module History {
  import opened Int64
  import opened Model
  import opened Accumulation

  /**
   The accumulator with its past: the samples and increments it accepted, the metric last handed out by
   staging, and what was committed: the blocks of samples, the values reported for them, and the counter total.
   */
  datatype Log = Log(
    acc: Acc,
    samples: seq<real>,
    increments: int,
    handedOut: Option<Metric>,
    blocks: seq<seq<real>>,
    reports: seq<real>,
    committed: int)

  function Start(id: string): Log {
    Log(NewAcc(id), [], 0, None, [], [], 0)
  }

  function Step(l: Log, op: Op): Log {
    var l' := l.(acc := Apply(l.acc, op));
    match op
    case IncCounter(inc) =>
      if WithCounter(l.acc, inc).1 == None then l'.(increments := l.increments + inc) else l'
    case AddGauge(x) =>
      if WithGauge(l.acc, x).1 == None then l'.(samples := l.samples + [x]) else l'
    case StageOp =>
      if !l.acc.isStaged && l'.acc.isStaged then l'.(handedOut := Some(StagedMetric(l'.acc))) else l'
    case CommitOp =>
      if Commit(l.acc).1.Some? || l.handedOut == None then l'
      else if l.acc.mtype == Gauge && l.handedOut.value.value.Some? then
        l'.(blocks := l.blocks + [l.acc.stagedValues], reports := l.reports + [l.handedOut.value.value.value])
      else if l.handedOut.value.delta.Some? then
        l'.(committed := l.committed + l.handedOut.value.delta.value)
      else l'
    case RollbackOp => l'
  }

  function Run(id: string, ops: seq<Op>): Log {
    if ops == [] then Start(id) else Step(Run(id, ops[..|ops| - 1]), ops[|ops| - 1])
  }

  function Flatten(blocks: seq<seq<real>>): seq<real> {
    if blocks == [] then [] else Flatten(blocks[..|blocks| - 1]) + blocks[|blocks| - 1]
  }

  ghost predicate Inv(l: Log) {
    && Sound(l.acc)
    && (l.acc.isStaged ==> l.handedOut == Some(StagedMetric(l.acc)))
    && l.samples == Flatten(l.blocks) + l.acc.stagedValues + l.acc.values
    && Congruent(l.increments, l.committed + l.acc.stagedDelta + Amount(l.acc.delta))
    && |l.reports| == |l.blocks|
    && (forall i | 0 <= i < |l.blocks| :: l.blocks[i] != [] && l.reports[i] == Mean(l.blocks[i]))
  }

  lemma IncrementKeepsInv(l: Log, inc: int64)
    requires Inv(l)
    ensures Inv(Step(l, IncCounter(inc)))
  {
    var rest := l.committed + l.acc.stagedDelta;
    var d := Amount(l.acc.delta);
    CongruentAdd(l.increments, rest + d, inc);
    WrapAdd(d + inc, rest);
    assert Wrap(d + inc) + rest == rest + Wrap(d + inc);
  }

  lemma RollbackKeepsInv(l: Log)
    requires Inv(l)
    ensures Inv(Step(l, RollbackOp))
  {
    assert Flatten(l.blocks) + (l.acc.stagedValues + l.acc.values)
        == Flatten(l.blocks) + l.acc.stagedValues + l.acc.values;
    var d := Amount(l.acc.delta);
    WrapAdd(d + l.acc.stagedDelta, l.committed);
  }

  lemma CommitKeepsInv(l: Log)
    requires Inv(l)
    ensures Inv(Step(l, CommitOp))
  {
    var l' := Step(l, CommitOp);
    if l'.blocks != l.blocks {
      assert l'.blocks[..|l.blocks|] == l.blocks;
      assert Flatten(l'.blocks) == Flatten(l.blocks) + l.acc.stagedValues;
      assert Flatten(l'.blocks) + [] + l.acc.values == Flatten(l.blocks) + l.acc.stagedValues + l.acc.values;
    }
  }

  lemma StepKeepsInv(l: Log, op: Op)
    requires Inv(l)
    ensures Inv(Step(l, op))
  {
    match op
    case IncCounter(inc) => IncrementKeepsInv(l, inc);
    case AddGauge(x) =>
      assert Flatten(l.blocks) + l.acc.stagedValues + (l.acc.values + [x])
          == Flatten(l.blocks) + l.acc.stagedValues + l.acc.values + [x];
    case StageOp =>
      assert Flatten(l.blocks) + l.acc.values + [] == Flatten(l.blocks) + [] + l.acc.values;
    case CommitOp => CommitKeepsInv(l);
    case RollbackOp => RollbackKeepsInv(l);
  }

  /**
   After any calls: the samples accepted, in order, are the committed blocks, then the staged block, then
   the pending ones; each report is the mean of its block; and the increments are all accounted for modulo 2^64.
   */
  lemma {:induction false} NothingLost(id: string, ops: seq<Op>)
    ensures Inv(Run(id, ops))
  {
    if ops != [] {
      NothingLost(id, ops[..|ops| - 1]);
      StepKeepsInv(Run(id, ops[..|ops| - 1]), ops[|ops| - 1]);
    }
  }

  lemma {:induction false} SumAppend(xs: seq<real>, ys: seq<real>)
    ensures Sum(xs + ys) == Sum(xs) + Sum(ys)
  {
    if ys == [] {
      assert xs + ys == xs;
    } else {
      SumAppend(xs, ys[..|ys| - 1]);
      assert (xs + ys)[..|xs + ys| - 1] == xs + ys[..|ys| - 1];
    }
  }

  lemma {:induction false} SumBounds(xs: seq<real>, lo: real, hi: real)
    requires forall x | x in xs :: lo <= x <= hi
    ensures |xs| as real * lo <= Sum(xs) <= |xs| as real * hi
  {
    if xs != [] {
      var ys := xs[..|xs| - 1];
      forall y | y in ys
        ensures y in xs
      {
      }
      SumBounds(ys, lo, hi);
      assert xs[|xs| - 1] in xs;
      assert |xs| as real * lo == |ys| as real * lo + lo && |xs| as real * hi == |ys| as real * hi + hi;
    }
  }

  /** A mean lies between any bounds of its samples, so between the least and the greatest. */
  lemma MeanBetween(xs: seq<real>, lo: real, hi: real)
    requires xs != [] && forall x | x in xs :: lo <= x <= hi
    ensures lo <= Mean(xs) <= hi
  {
    SumBounds(xs, lo, hi);
    var n := |xs| as real;
    assert Mean(xs) * n == Sum(xs);
    assert (Mean(xs) - lo) * n >= 0.0 && (hi - Mean(xs)) * n >= 0.0;
  }

  /** What the server could add up: each report times the number of samples it stands for. */
  function Weighted(blocks: seq<seq<real>>, reports: seq<real>): real
    requires |blocks| == |reports|
  {
    if blocks == [] then 0.0
    else Weighted(blocks[..|blocks| - 1], reports[..|reports| - 1])
         + |blocks[|blocks| - 1]| as real * reports[|reports| - 1]
  }

  lemma {:induction false} WeightedFlatten(blocks: seq<seq<real>>, reports: seq<real>)
    requires |blocks| == |reports|
    requires forall i | 0 <= i < |blocks| :: blocks[i] != [] && reports[i] == Mean(blocks[i])
    ensures Weighted(blocks, reports) == Sum(Flatten(blocks))
  {
    if blocks != [] {
      var n := |blocks| - 1;
      WeightedFlatten(blocks[..n], reports[..n]);
      SumAppend(Flatten(blocks[..n]), blocks[n]);
      assert |blocks[n]| as real * Mean(blocks[n]) == Sum(blocks[n]);
    }
  }

  /** Committed reports weighted by their sizes, plus what is staged and pending, add up to all accepted samples. */
  lemma GaugeMassConserved(id: string, ops: seq<Op>)
    ensures var l := Run(id, ops);
            |l.reports| == |l.blocks| &&
            Weighted(l.blocks, l.reports) + Sum(l.acc.stagedValues) + Sum(l.acc.values) == Sum(l.samples)
  {
    var l := Run(id, ops);
    NothingLost(id, ops);
    WeightedFlatten(l.blocks, l.reports);
    SumAppend(Flatten(l.blocks), l.acc.stagedValues);
    SumAppend(Flatten(l.blocks) + l.acc.stagedValues, l.acc.values);
  }
}
