/** The training coordinator: jobs, their workers, and the rounds that move gradients between them. */
module Coordinator {
  import opened Wrappers
  import opened Vectors
  import opened Sorting
  import opened Statistics
  import opened Aggregation
  import opened Collection
  import TopK

  datatype WorkerStatus = Assigned | Downloading | TrainingLocally | UploadingGradients | Idle | WorkerFailed

  datatype JobStatus = Initializing | Distributing | Training | Aggregating | Checkpointing | JobCompleted | JobFailed

  datatype CompressionLevel = NoCompression | TopKCompression | RandomCompression

  datatype CoordinatorError = MinimumTooLow | JobNotFound | TooFewGradients

  /** A configuration without the full set of keys gets defaults; only a full one is checked. */
  datatype CoordinatorConfig = Simplified | Full(minWorkers: int, level: CompressionLevel)

  datatype AggregationResult = AggregationResult(
    aggregatedGradient: seq<real>,
    excludedWorkers: seq<string>,
    reputationPenalties: map<string, int>)

  class WorkerState {
    const nodeId: string
    var status: WorkerStatus
    var gradientNorm: real
    var reputationScore: int
    var modelShard: Option<seq<real>>

    constructor (nodeId: string)
      ensures this.nodeId == nodeId && status == Assigned && gradientNorm == 0.0 && reputationScore == 100
      ensures modelShard == None
    {
      this.nodeId, status, gradientNorm, reputationScore, modelShard := nodeId, Assigned, 0.0, 100, None;
    }
  }

  class TrainingJob {
    var status: JobStatus
    /** The keys of workers in insertion order. */
    var order: seq<string>
    var workers: map<string, WorkerState>
    var currentEpoch: nat
    const learningRate: real
    var globalModel: Option<seq<real>>
    var aggregationBuffer: Option<seq<Contribution>>

    ghost predicate Valid()
      reads this`order, this`workers
    {
      && NoRepeats(order)
      && (forall id :: id in order <==> id in workers)
      && (forall id, id' :: id in workers && id' in workers && id != id' ==> workers[id] != workers[id'])
    }

    ghost function RecordedNorms(): (r: map<string, real>)
      reads this`workers, workers.Values`gradientNorm
      ensures r.Keys == workers.Keys
    {
      map id | id in workers :: workers[id].gradientNorm
    }

    ghost function Reputations(): (r: map<string, int>)
      reads this`workers, workers.Values`reputationScore
      ensures r.Keys == workers.Keys
    {
      map id | id in workers :: workers[id].reputationScore
    }

    /** The first k workers are idle and hold their slices of the model. */
    ghost predicate Sharded(k: nat)
      requires k <= |order| && Valid()
      reads this, workers.Values
    {
      globalModel.Some? && forall i :: 0 <= i < k ==>
        && workers[order[i]].modelShard == Some(Shard(globalModel.value, |order|, i))
        && workers[order[i]].status == Idle
    }

    /** The penalties on record: thirty points for each excluded worker, applied once to the reputations before. */
    ghost predicate Booked(before: map<string, int>, excluded: seq<string>, penalties: map<string, int>)
      requires before.Keys == workers.Keys
      reads this`workers, workers.Values`reputationScore
    {
      && penalties == (map id | id in excluded :: 30)
      && forall id :: id in workers ==> workers[id].reputationScore == Penalised(before[id], id in excluded, 30)
    }

    /** Ten points off each worker whose gradient was rejected. */
    ghost predicate Docked(before: map<string, int>, rejected: set<string>)
      requires before.Keys == workers.Keys
      reads this`workers, workers.Values`reputationScore
    {
      forall id :: id in workers ==> workers[id].reputationScore == before[id] - if id in rejected then 10 else 0
    }

    /** Every worker carries the norm recorded for it. */
    ghost predicate Carries(recorded: map<string, real>)
      reads this`workers, workers.Values`gradientNorm
    {
      recorded.Keys == workers.Keys && forall id :: id in workers ==> workers[id].gradientNorm == recorded[id]
    }

    method Exclude(id: string, excluded: seq<string>, penalties: map<string, int>, ghost before: map<string, int>)
      returns (excluded': seq<string>, penalties': map<string, int>)
      requires Valid() && id in workers && id !in excluded
      requires before.Keys == workers.Keys && Booked(before, excluded, penalties)
      modifies {workers[id]}`reputationScore
      ensures excluded' == excluded + [id] && Booked(before, excluded', penalties')
    {
      excluded' := excluded + [id];
      penalties' := penalties[id := 30];
      var worker := workers[id];
      worker.reputationScore := Max0(worker.reputationScore - 30);
    }

    /** The loop of distributeModel over the workers of the job. */
    method HandOutShards()
      requires Valid() && globalModel.Some?
      modifies workers.Values`modelShard, workers.Values`status
      ensures Sharded(|order|)
    {
      var model, workerCount := globalModel.value, |order|;
      for index := 0 to workerCount
        invariant Sharded(index)
      {
        var shard := CutShard(model, workerCount, index);
        var worker := workers[order[index]];
        worker.modelShard := Some(shard);
        worker.status := Downloading;
        worker.status := Idle;
      }
    }

    static method CutShard(model: seq<real>, workerCount: nat, index: nat) returns (shard: seq<real>)
      requires index < workerCount
      ensures shard == Shard(model, workerCount, index)
    {
      var shardSize := |model| / workerCount;
      ShardFits(|model|, workerCount, index);
      var start := index * shardSize;
      var end := if index == workerCount - 1 then |model| else (index + 1) * shardSize;
      shard := model[start..end];
    }

    /** Each reputation is what the round leaves of the one before. */
    ghost predicate Rescored(before: map<string, int>, round: Round, minWorkers: nat, root: real -> real)
      requires before.Keys == workers.Keys && Recorded(round.accepted, round.recorded)
      reads this`workers, workers.Values`reputationScore
    {
      forall id :: id in workers ==> workers[id].reputationScore == ScoreAfter(before[id], id, round, minWorkers, root)
    }

    /** The first k workers have had their turn. */
    ghost predicate Settled(live: set<string>, k: nat)
      requires Valid() && k <= |order|
      reads this`order, this`workers, workers.Values`status
    {
      forall i :: 0 <= i < k ==> workers[order[i]].status == if order[i] in live then Idle else WorkerFailed
    }

    /** At the start of a round nobody has been docked or had a turn. */
    lemma OpenBooks()
      requires Valid()
      ensures Carries(RecordedNorms()) && Docked(Reputations(), {}) && LiveAre(Live()) && Settled(Live(), 0)
      ensures Booked(Reputations(), [], map[])
    {}

    ghost predicate LiveAre(live: set<string>)
      reads this`workers, workers.Values`status
    {
      forall id :: id in workers ==> (id in live <==> workers[id].status != WorkerFailed)
    }

    ghost function Live(): set<string>
      reads this`workers, workers.Values`status
    {
      set id | id in workers && workers[id].status != WorkerFailed
    }
  }

  /** The ids the norm filter takes out, in order. */
  ghost function Excluded(gs: seq<Contribution>, recorded: map<string, real>, cut: real): (ids: seq<string>)
    requires Recorded(gs, recorded)
  {
    if gs == [] then [] else
      var last := gs[|gs| - 1];
      assert last in gs;
      Excluded(gs[..|gs| - 1], recorded, cut) + if cut < recorded[last.id] then [last.id] else []
  }

  /** v, count and excluded are the sum, the number and the complement of the survivors among the first k entries. */
  ghost predicate Filtered(gs: seq<Contribution>, k: nat, recorded: map<string, real>, cut: real,
                           v: seq<real>, count: nat, excluded: seq<string>)
  {
    && k <= |gs| && Recorded(gs[..k], recorded)
    && v == VectorSum(Survivors(gs[..k], recorded, cut), |v|)
    && count == |Survivors(gs[..k], recorded, cut)|
    && excluded == Excluded(gs[..k], recorded, cut)
  }

  /** One more entry: it is either excluded or added to the sum. */
  lemma {:induction false} FilterStep(gs: seq<Contribution>, k: nat, recorded: map<string, real>, cut: real,
                                      v: seq<real>, count: nat, excluded: seq<string>)
    requires k < |gs| && Recorded(gs, recorded) && Filtered(gs, k, recorded, cut, v, count, excluded)
    ensures gs[k] in gs
    ensures if cut < recorded[gs[k].id] then Filtered(gs, k + 1, recorded, cut, v, count, excluded + [gs[k].id])
            else Filtered(gs, k + 1, recorded, cut, Plus(v, Padded(gs[k].gradient, |v|)), count + 1, excluded)
  {
    assert gs[..k + 1][..k] == gs[..k];
    var c, before := gs[k], Survivors(gs[..k], recorded, cut);
    if recorded[c.id] <= cut {
      assert Survivors(gs[..k + 1], recorded, cut) == before + [c];
      assert (before + [c])[..|before|] == before;
    } else {
      assert Survivors(gs[..k + 1], recorded, cut) == before;
    }
  }

  function Max0(n: int): int {
    if n < 0 then 0 else n
  }

  /** A reputation after a penalty that does not go below zero. */
  function Penalised(score: int, hit: bool, penalty: int): int {
    if hit then Max0(score - penalty) else score
  }

  /** A worker's reputation after a round: ten points for a rejected gradient, twenty, floored at zero, for an outlier. */
  function ScoreAfter(score: int, id: string, round: Round, minWorkers: nat, root: real -> real): int
    requires forall c :: c in round.accepted ==> c.id in round.recorded
  {
    var docked := score - if id in round.rejected then 10 else 0;
    Penalised(docked, |round.accepted| >= minWorkers && id in OutlierIds(round.accepted, round.recorded, round.norms, root), 20)
  }

  lemma {:induction false} OutlierStep(gs: seq<Contribution>, k: nat, recorded: map<string, real>, norms: seq<real>, root: real -> real)
    requires k < |gs| && Recorded(gs, recorded) && DistinctIds(gs)
    ensures Recorded(gs[..k], recorded) && Recorded(gs[..k + 1], recorded) && gs[k].id in recorded
    ensures var out := IsOutlier(recorded[gs[k].id], norms, root);
            && WithoutOutliers(gs[..k + 1], recorded, norms, root)
                 == WithoutOutliers(gs[..k], recorded, norms, root) + (if out then [] else [gs[k]])
            && OutlierIds(gs[..k + 1], recorded, norms, root)
                 == OutlierIds(gs[..k], recorded, norms, root) + (if out then {gs[k].id} else {})
            && gs[k].id !in OutlierIds(gs[..k], recorded, norms, root)
  {
    assert gs[..k + 1][..k] == gs[..k];
    assert gs[..k + 1] == gs[..k] + [gs[k]];
    assert gs[k] in gs;
  }

  /** A vector that keeps some min(k, n) coordinates of v and is zero elsewhere. */
  ghost predicate KeepsSome(v: seq<real>, r: seq<real>, k: nat) {
    exists kept: set<int> :: kept <= TopK.Range(|v|) && |kept| == TopK.Min(k, |v|) && KeepsExactly(v, r, kept)
  }

  ghost predicate KeepsExactly(v: seq<real>, r: seq<real>, kept: set<int>) {
    |r| == |v| && forall i :: 0 <= i < |v| ==> r[i] == if i in kept then v[i] else 0.0
  }

  /** What the configured compression may make of the mean. */
  ghost predicate Compressed(mean: seq<real>, r: seq<real>, level: CompressionLevel) {
    match level
    case NoCompression => r == mean
    case TopKCompression => r == TopK.Sparsified(mean, TopK.KeepCount(|mean|, 0.01))
    case RandomCompression => KeepsSome(mean, r, TopK.KeepCount(|mean|, 0.1))
  }

  /** The result of a successful aggregation: the compressed robust mean, and who was left out of it. */
  ghost predicate Aggregates(gs: seq<Contribution>, recorded: map<string, real>, level: CompressionLevel,
                             root: real -> real, r: AggregationResult)
    requires gs != [] && Recorded(gs, recorded)
  {
    && Compressed(RobustMean(gs, recorded, root), r.aggregatedGradient, level)
    && r.excludedWorkers == Excluded(gs, recorded, Cut(gs, root))
  }

  /** The model after a step against the aggregate. Where the aggregate is too short the code computes NaN, and nothing
      is said here. */
  ghost predicate Moved(before: Option<seq<real>>, after: Option<seq<real>>, aggregate: seq<real>, learningRate: real) {
    match before
    case None => after.None?
    case Some(model) =>
      && after.Some? && |after.value| == |model|
      && forall i :: 0 <= i < |model| && i < |aggregate| ==> after.value[i] == model[i] - learningRate * aggregate[i]
  }

  lemma StepIsBounded(before: Option<seq<real>>, after: Option<seq<real>>, aggregate: seq<real>, learningRate: real, b: real, i: nat)
    requires Moved(before, after, aggregate, learningRate) && before.Some? && i < |before.value| && i < |aggregate|
    requires Within(aggregate, b) && 0.0 <= b
    ensures Abs(after.value[i] - before.value[i]) <= Abs(learningRate) * b
  {
    var l, g := Abs(learningRate), Abs(aggregate[i]);
    assert 0.0 <= l * (b - g);
    assert l * g == Abs(learningRate * aggregate[i]) by {
      AbsProduct(learningRate, aggregate[i]);
    }
  }

  lemma AbsProduct(x: real, y: real)
    ensures Abs(x * y) == Abs(x) * Abs(y)
  {}

  class TrainingCoordinator {
    var jobs: map<string, TrainingJob>
    const minWorkers: nat
    const level: CompressionLevel
    const root: real -> real

    ghost predicate Valid()
      reads this, jobs.Values
    {
      && 5 <= minWorkers
      && (forall id :: id in jobs ==> jobs[id].Valid())
    }

    constructor (minWorkers: nat, level: CompressionLevel, root: real -> real)
      requires 5 <= minWorkers
      ensures Valid() && jobs == map[] && this.minWorkers == minWorkers && this.level == level && this.root == root
    {
      this.minWorkers, this.level, this.root, jobs := minWorkers, level, root, map[];
    }

    /** A full configuration must ask for five workers at least. */
    static method FromConfig(config: CoordinatorConfig, root: real -> real) returns (r: Result<TrainingCoordinator, CoordinatorError>)
      ensures r == Err(MinimumTooLow) <==> config.Full? && config.minWorkers < 5
      ensures r.Err? ==> r.error == MinimumTooLow
      ensures r.Ok? ==> fresh(r.value) && r.value.Valid() && r.value.jobs == map[] && r.value.root == root
      ensures r.Ok? ==> r.value.minWorkers == if config.Full? then config.minWorkers else 5
      ensures r.Ok? ==> r.value.level == if config.Full? then config.level else NoCompression
    {
      if config.Full? && config.minWorkers < 5 {
        return Err(MinimumTooLow);
      }
      var minWorkers, level := if config.Full? then config.minWorkers else 5, if config.Full? then config.level else NoCompression;
      var coordinator := new TrainingCoordinator(minWorkers, level, root);
      r := Ok(coordinator);
    }

    method ComputeGradientNorm(gradient: seq<real>) returns (norm: real)
      ensures norm == Norm(gradient, root)
    {
      var sum := 0.0;
      for i := 0 to |gradient|
        invariant sum == Dot(gradient, gradient, i)
      {
        sum := sum + gradient[i] * gradient[i];
      }
      norm := root(sum);
    }

    method GradientNorms(gradients: seq<Contribution>) returns (norms: seq<real>)
      ensures norms == Norms(gradients, root)
    {
      norms := [];
      for i := 0 to |gradients|
        invariant |norms| == i && forall j :: 0 <= j < i ==> norms[j] == Norm(gradients[j].gradient, root)
      {
        var norm := ComputeGradientNorm(gradients[i].gradient);
        norms := norms + [norm];
      }
    }

    /** Shards the model of a job over its workers; initial stands for the random initialisation. */
    method DistributeModel(jobId: string, initial: seq<real>) returns (r: Result<(), CoordinatorError>)
      requires Valid()
      modifies JobOf(jobId)`status, JobOf(jobId)`globalModel, WorkersOf(jobId)`modelShard, WorkersOf(jobId)`status
      ensures Valid()
      ensures r == Err(JobNotFound) <==> jobId !in jobs
      ensures jobId in jobs ==>
        && r == Ok(()) && jobs[jobId].status == Training
        && jobs[jobId].globalModel == Some(if old(jobs[jobId].globalModel).Some? then old(jobs[jobId].globalModel).value else initial)
        && jobs[jobId].Sharded(|jobs[jobId].order|)
    {
      if jobId !in jobs {
        return Err(JobNotFound);
      }
      DistributeJob(jobs[jobId], initial);
      r := Ok(());
    }

    method DistributeJob(job: TrainingJob, initial: seq<real>)
      requires job.Valid()
      modifies job`status, job`globalModel, job.workers.Values`modelShard, job.workers.Values`status
      ensures job.status == Training && job.Valid()
      ensures job.globalModel == Some(if old(job.globalModel).Some? then old(job.globalModel).value else initial)
      ensures job.Sharded(|job.order|)
    {
      job.status := Distributing;
      if job.globalModel.None? {
        job.globalModel := Some(initial);
      }
      job.HandOutShards();
      job.status := Training;
    }

    /** The accumulation of one gradient; positions beyond the typed array are dropped. */
    static method AddInto(aggregated: array<real>, gradient: seq<real>)
      modifies aggregated
      ensures aggregated[..] == Plus(old(aggregated[..]), Padded(gradient, aggregated.Length))
    {
      for i := 0 to |gradient|
        invariant forall j :: 0 <= j < aggregated.Length ==>
          aggregated[j] == old(aggregated[j]) + if j < i then Coord(gradient, j) else 0.0
      {
        if i < aggregated.Length {
          aggregated[i] := aggregated[i] + gradient[i];
        }
      }
    }

    static method DivideBy(aggregated: array<real>, validCount: nat)
      modifies aggregated
      ensures aggregated[..] == Averaged(old(aggregated[..]), validCount)
    {
      if validCount > 0 {
        for i := 0 to aggregated.Length
          invariant forall j :: 0 <= j < aggregated.Length ==>
            aggregated[j] == if j < i then old(aggregated[j]) / validCount as real else old(aggregated[j])
        {
          aggregated[i] := aggregated[i] / validCount as real;
        }
      }
    }

    /**
      One entry of the loop of aggregateGradients: the gradient is added to the sum if its worker's recorded
      norm is within three times the median norm, and otherwise costs the worker thirty points.
    */
    method Absorb(job: TrainingJob, gradients: seq<Contribution>, k: nat, aggregated: array<real>,
                  validCount: nat, excluded: seq<string>, penalties: map<string, int>,
                  ghost recorded: map<string, real>, ghost before: map<string, int>)
      returns (validCount': nat, excluded': seq<string>, penalties': map<string, int>)
      requires job.Valid() && job.Carries(recorded) && before.Keys == job.workers.Keys
      requires k < |gradients| && Recorded(gradients, recorded) && gradients[k].id !in excluded
      requires Filtered(gradients, k, recorded, Cut(gradients, root), aggregated[..], validCount, excluded)
      requires job.Booked(before, excluded, penalties)
      modifies job.workers.Values`reputationScore, aggregated
      ensures Filtered(gradients, k + 1, recorded, Cut(gradients, root), aggregated[..], validCount', excluded')
      ensures job.Booked(before, excluded', penalties')
      ensures excluded' == excluded || excluded' == excluded + [gradients[k].id]
    {
      var c := gradients[k];
      FilterStep(gradients, k, recorded, Cut(gradients, root), aggregated[..], validCount, excluded);
      var worker := job.workers[c.id];
      validCount', excluded', penalties' := validCount, excluded, penalties;
      var norms := GradientNorms(gradients);
      var median := Median(norms);
      if worker.gradientNorm > 3.0 * median {
        excluded', penalties' := job.Exclude(c.id, excluded, penalties, before);
      } else {
        AddInto(aggregated, c.gradient);
        validCount' := validCount + 1;
      }
    }

    method SumSurvivors(job: TrainingJob, gradients: seq<Contribution>, aggregated: array<real>)
      returns (validCount: nat, excluded: seq<string>, penalties: map<string, int>)
      requires job.Valid() && DistinctIds(gradients) && gradients != []
      requires Recorded(gradients, job.RecordedNorms())
      requires aggregated[..] == Padded([], aggregated.Length)
      modifies job.workers.Values`reputationScore, aggregated
      ensures Filtered(gradients, |gradients|, old(job.RecordedNorms()), Cut(gradients, root), aggregated[..], validCount, excluded)
      ensures job.Booked(old(job.Reputations()), excluded, penalties)
    {
      hide Cut;
      ghost var recorded, before := job.RecordedNorms(), job.Reputations();
      validCount, excluded, penalties := 0, [], map[];
      for k := 0 to |gradients|
        invariant Filtered(gradients, k, recorded, Cut(gradients, root), aggregated[..], validCount, excluded)
        invariant forall i :: k <= i < |gradients| ==> gradients[i].id !in excluded
        invariant job.Carries(recorded) && job.Booked(before, excluded, penalties)
      {
        validCount, excluded, penalties :=
          Absorb(job, gradients, k, aggregated, validCount, excluded, penalties, recorded, before);
      }
    }

    method AverageSurvivors(job: TrainingJob, gradients: seq<Contribution>)
      returns (mean: seq<real>, excluded: seq<string>, penalties: map<string, int>)
      requires job.Valid() && DistinctIds(gradients) && gradients != []
      requires Recorded(gradients, job.RecordedNorms())
      modifies job.workers.Values`reputationScore
      ensures mean == RobustMean(gradients, old(job.RecordedNorms()), root)
      ensures excluded == Excluded(gradients, old(job.RecordedNorms()), Cut(gradients, root))
      ensures job.Booked(old(job.Reputations()), excluded, penalties)
    {
      hide Cut, Excluded, job.Booked;
      var aggregated := new real[|gradients[0].gradient|](_ => 0.0);
      assert aggregated[..] == Padded([], aggregated.Length);
      var validCount;
      validCount, excluded, penalties := SumSurvivors(job, gradients, aggregated);
      assert gradients[..|gradients|] == gradients;
      DivideBy(aggregated, validCount);
      mean := aggregated[..];
    }

    /** The step of the model against the aggregate; a missing coordinate of the aggregate leaves an arbitrary value. */
    method UpdateModel(job: TrainingJob, aggregate: seq<real>)
      modifies job`globalModel
      ensures Moved(old(job.globalModel), job.globalModel, aggregate, job.learningRate)
    {
      if job.globalModel.Some? {
        var model, lr := job.globalModel.value, job.learningRate;
        ghost var before := model;
        for i := 0 to |model|
          invariant |model| == |before| && forall j :: i <= j < |model| ==> model[j] == before[j]
          invariant forall j :: 0 <= j < i && j < |aggregate| ==> model[j] == before[j] - lr * aggregate[j]
        {
          var missing: real := *;
          model := model[i := if i < |aggregate| then model[i] - lr * aggregate[i] else missing];
        }
        job.globalModel := Some(model);
      }
    }

    /** The part of aggregateGradients after its guards. */
    method AggregateJob(job: TrainingJob, gradients: seq<Contribution>) returns (r: AggregationResult)
      requires job.Valid() && DistinctIds(gradients) && gradients != []
      requires Recorded(gradients, job.RecordedNorms())
      modifies job`currentEpoch, job`globalModel, job.workers.Values`reputationScore
      ensures Aggregates(gradients, old(job.RecordedNorms()), level, root, r)
      ensures Moved(old(job.globalModel), job.globalModel, r.aggregatedGradient, job.learningRate)
      ensures job.Booked(old(job.Reputations()), r.excludedWorkers, r.reputationPenalties)
      ensures job.currentEpoch == old(job.currentEpoch) + 1
    {
      hide RobustMean, Compressed, Excluded, Cut, job.Booked;
      var mean, excluded, penalties := AverageSurvivors(job, gradients);
      var result := Compress(mean);
      r := AggregationResult(result, excluded, penalties);
      UpdateModel(job, result);
      job.currentEpoch := job.currentEpoch + 1;
    }

    /** aggregateGradients on the job found: the count guard, then the aggregation. */
    method AggregateFor(job: TrainingJob, gradients: seq<Contribution>) returns (r: Result<AggregationResult, CoordinatorError>)
      requires job.Valid() && DistinctIds(gradients) && Recorded(gradients, job.RecordedNorms()) && 5 <= minWorkers
      modifies job`status, job`currentEpoch, job`globalModel, job.workers.Values`reputationScore
      ensures job.status == Aggregating
      ensures r.Ok? ==> Moved(old(job.globalModel), job.globalModel, r.value.aggregatedGradient, job.learningRate)
      ensures r.Err? ==> job.globalModel == old(job.globalModel)
      ensures r.Err? ==> r.error == TooFewGradients
      ensures r.Ok? <==> minWorkers <= |gradients|
      ensures r.Ok? ==> gradients != [] && Aggregates(gradients, old(job.RecordedNorms()), level, root, r.value)
      ensures r.Ok? ==> job.Booked(old(job.Reputations()), r.value.excludedWorkers, r.value.reputationPenalties)
      ensures r.Err? ==> job.Booked(old(job.Reputations()), [], map[])
      ensures job.currentEpoch == old(job.currentEpoch) + if r.Ok? then 1 else 0
    {
      hide Aggregates;
      ghost var recorded, before := job.RecordedNorms(), job.Reputations();
      job.status := Aggregating;
      assert job.RecordedNorms() == recorded && job.Reputations() == before;
      if |gradients| < minWorkers {
        return Err(TooFewGradients);
      }
      var result := AggregateJob(job, gradients);
      r := Ok(result);
    }

    /** Averages what the norm filter lets through, compresses it as configured and counts the epoch. */
    method AggregateGradients(jobId: string, gradients: seq<Contribution>) returns (r: Result<AggregationResult, CoordinatorError>)
      requires Valid() && DistinctIds(gradients)
      requires jobId in jobs ==> Recorded(gradients, jobs[jobId].RecordedNorms())
      modifies JobOf(jobId)`status, JobOf(jobId)`currentEpoch, JobOf(jobId)`globalModel, WorkersOf(jobId)`reputationScore
      ensures Valid()
      ensures r == Err(JobNotFound) <==> jobId !in jobs
      ensures r.Ok? ==> Moved(old(jobs[jobId].globalModel), jobs[jobId].globalModel, r.value.aggregatedGradient, jobs[jobId].learningRate)
      ensures jobId in jobs && r.Err? ==> jobs[jobId].globalModel == old(jobs[jobId].globalModel)
      ensures jobId in jobs ==> jobs[jobId].status == Aggregating
      ensures jobId in jobs ==> (r.Ok? <==> minWorkers <= |gradients|)
      ensures jobId in jobs ==> jobs[jobId].currentEpoch == old(jobs[jobId].currentEpoch) + if r.Ok? then 1 else 0
      ensures r.Ok? ==> gradients != [] && Aggregates(gradients, old(jobs[jobId].RecordedNorms()), level, root, r.value)
      ensures r.Ok? ==> jobs[jobId].Booked(old(jobs[jobId].Reputations()), r.value.excludedWorkers, r.value.reputationPenalties)
      ensures jobId in jobs && r.Err? ==> jobs[jobId].Booked(old(jobs[jobId].Reputations()), [], map[])
    {
      hide Aggregates;
      if jobId !in jobs {
        return Err(JobNotFound);
      }
      r := AggregateFor(jobs[jobId], gradients);
    }

    /** The positive norms of the workers of a job, in order. */
    method KnownNorms(job: TrainingJob, ghost recorded: map<string, real>) returns (norms: seq<real>)
      requires job.Valid() && job.Carries(recorded)
      ensures norms == PositiveNorms(job.order, recorded)
    {
      norms := [];
      for k := 0 to |job.order|
        invariant norms == PositiveNorms(job.order[..k], recorded)
      {
        assert job.order[..k + 1][..k] == job.order[..k];
        var worker := job.workers[job.order[k]];
        if worker.gradientNorm > 0.0 {
          norms := norms + [worker.gradientNorm];
        }
      }
      assert job.order[..|job.order|] == job.order;
    }

    /** Refuses a gradient above three times the median norm known so far, at ten points of reputation. */
    method ValidateGradient(job: TrainingJob, nodeId: string, gradient: seq<real>, ghost recorded: map<string, real>)
      returns (ok: bool)
      requires job.Valid() && job.Carries(recorded) && nodeId in job.workers
      modifies {job.workers[nodeId]}`reputationScore
      ensures ok == Accepts(Norm(gradient, root), PositiveNorms(job.order, recorded))
      ensures job.workers[nodeId].reputationScore == old(job.workers[nodeId].reputationScore) - if ok then 0 else 10
    {
      var currentNorm := ComputeGradientNorm(gradient);
      var norms := KnownNorms(job, recorded);
      if norms == [] {
        return true;
      }
      var median := Median(norms);
      if currentNorm > 3.0 * median {
        var worker := job.workers[nodeId];
        worker.reputationScore := worker.reputationScore - 10;
        return false;
      }
      ok := true;
    }

    /** A live worker computes and reports its gradient. */
    method Report(job: TrainingJob, nodeId: string, local: string -> seq<real>, ghost recorded: map<string, real>)
      returns (gradient: seq<real>, norm: real, ok: bool)
      requires job.Valid() && nodeId in job.workers && job.Carries(recorded)
      modifies {job.workers[nodeId]}`status, {job.workers[nodeId]}`gradientNorm, {job.workers[nodeId]}`reputationScore
      ensures gradient == local(nodeId) && norm == Norm(gradient, root)
      ensures ok == Accepts(norm, PositiveNorms(job.order, recorded[nodeId := norm]))
      ensures job.workers[nodeId].status == Idle && job.workers[nodeId].gradientNorm == norm
      ensures job.workers[nodeId].reputationScore == old(job.workers[nodeId].reputationScore) - if ok then 0 else 10
    {
      var worker := job.workers[nodeId];
      worker.status := TrainingLocally;
      gradient := local(nodeId);
      norm := ComputeGradientNorm(gradient);
      worker.gradientNorm := norm;
      worker.status := UploadingGradients;
      ok := ValidateGradient(job, nodeId, gradient, recorded[nodeId := norm]);
      worker.status := Idle;
    }

    /** One turn of the collection loop. */
    method CollectOne(job: TrainingJob, local: string -> seq<real>, k: nat, gradients: seq<Contribution>, norms: seq<real>,
                      ghost round: Round, ghost live: set<string>, ghost before: map<string, int>)
      returns (gradients': seq<Contribution>, norms': seq<real>, ghost round': Round)
      requires job.Valid() && k < |job.order| && before.Keys == job.workers.Keys
      requires job.Carries(round.recorded) && job.Docked(before, round.rejected) && job.LiveAre(live)
      requires gradients == round.accepted && norms == round.norms && job.order[k] !in round.rejected
      requires job.Settled(live, k)
      modifies job.workers.Values`status, job.workers.Values`gradientNorm, job.workers.Values`reputationScore
      ensures round' == CollectStep(job.order, live, local, round, root, k)
      ensures gradients' == round'.accepted && norms' == round'.norms
      ensures job.Carries(round'.recorded) && job.Docked(before, round'.rejected) && job.LiveAre(live)
      ensures job.Settled(live, k + 1)
    {
      hide Norm, Accepts, PositiveNorms;
      var nodeId := job.order[k];
      gradients', norms' := gradients, norms;
      round' := CollectStep(job.order, live, local, round, root, k);
      if job.workers[nodeId].status != WorkerFailed {
        var gradient, norm, ok := Report(job, nodeId, local, round.recorded);
        norms' := norms' + [norm];
        if ok {
          gradients' := gradients' + [Contribution(nodeId, gradient)];
        }
      }
    }

    /** The collection loop over all workers. */
    method CollectAll(job: TrainingJob, local: string -> seq<real>)
      returns (gradients: seq<Contribution>, norms: seq<real>, ghost round: Round)
      requires job.Valid()
      modifies job.workers.Values`status, job.workers.Values`gradientNorm, job.workers.Values`reputationScore
      ensures round == CollectFrom(job.order, old(job.Live()), local, old(job.RecordedNorms()), root, |job.order|)
      ensures gradients == round.accepted && norms == round.norms
      ensures job.Carries(round.recorded) && job.Docked(old(job.Reputations()), round.rejected)
      ensures job.Settled(old(job.Live()), |job.order|)
    {
      hide job.Carries, job.Docked, job.LiveAre, job.Settled, CollectFrom, CollectStep;
      ghost var live, recorded, before := job.Live(), job.RecordedNorms(), job.Reputations();
      job.OpenBooks();
      gradients, norms, round := [], [], Round([], [], recorded, {});
      NoTurns(job.order, live, local, recorded, root);
      for k := 0 to |job.order|
        invariant round == CollectFrom(job.order, live, local, recorded, root, k)
        invariant gradients == round.accepted && norms == round.norms
        invariant job.Carries(round.recorded) && job.Docked(before, round.rejected) && job.LiveAre(live)
        invariant job.Settled(live, k)
      {
        TurnIsFirst(job.order, live, local, recorded, root, k);
        gradients, norms, round := CollectOne(job, local, k, gradients, norms, round, live, before);
      }
    }

    /** The outlier pass: three standard deviations from the median costs the gradient and twenty points. */
    method DropOutliers(job: TrainingJob, gradients: seq<Contribution>, norms: seq<real>, ghost recorded: map<string, real>)
      returns (kept: seq<Contribution>)
      requires job.Valid() && job.Carries(recorded) && Recorded(gradients, recorded) && DistinctIds(gradients)
      modifies job.workers.Values`reputationScore
      ensures kept == WithoutOutliers(gradients, recorded, norms, root)
      ensures forall id :: id in job.workers ==>
        job.workers[id].reputationScore
          == Penalised(old(job.workers[id].reputationScore), id in OutlierIds(gradients, recorded, norms, root), 20)
    {
      var median := Median(norms);
      var stdDev := StdDev(norms, median, root);
      kept := [];
      for k := 0 to |gradients|
        invariant Recorded(gradients[..k], recorded) && kept == WithoutOutliers(gradients[..k], recorded, norms, root)
        invariant forall id :: id in job.workers ==>
          job.workers[id].reputationScore
            == Penalised(old(job.workers[id].reputationScore), id in OutlierIds(gradients[..k], recorded, norms, root), 20)
      {
        var c := gradients[k];
        OutlierStep(gradients, k, recorded, norms, root);
        var worker := job.workers[c.id];
        if Abs(worker.gradientNorm - median) > 3.0 * stdDev {
          worker.reputationScore := Max0(worker.reputationScore - 20);
        } else {
          kept := kept + [c];
        }
      }
      assert gradients[..|gradients|] == gradients;
    }

    /** One round of collection; local stands for the gradient each worker computes on its own data. */
    method CollectGradients(jobId: string, local: string -> seq<real>) returns (r: Result<seq<Contribution>, CoordinatorError>)
      requires Valid()
      modifies JobOf(jobId)`aggregationBuffer
      modifies WorkersOf(jobId)`status, WorkersOf(jobId)`gradientNorm, WorkersOf(jobId)`reputationScore
      ensures Valid()
      ensures jobId !in jobs ==> r == Err(JobNotFound)
      ensures jobId in jobs ==>
        var job := jobs[jobId];
        var round := CollectFrom(job.order, old(job.Live()), local, old(job.RecordedNorms()), root, |job.order|);
        && Recorded(round.accepted, round.recorded)
        && r == Ok(Outcome(round, minWorkers, root)) && job.aggregationBuffer == Some(r.value)
        && job.Carries(round.recorded) && NormsFromCollection(r.value, round.recorded, root) && DistinctIds(r.value)
        && job.Settled(old(job.Live()), |job.order|)
        && job.Rescored(old(job.Reputations()), round, minWorkers, root)
    {
      hide CollectFrom, NormsFromCollection, Outcome, DistinctIds, Recorded;
      if jobId !in jobs {
        return Err(JobNotFound);
      }
      var job := jobs[jobId];
      hide job.Carries, job.Settled, job.Rescored, job.RecordedNorms, job.Reputations, job.Live;
      var gradients := CollectJob(job, local);
      job.aggregationBuffer := Some(gradients);
      r := Ok(gradients);
    }

    method CollectJob(job: TrainingJob, local: string -> seq<real>) returns (gradients: seq<Contribution>)
      requires job.Valid()
      modifies job.workers.Values`status, job.workers.Values`gradientNorm, job.workers.Values`reputationScore
      ensures var round := CollectFrom(job.order, old(job.Live()), local, old(job.RecordedNorms()), root, |job.order|);
        && Recorded(round.accepted, round.recorded)
        && gradients == Outcome(round, minWorkers, root)
        && job.Carries(round.recorded) && NormsFromCollection(gradients, round.recorded, root) && DistinctIds(gradients)
        && job.Settled(old(job.Live()), |job.order|)
        && job.Rescored(old(job.Reputations()), round, minWorkers, root)
    {
      hide CollectFrom, NormsFromCollection, OutlierIds, WithoutOutliers, DistinctIds;
      ghost var live, recorded, before := job.Live(), job.RecordedNorms(), job.Reputations();
      var norms;
      ghost var round;
      gradients, norms, round := CollectAll(job, local);
      OutcomeIsSound(job.order, live, local, recorded, root, minWorkers);
      if |gradients| >= minWorkers {
        gradients := DropOutliers(job, gradients, norms, round.recorded);
      }
    }

    ghost function JobOf(jobId: string): set<TrainingJob>
      reads this
    {
      if jobId in jobs then {jobs[jobId]} else {}
    }

    ghost function WorkersOf(jobId: string): set<WorkerState>
      reads this, jobs.Values
    {
      if jobId in jobs then jobs[jobId].workers.Values else {}
    }

    method Compress(gradients: seq<real>) returns (compressed: seq<real>)
      ensures Compressed(gradients, compressed, level)
    {
      match level
      case NoCompression =>
        compressed := gradients;
      case TopKCompression =>
        compressed := CompressTopK(gradients);
      case RandomCompression =>
        compressed := CompressRandom(gradients);
    }
  }

  /** Keeps the largest hundredth of the coordinates, at least one. */
  method CompressTopK(gradients: seq<real>) returns (compressed: seq<real>)
    ensures compressed == TopK.Sparsified(gradients, TopK.KeepCount(|gradients|, 0.01))
  {
    var n := |gradients|;
    var k := TopK.KeepCount(n, 0.01);
    var indices := SortBy(TopK.Positions(n), TopK.ByMagnitude(gradients));
    TopK.SortedPositions(gradients);
    compressed := KeepPositions(gradients, indices, k);
    assert TopK.Kept(gradients, k) == TopK.Elements(indices[..TopK.Min(k, n)]);
    assert KeepsExactly(gradients, compressed, TopK.Kept(gradients, k));
    assert compressed == TopK.Sparsified(gradients, k);
  }

  /** The copying loop of both compression methods; a position past the end writes nothing. */
  method KeepPositions(gradients: seq<real>, indices: seq<int>, k: nat) returns (result: seq<real>)
    requires |indices| == |gradients| && forall i :: i in indices ==> 0 <= i < |gradients|
    ensures KeepsExactly(gradients, result, TopK.Elements(indices[..TopK.Min(k, |gradients|)]))
  {
    var compressed := new real[|gradients|](_ => 0.0);
    for i := 0 to k
      invariant forall j :: 0 <= j < |gradients| ==>
        compressed[j] == if j in indices[..TopK.Min(i, |gradients|)] then gradients[j] else 0.0
    {
      if i < |indices| {
        assert indices[..i + 1] == indices[..i] + [indices[i]];
        assert indices[i] in indices;
        compressed[indices[i]] := gradients[indices[i]];
      }
    }
    result := compressed[..];
  }

  /** Fisher-Yates: the random draws are left open. */
  method Shuffle(indices: array<int>)
    requires TopK.Distinct(indices[..])
    modifies indices
    ensures TopK.Distinct(indices[..]) && multiset(indices[..]) == multiset(old(indices[..]))
  {
    var i := indices.Length - 1;
    while i > 0
      invariant i < indices.Length || i == -1
      invariant multiset(indices[..]) == multiset(old(indices[..]))
    {
      var j :| 0 <= j <= i;
      indices[i], indices[j] := indices[j], indices[i];
      i := i - 1;
    }
    TopK.PermutationDistinct(old(indices[..]), indices[..]);
  }

  /** Keeps a random tenth of the coordinates, at least one. */
  method CompressRandom(gradients: seq<real>) returns (compressed: seq<real>)
    ensures KeepsSome(gradients, compressed, TopK.KeepCount(|gradients|, 0.1))
  {
    var n := |gradients|;
    var k := TopK.KeepCount(n, 0.1);
    var indices := new int[n](i => i);
    assert indices[..] == TopK.Positions(n);
    Shuffle(indices);
    ghost var order, kept := indices[..], TopK.Elements(indices[..TopK.Min(k, n)]);
    TopK.SameMembers(TopK.Positions(n), order);
    assert order[..TopK.Min(k, n)] == indices[..TopK.Min(k, n)];
    TopK.DistinctSize(order[..TopK.Min(k, n)]);
    assert kept <= TopK.Range(n) by {
      forall i | i in kept ensures 0 <= i < n {
        assert i in order;
      }
    }
    compressed := KeepPositions(gradients, indices[..], k);
    assert KeepsExactly(gradients, compressed, kept);
  }

  lemma {:induction false} KeepingShrinks(v: seq<real>, r: seq<real>, kept: set<int>, n: nat)
    requires KeepsExactly(v, r, kept) && n <= |v|
    ensures Dot(r, r, n) <= Dot(v, v, n)
  {
    if n > 0 {
      KeepingShrinks(v, r, kept, n - 1);
    }
  }

  /** No compression level enlarges the mean, so the Byzantine bound survives it. */
  lemma {:induction false} CompressionKeepsBound(mean: seq<real>, r: seq<real>, level: CompressionLevel, b: real)
    requires 0.0 <= b && Within(mean, b) && Compressed(mean, r, level)
    ensures Within(r, b)
  {
    match level
    case NoCompression =>
    case TopKCompression =>
      KeptStaysWithin(mean, r, TopK.Kept(mean, TopK.KeepCount(|mean|, 0.01)), b);
    case RandomCompression =>
      var kept :| KeepsExactly(mean, r, kept);
      KeptStaysWithin(mean, r, kept, b);
  }

  lemma {:induction false} KeptStaysWithin(v: seq<real>, r: seq<real>, kept: set<int>, b: real)
    requires 0.0 <= b && Within(v, b) && KeepsExactly(v, r, kept)
    ensures Within(r, b)
  {
    KeepingShrinks(v, r, kept, |v|);
  }

  /** The aggregate a job receives, at any compression level, is bounded by its honest majority. */
  lemma {:induction false} AggregateWithinTriple(gs: seq<Contribution>, recorded: map<string, real>, level: CompressionLevel,
                                                 root: real -> real, r: AggregationResult, h: real)
    requires IsSqrt(root) && gs != [] && NormsFromCollection(gs, recorded, root)
    requires |gs| < 2 * CountIn(Norms(gs, root), 0.0, h)
    requires Aggregates(gs, recorded, level, root, r)
    ensures Within(r.aggregatedGradient, 3.0 * h)
  {
    ByzantineBound(gs, recorded, h, root);
    CutBelowTriple(gs, h, root);
    CompressionKeepsBound(RobustMean(gs, recorded, root), r.aggregatedGradient, level, 3.0 * h);
  }

  /** Whatever the minority sends, a round moves no weight by more than the learning rate times three honest norms. */
  lemma {:induction false} ModelMovesLittle(gs: seq<Contribution>, recorded: map<string, real>, level: CompressionLevel,
                                            root: real -> real, r: AggregationResult, h: real,
                                            before: Option<seq<real>>, after: Option<seq<real>>, learningRate: real, i: nat)
    requires IsSqrt(root) && gs != [] && NormsFromCollection(gs, recorded, root)
    requires |gs| < 2 * CountIn(Norms(gs, root), 0.0, h)
    requires Aggregates(gs, recorded, level, root, r) && Moved(before, after, r.aggregatedGradient, learningRate)
    requires before.Some? && i < |before.value| && i < |r.aggregatedGradient|
    ensures Abs(after.value[i] - before.value[i]) <= Abs(learningRate) * (3.0 * h)
  {
    hide IsSqrt, NormsFromCollection, CountIn, Norms, Aggregates;
    AggregateWithinTriple(gs, recorded, level, root, r, h);
    StepIsBounded(before, after, r.aggregatedGradient, learningRate, 3.0 * h, i);
  }
}
