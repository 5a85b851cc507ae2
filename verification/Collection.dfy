/** What one round of gradient collection accepts, records and filters, as a function of the gradients sent. */
module Collection {
  import opened Vectors
  import opened Statistics
  import opened Aggregation

  /** The state of a collection round after some prefix of the workers. */
  datatype Round = Round(
    norms: seq<real>,
    accepted: seq<Contribution>,
    recorded: map<string, real>,
    rejected: set<string>)

  /** The recorded norms greater than zero, in worker order. */
  function PositiveNorms(order: seq<string>, recorded: map<string, real>): seq<real>
    requires forall id :: id in order ==> id in recorded
  {
    if order == [] then [] else
      var id := order[|order| - 1];
      PositiveNorms(order[..|order| - 1], recorded) + if recorded[id] > 0.0 then [recorded[id]] else []
  }

  /** The first check on a gradient: its norm is at most three times the median of the norms known so far. */
  function Accepts(norm: real, known: seq<real>): bool {
    known == [] || norm <= 3.0 * Median(known)
  }

  /** Worker number k's turn: failed workers are skipped, the others report a norm and may have their gradient accepted. */
  function CollectStep(order: seq<string>, live: set<string>, local: string -> seq<real>,
                       r: Round, root: real -> real, k: nat): (r': Round)
    requires k < |order| && forall id :: id in order ==> id in r.recorded
    ensures r'.recorded.Keys == r.recorded.Keys
  {
    var id := order[k];
    if id !in live then r else
      var norm := Norm(local(id), root);
      var recorded := r.recorded[id := norm];
      if Accepts(norm, PositiveNorms(order, recorded)) then
        Round(r.norms + [norm], r.accepted + [Contribution(id, local(id))], recorded, r.rejected)
      else
        Round(r.norms + [norm], r.accepted, recorded, r.rejected + {id})
  }

  /** Collecting from the first k workers of the round. */
  function CollectFrom(order: seq<string>, live: set<string>, local: string -> seq<real>,
                       recorded: map<string, real>, root: real -> real, k: nat): (r: Round)
    requires k <= |order| && forall id :: id in order ==> id in recorded
    ensures r.recorded.Keys == recorded.Keys
  {
    if k == 0 then Round([], [], recorded, {}) else
      CollectStep(order, live, local, CollectFrom(order, live, local, recorded, root, k - 1), root, k - 1)
  }

  /** More than three standard deviations away from the median of the reported norms. */
  function IsOutlier(norm: real, norms: seq<real>, root: real -> real): bool {
    var median := Median(norms);
    Abs(norm - median) > 3.0 * StdDev(norms, median, root)
  }

  /** The accepted gradients that survive the outlier pass. */
  function WithoutOutliers(gs: seq<Contribution>, recorded: map<string, real>, norms: seq<real>, root: real -> real): seq<Contribution>
    requires forall c :: c in gs ==> c.id in recorded
  {
    if gs == [] then [] else
      var c := gs[|gs| - 1];
      assert c in gs;
      WithoutOutliers(gs[..|gs| - 1], recorded, norms, root) + if IsOutlier(recorded[c.id], norms, root) then [] else [c]
  }

  ghost predicate DistinctIds(gs: seq<Contribution>) {
    forall i, j :: 0 <= i < j < |gs| ==> gs[i].id != gs[j].id
  }

  /** The ids of the outliers. */
  function OutlierIds(gs: seq<Contribution>, recorded: map<string, real>, norms: seq<real>, root: real -> real): set<string>
    requires forall c :: c in gs ==> c.id in recorded
  {
    set c | c in gs && IsOutlier(recorded[c.id], norms, root) :: c.id
  }

  /** What a round hands over: the outlier pass runs only if enough gradients were accepted. */
  function Outcome(r: Round, minWorkers: nat, root: real -> real): seq<Contribution>
    requires forall c :: c in r.accepted ==> c.id in r.recorded
  {
    if |r.accepted| >= minWorkers then WithoutOutliers(r.accepted, r.recorded, r.norms, root) else r.accepted
  }

  ghost predicate NoRepeats(order: seq<string>) {
    forall i, j :: 0 <= i < j < |order| ==> order[i] != order[j]
  }

  /** After k workers, each live one among them is recorded with the norm of what it sent, and only they were accepted. */
  lemma {:induction false} CollectRecords(order: seq<string>, live: set<string>, local: string -> seq<real>,
                                          recorded: map<string, real>, root: real -> real, k: nat)
    requires k <= |order| && NoRepeats(order) && forall id :: id in order ==> id in recorded
    ensures var r := CollectFrom(order, live, local, recorded, root, k);
            && (forall i :: 0 <= i < k && order[i] in live ==> r.recorded[order[i]] == Norm(local(order[i]), root))
            && (forall c :: c in r.accepted ==> c.id in order[..k] && c.id in live && c.gradient == local(c.id))
            && (forall id :: id in r.rejected ==> id in order[..k])
            && DistinctIds(r.accepted)
  {
    hide Norm, Accepts, PositiveNorms;
    if k > 0 {
      CollectRecords(order, live, local, recorded, root, k - 1);
    }
  }

  lemma {:induction false} TurnIsFirst(order: seq<string>, live: set<string>, local: string -> seq<real>,
                                       recorded: map<string, real>, root: real -> real, k: nat)
    requires k < |order| && NoRepeats(order) && forall id :: id in order ==> id in recorded
    ensures order[k] !in CollectFrom(order, live, local, recorded, root, k).rejected
    ensures CollectFrom(order, live, local, recorded, root, k + 1)
      == CollectStep(order, live, local, CollectFrom(order, live, local, recorded, root, k), root, k)
  {
    CollectRecords(order, live, local, recorded, root, k);
  }

  lemma NoTurns(order: seq<string>, live: set<string>, local: string -> seq<real>, recorded: map<string, real>, root: real -> real)
    requires forall id :: id in order ==> id in recorded
    ensures CollectFrom(order, live, local, recorded, root, 0) == Round([], [], recorded, {})
  {}

  /** What collection hands to aggregation carries recorded norms equal to its actual norms. */
  lemma {:induction false} CollectedNormsAreTrue(order: seq<string>, live: set<string>, local: string -> seq<real>,
                                                 recorded: map<string, real>, root: real -> real)
    requires NoRepeats(order) && forall id :: id in order ==> id in recorded
    ensures var r := CollectFrom(order, live, local, recorded, root, |order|);
            NormsFromCollection(r.accepted, r.recorded, root)
  {
    CollectRecords(order, live, local, recorded, root, |order|);
    var r := CollectFrom(order, live, local, recorded, root, |order|);
    forall c | c in r.accepted ensures c.id in r.recorded && r.recorded[c.id] == Norm(c.gradient, root) {
      var i :| 0 <= i < |order| && order[i] == c.id;
    }
  }

  lemma {:induction false} SubsetKeepsNorms(gs: seq<Contribution>, recorded: map<string, real>, norms: seq<real>, root: real -> real)
    requires NormsFromCollection(gs, recorded, root)
    ensures NormsFromCollection(WithoutOutliers(gs, recorded, norms, root), recorded, root)
    ensures forall c :: c in WithoutOutliers(gs, recorded, norms, root) ==> c in gs
  {
    if gs != [] {
      assert gs[|gs| - 1] in gs;
      SubsetKeepsNorms(gs[..|gs| - 1], recorded, norms, root);
    }
  }

  lemma {:induction false} OutliersLeaveDistinct(gs: seq<Contribution>, recorded: map<string, real>, norms: seq<real>, root: real -> real)
    requires Recorded(gs, recorded) && DistinctIds(gs)
    ensures DistinctIds(WithoutOutliers(gs, recorded, norms, root))
    ensures forall c :: c in WithoutOutliers(gs, recorded, norms, root) ==> c in gs
  {
    if gs != [] {
      var init, c := gs[..|gs| - 1], gs[|gs| - 1];
      assert c in gs;
      OutliersLeaveDistinct(init, recorded, norms, root);
      assert forall d :: d in init ==> d.id != c.id;
    }
  }

  /** What a round hands to aggregation carries recorded norms equal to its actual norms, one entry per worker. */
  lemma {:induction false} OutcomeIsSound(order: seq<string>, live: set<string>, local: string -> seq<real>,
                                          recorded: map<string, real>, root: real -> real, minWorkers: nat)
    requires NoRepeats(order) && forall id :: id in order ==> id in recorded
    ensures var r := CollectFrom(order, live, local, recorded, root, |order|);
            && Recorded(r.accepted, r.recorded) && DistinctIds(r.accepted)
            && NormsFromCollection(Outcome(r, minWorkers, root), r.recorded, root)
            && DistinctIds(Outcome(r, minWorkers, root))
  {
    var r := CollectFrom(order, live, local, recorded, root, |order|);
    CollectRecords(order, live, local, recorded, root, |order|);
    CollectedNormsAreTrue(order, live, local, recorded, root);
    SubsetKeepsNorms(r.accepted, r.recorded, r.norms, root);
    OutliersLeaveDistinct(r.accepted, r.recorded, r.norms, root);
  }

  /** The accepted gradients that are outliers with respect to a fixed centre and radius. */
  function FarGradients(gs: seq<Contribution>, c: real, r: real, root: real -> real): nat {
    if gs == [] then 0 else
      FarGradients(gs[..|gs| - 1], c, r, root) + if r < Abs(Norm(gs[|gs| - 1].gradient, root) - c) then 1 else 0
  }

  lemma {:induction false} OneMoreReport(norms: seq<real>, gs: seq<Contribution>, g: Contribution, c: real, r: real, root: real -> real)
    requires FarGradients(gs, c, r, root) <= CountFar(norms, c, r)
    ensures FarGradients(gs, c, r, root) <= CountFar(norms + [Norm(g.gradient, root)], c, r)
    ensures FarGradients(gs + [g], c, r, root) <= CountFar(norms + [Norm(g.gradient, root)], c, r)
  {
    hide Norm;
    assert (norms + [Norm(g.gradient, root)])[..|norms|] == norms;
    assert (gs + [g])[..|gs|] == gs;
  }

  lemma {:induction false} FarGradientsReported(order: seq<string>, live: set<string>, local: string -> seq<real>,
                                                recorded: map<string, real>, root: real -> real, k: nat, c: real, r: real)
    requires k <= |order| && forall id :: id in order ==> id in recorded
    ensures var round := CollectFrom(order, live, local, recorded, root, k);
            FarGradients(round.accepted, c, r, root) <= CountFar(round.norms, c, r)
  {
    hide Norm, Accepts, PositiveNorms, FarGradients, CountFar;
    if k == 0 {
      NothingReported(c, r, root);
    } else {
      FarGradientsReported(order, live, local, recorded, root, k - 1, c, r);
      var before := CollectFrom(order, live, local, recorded, root, k - 1);
      OneMoreReport(before.norms, before.accepted, Contribution(order[k - 1], local(order[k - 1])), c, r, root);
    }
  }

  lemma NothingReported(c: real, r: real, root: real -> real)
    ensures FarGradients([], c, r, root) == CountFar([], c, r) == 0
  {}

  lemma {:induction false} RemovedAreFar(gs: seq<Contribution>, recorded: map<string, real>, norms: seq<real>, root: real -> real)
    requires NormsFromCollection(gs, recorded, root)
    ensures var m := Median(norms);
            |gs| == |WithoutOutliers(gs, recorded, norms, root)| + FarGradients(gs, m, 3.0 * StdDev(norms, m, root), root)
  {
    if gs != [] {
      assert gs[|gs| - 1] in gs;
      RemovedAreFar(gs[..|gs| - 1], recorded, norms, root);
    }
  }

  lemma {:induction false} RecordedNorms(order: seq<string>, live: set<string>, local: string -> seq<real>,
                                         recorded: map<string, real>, root: real -> real)
    requires NoRepeats(order) && forall id :: id in order ==> id in recorded
    ensures var r := CollectFrom(order, live, local, recorded, root, |order|); Recorded(r.accepted, r.recorded)
  {
    CollectedNormsAreTrue(order, live, local, recorded, root);
  }

  /** The outlier pass of a round removes nobody, or strictly fewer than one ninth of the workers that reported. */
  lemma {:induction false} OutlierPassRemovesFew(order: seq<string>, live: set<string>, local: string -> seq<real>,
                                                 recorded: map<string, real>, root: real -> real)
    requires IsSqrt(root) && NoRepeats(order) && forall id :: id in order ==> id in recorded
    ensures var r := CollectFrom(order, live, local, recorded, root, |order|);
            Recorded(r.accepted, r.recorded) &&
            var removed := |r.accepted| - |WithoutOutliers(r.accepted, r.recorded, r.norms, root)|;
            removed == 0 || 0 < 9 * removed < |r.norms|
  {
    hide IsSqrt, NormsFromCollection, CollectFrom, FarGradients, CountFar, StdDev, Median, WithoutOutliers;
    var r := CollectFrom(order, live, local, recorded, root, |order|);
    RecordedNorms(order, live, local, recorded, root);
    CollectedNormsAreTrue(order, live, local, recorded, root);
    RemovedAreFar(r.accepted, r.recorded, r.norms, root);
    var m := Median(r.norms);
    FarGradientsReported(order, live, local, recorded, root, |order|, m, 3.0 * StdDev(r.norms, m, root));
    FewBeyondThreeSigma(r.norms, root);
  }

  /** Shard k of n: consecutive slices of equal size, the last one taking the remainder. */
  function Shard(model: seq<real>, n: nat, k: nat): seq<real>
    requires k < n
  {
    var size := |model| / n;
    ShardFits(|model|, n, k);
    model[k * size..if k == n - 1 then |model| else (k + 1) * size]
  }

  lemma ShardFits(length: nat, n: nat, k: nat)
    requires k < n
    ensures k * (length / n) <= (k + 1) * (length / n) <= length
  {
    var size := length / n;
    assert n * size <= length;
    assert (n - (k + 1)) * size >= 0;
    assert (k + 1) * size == k * size + size;
    assert n * size == (k + 1) * size + (n - (k + 1)) * size;
  }

  function ShardsTogether(model: seq<real>, n: nat, k: nat): seq<real>
    requires k <= n
  {
    if k == 0 then [] else ShardsTogether(model, n, k - 1) + Shard(model, n, k - 1)
  }

  lemma {:induction false} ShardsArePrefix(model: seq<real>, n: nat, k: nat)
    requires k < n
    ensures k * (|model| / n) <= |model| && ShardsTogether(model, n, k) == model[..k * (|model| / n)]
  {
    ShardFits(|model|, n, k);
    if k > 0 {
      ShardsArePrefix(model, n, k - 1);
      ShardFits(|model|, n, k - 1);
      var size := |model| / n;
      assert model[..(k - 1) * size] + model[(k - 1) * size..k * size] == model[..k * size];
    }
  }

  /** The shards put together in worker order are the model. */
  lemma {:induction false} ShardsPartition(model: seq<real>, n: nat)
    requires 0 < n
    ensures ShardsTogether(model, n, n) == model
  {
    ShardsArePrefix(model, n, n - 1);
    ShardFits(|model|, n, n - 1);
    LastShard(model, (n - 1) * (|model| / n));
  }

  lemma LastShard(model: seq<real>, start: nat)
    requires start <= |model|
    ensures model[..start] + model[start..|model|] == model
  {}

  /**
    "No worker sees the full model" holds exactly when there are at least two workers and no fewer weights
    than workers: otherwise the last worker is handed everything.
  */
  lemma NoShardIsWhole(model: seq<real>, n: nat)
    requires 0 < n
    ensures (forall k :: 0 <= k < n ==> Shard(model, n, k) != model) <==> (2 <= n && n <= |model|)
  {
    var size := |model| / n;
    if 2 <= n && n <= |model| {
      assert 1 <= size;
      forall k | 0 <= k < n ensures Shard(model, n, k) != model {
        ShardFits(|model|, n, k);
        ShardLength(|model|, n, k, size);
      }
    } else {
      ShardFits(|model|, n, n - 1);
      if n != 1 {
        assert size == 0;
      }
      assert (n - 1) * size == 0;
      assert Shard(model, n, n - 1) == model;
    }
  }

  lemma ShardLength(length: nat, n: nat, k: nat, size: nat)
    requires 2 <= n && k < n && size == length / n && 1 <= size
    ensures (if k == n - 1 then length else (k + 1) * size) - k * size < length
  {
    if k == n - 1 {
      assert 1 <= k * size;
    } else {
      ShardFits(length, n, k);
      ShardFits(length, n, n - 1);
      assert (k + 1) * size == k * size + size;
      assert n * size == (n - 2) * size + 2 * size;
      assert 0 <= (n - 2) * size;
    }
  }
}
