/** Which stage a stretch of time is charged to, and which checkpoints are refused. */
module StageTimes {
  import opened Wrappers
  import opened Sums
  import opened TrackingModel

  /** The positions of the checkpoints of a stage. */
  ghost function PositionsOf(cps: seq<Checkpoint>, stage: int): set<int> {
    set i | 0 <= i < |cps| && cps[i].stage == stage
  }

  /** The time that ends with checkpoint i: since the one before, or since the start. */
  function Stretch(startedAt: int, cps: seq<Checkpoint>): int -> real {
    i => if 0 < i < |cps| then (cps[i].timestamp - cps[i - 1].timestamp) as real
         else if 0 == i < |cps| then (cps[0].timestamp - startedAt) as real else 0.0
  }

  lemma PositionsMore(startedAt: int, cps: seq<Checkpoint>, stage: int)
    requires cps != []
    ensures var n := |cps| - 1;
      && n !in PositionsOf(cps[..n], stage)
      && PositionsOf(cps, stage) == PositionsOf(cps[..n], stage) + (if cps[n].stage == stage then {n} else {})
      && (forall i :: i in PositionsOf(cps[..n], stage) ==> Stretch(startedAt, cps[..n])(i) == Stretch(startedAt, cps)(i))
      && Stretch(startedAt, cps)(n) == (cps[n].timestamp - LastTime(startedAt, cps[..n])) as real
  {}

  /** The time charged to a stage is the sum of the stretches that end with a checkpoint of that stage. */
  lemma {:induction false} ChargedToTheStageReached(startedAt: int, cps: seq<Checkpoint>, stage: int)
    ensures SpentIn(Durations(startedAt, cps), stage) as real == SumOver(PositionsOf(cps, stage), Stretch(startedAt, cps))
    ensures stage in Durations(startedAt, cps) <==> PositionsOf(cps, stage) != {}
  {
    if cps == [] {
      assert PositionsOf(cps, stage) == {};
    } else {
      var n := |cps| - 1;
      ChargedToTheStageReached(startedAt, cps[..n], stage);
      PositionsMore(startedAt, cps, stage);
      SumAgree(PositionsOf(cps[..n], stage), Stretch(startedAt, cps[..n]), Stretch(startedAt, cps));
      hide PositionsOf, Stretch, LastTime;
      if cps[n].stage == stage {
        SumInsert(PositionsOf(cps[..n], stage), Stretch(startedAt, cps), n);
      } else {
        assert PositionsOf(cps[..n], stage) + {} == PositionsOf(cps[..n], stage);
      }
    }
  }

  /** Over every run an attempt is refused exactly if a completion has been recorded, or the actor is not verified, or its
      stage, not being a dispute, is below one recorded before; an accepted one is appended. */
  lemma {:induction false} RefusedIff(manufacturer: string, now: int, attempts: seq<Attempt>, cp: Checkpoint, verified: bool)
    ensures var t := Run(Initialized(manufacturer, now), attempts);
      var completed := exists i :: 0 <= i < |t.checkpoints| && t.checkpoints[i].stage == 12;
      var back := cp.stage != 99 && exists i :: 0 <= i < |t.checkpoints| && cp.stage < t.checkpoints[i].stage;
      && (Guard(t, cp.stage, verified) == Some(TrackingComplete) <==> completed)
      && (Guard(t, cp.stage, verified) == Some(UnverifiedActor) <==> !completed && !verified)
      && (Guard(t, cp.stage, verified) == Some(StageRegression) <==> !completed && verified && back)
      && (Guard(t, cp.stage, verified) == None <==> !completed && verified && !back)
      && Step(t, cp, verified).checkpoints
         == if completed || !verified || back then t.checkpoints else t.checkpoints + [cp]
  {
    RunIsSound(manufacturer, now, attempts);
    var t := Run(Initialized(manufacturer, now), attempts);
    hide Run;
    LastIsHighest(t, cp.stage);
  }

  lemma LastIsHighest(t: Track, n: int)
    requires Sound(t) && 0 <= n
    ensures t.isComplete <==> exists i :: 0 <= i < |t.checkpoints| && t.checkpoints[i].stage == 12
    ensures n < t.currentStage <==> exists i :: 0 <= i < |t.checkpoints| && n < t.checkpoints[i].stage
  {
    if t.checkpoints != [] {
      var last := t.checkpoints[|t.checkpoints| - 1];
      assert last.stage == t.currentStage;
    }
  }
}
