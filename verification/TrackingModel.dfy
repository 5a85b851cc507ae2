/** The tracking record of a product: its guards, the order of its stages, and the time spent in each, over every run of
    attempts to record a checkpoint, refused ones included. */
module TrackingModel {
  import opened Wrappers
  import opened Sums

  /** The numbered stages; the last one marks a dispute. */
  type Stage = n: int | 0 <= n <= 12 || n == 99

  const MATERIAL_SOURCING: Stage := 0
  const PRODUCTION_START: Stage := 2
  const MANUFACTURING_PROGRESS: Stage := 3
  const QUALITY_CONTROL_1: Stage := 4
  const PACKAGING: Stage := 6
  const SHIPPING: Stage := 8
  const DELIVERY_CONFIRMED: Stage := 11
  const COMPLETED: Stage := 12
  const DISPUTE: Stage := 99

  datatype Checkpoint = Checkpoint(stage: Stage, location: string, actor: string, timestamp: int)

  datatype Track = Track(
    startedAt: int,
    checkpoints: seq<Checkpoint>,
    currentStage: Stage,
    isComplete: bool,
    participants: set<string>)

  datatype TrackingError = ProductNotFound | TrackingComplete | UnverifiedActor | StageRegression

  function Initialized(manufacturer: string, now: int): Track {
    Track(now, [], MATERIAL_SOURCING, false, {manufacturer})
  }

  /** The first guard of recordCheckpoint that fails. */
  function Guard(t: Track, stage: Stage, verified: bool): Option<TrackingError> {
    if t.isComplete then Some(TrackingComplete)
    else if !verified then Some(UnverifiedActor)
    else if stage < t.currentStage && stage != DISPUTE then Some(StageRegression)
    else None
  }

  function Effect(t: Track, cp: Checkpoint): Track {
    t.(checkpoints := t.checkpoints + [cp],
       currentStage := cp.stage,
       isComplete := t.isComplete || cp.stage == COMPLETED,
       participants := t.participants + {cp.actor})
  }

  function Step(t: Track, cp: Checkpoint, verified: bool): Track {
    if Guard(t, cp.stage, verified) == None then Effect(t, cp) else t
  }

  /** Why the service refuses a checkpoint for one of its products. */
  function Refusal(tracks: map<string, Track>, id: string, stage: Stage, verified: bool): Option<TrackingError> {
    if id !in tracks then Some(ProductNotFound) else Guard(tracks[id], stage, verified)
  }

  /** The records of the service after an attempt on one of them. */
  function After(tracks: map<string, Track>, id: string, cp: Checkpoint, verified: bool): map<string, Track> {
    if Refusal(tracks, id, cp.stage, verified) == None then tracks[id := Effect(tracks[id], cp)] else tracks
  }

  /** One call of recordCheckpoint: the checkpoint it would add, and whether its actor is verified. */
  datatype Attempt = Attempt(checkpoint: Checkpoint, verified: bool)

  function Run(t: Track, attempts: seq<Attempt>): Track {
    if attempts == [] then t else
      var last := attempts[|attempts| - 1];
      Step(Run(t, attempts[..|attempts| - 1]), last.checkpoint, last.verified)
  }

  /** The stages only go up, the current one is the last, and a completion is the end. */
  ghost predicate Sound(t: Track) {
    && (forall i, j :: 0 <= i < j < |t.checkpoints| ==> t.checkpoints[i].stage <= t.checkpoints[j].stage)
    && t.currentStage == (if t.checkpoints == [] then MATERIAL_SOURCING else t.checkpoints[|t.checkpoints| - 1].stage)
    && (t.isComplete <==> t.currentStage == COMPLETED)
    && (forall i :: 0 <= i < |t.checkpoints| - 1 ==> t.checkpoints[i].stage != COMPLETED)
    && (forall i :: 0 <= i < |t.checkpoints| ==> t.checkpoints[i].actor in t.participants)
  }

  lemma StepKeepsSound(t: Track, cp: Checkpoint, verified: bool)
    requires Sound(t)
    ensures Sound(Step(t, cp, verified))
  {}

  lemma {:induction false} RunIsSound(manufacturer: string, now: int, attempts: seq<Attempt>)
    ensures Sound(Run(Initialized(manufacturer, now), attempts))
  {
    hide Step, Sound;
    if attempts == [] {
      InitiallySound(manufacturer, now);
    } else {
      var last := attempts[|attempts| - 1];
      RunIsSound(manufacturer, now, attempts[..|attempts| - 1]);
      StepKeepsSound(Run(Initialized(manufacturer, now), attempts[..|attempts| - 1]), last.checkpoint, last.verified);
    }
  }

  lemma InitiallySound(manufacturer: string, now: int)
    ensures Sound(Initialized(manufacturer, now))
  {}

  /** The record is one that initializeTracking has made, after some run of attempts. */
  ghost predicate FromRun(t: Track) {
    exists manufacturer, now, attempts :: Run(Initialized(manufacturer, now), attempts) == t
  }

  lemma InitializedFromRun(manufacturer: string, now: int)
    ensures FromRun(Initialized(manufacturer, now))
  {
    assert Run(Initialized(manufacturer, now), []) == Initialized(manufacturer, now);
  }

  lemma StepFromRun(t: Track, cp: Checkpoint, verified: bool)
    requires FromRun(t)
    ensures FromRun(Step(t, cp, verified))
  {
    hide Step, Sound;
    var manufacturer, now, attempts :| Run(Initialized(manufacturer, now), attempts) == t;
    var attempt := Attempt(cp, verified);
    assert (attempts + [attempt])[..|attempts|] == attempts;
    assert Run(Initialized(manufacturer, now), attempts + [attempt]) == Step(t, cp, verified);
  }

  lemma AfterFromRun(tracks: map<string, Track>, id: string, cp: Checkpoint, verified: bool)
    requires forall k :: k in tracks ==> FromRun(tracks[k])
    ensures forall k :: k in After(tracks, id, cp, verified) ==> FromRun(After(tracks, id, cp, verified)[k])
  {
    if Refusal(tracks, id, cp.stage, verified) == None {
      StepFromRun(tracks[id], cp, verified);
    }
    hide FromRun, Guard, Effect;
  }

  lemma FromRunIsSound(t: Track)
    requires FromRun(t)
    ensures Sound(t)
  {
    hide Sound;
    var manufacturer, now, attempts :| Run(Initialized(manufacturer, now), attempts) == t;
    RunIsSound(manufacturer, now, attempts);
  }

  /** What a record can become: its history stays, the new stages are at least as high as the current one; after a
      dispute they are all disputes and the record never completes; a complete record does not change. */
  ghost predicate MayBecome(t: Track, u: Track) {
    && t.checkpoints <= u.checkpoints
    && t.currentStage <= u.currentStage
    && (forall i :: |t.checkpoints| <= i < |u.checkpoints| ==> t.currentStage <= u.checkpoints[i].stage)
    && (t.currentStage == DISPUTE ==> !u.isComplete)
    && (t.isComplete ==> u == t)
  }

  lemma StepMayBecome(t: Track, u: Track, cp: Checkpoint, verified: bool)
    requires Sound(t) && Sound(u) && MayBecome(t, u)
    ensures MayBecome(t, Step(u, cp, verified))
  {}

  /** From any point of a run on, whatever is attempted, only this can happen to the record. */
  lemma {:induction false} AcceptedStages(manufacturer: string, now: int, before: seq<Attempt>, after: seq<Attempt>)
    ensures MayBecome(Run(Initialized(manufacturer, now), before), Run(Initialized(manufacturer, now), before + after))
  {
    hide Step, Sound;
    var start := Initialized(manufacturer, now);
    var t := Run(start, before);
    RunIsSound(manufacturer, now, before);
    if after == [] {
      assert before + after == before;
      SelfMayBecome(t);
    } else {
      var init, last := after[..|after| - 1], after[|after| - 1];
      assert (before + after)[..|before + after| - 1] == before + init;
      AcceptedStages(manufacturer, now, before, init);
      RunIsSound(manufacturer, now, before + init);
      StepMayBecome(t, Run(start, before + init), last.checkpoint, last.verified);
    }
  }

  lemma SelfMayBecome(t: Track)
    requires Sound(t)
    ensures MayBecome(t, t)
  {}

  /** The time of the last checkpoint, or of the start. */
  function LastTime(startedAt: int, cps: seq<Checkpoint>): int {
    if cps == [] then startedAt else cps[|cps| - 1].timestamp
  }

  function SpentIn(durations: map<int, int>, stage: int): int {
    if stage in durations then durations[stage] else 0
  }

  /** What getStageDurations accumulates. */
  function Durations(startedAt: int, cps: seq<Checkpoint>): map<int, int> {
    if cps == [] then map[] else
      var before, last := cps[..|cps| - 1], cps[|cps| - 1];
      var durations := Durations(startedAt, before);
      durations[last.stage := SpentIn(durations, last.stage) + (last.timestamp - LastTime(startedAt, before))]
  }

  ghost function Term(durations: map<int, int>): int -> real {
    s => SpentIn(durations, s) as real
  }

  /** The sum of all durations, in whatever order they are listed. */
  ghost function Together(durations: map<int, int>): real {
    SumOver(durations.Keys, Term(durations))
  }

  lemma {:induction false} GrowOne(durations: map<int, int>, stage: int, more: int)
    ensures var grown := durations[stage := SpentIn(durations, stage) + more];
      Together(grown) == Together(durations) + more as real
  {
    var grown := durations[stage := SpentIn(durations, stage) + more];
    var others := durations.Keys - {stage};
    SumAgree(others, Term(durations), Term(grown));
    assert grown.Keys == others + {stage};
    SumInsert(others, Term(grown), stage);
    if stage in durations {
      SumRemove(durations.Keys, Term(durations), stage);
    } else {
      assert others == durations.Keys;
    }
  }

  /** The times spent in the stages add up to the time from the start to the last checkpoint. */
  lemma {:induction false} DurationsTelescope(startedAt: int, cps: seq<Checkpoint>)
    ensures Together(Durations(startedAt, cps)) == (LastTime(startedAt, cps) - startedAt) as real
  {
    if cps == [] {
      assert SumOver({}, Term(map[])) == 0.0;
    } else {
      hide Together;
      var before, last := cps[..|cps| - 1], cps[|cps| - 1];
      DurationsTelescope(startedAt, before);
      GrowOne(Durations(startedAt, before), last.stage, last.timestamp - LastTime(startedAt, before));
    }
  }

  /** With a clock that does not run backwards no duration is negative, and exactly the stages visited have one. */
  lemma {:induction false} DurationsAreTimes(startedAt: int, cps: seq<Checkpoint>)
    requires forall i :: 0 <= i < |cps| ==> startedAt <= cps[i].timestamp
    requires forall i, j :: 0 <= i < j < |cps| ==> cps[i].timestamp <= cps[j].timestamp
    ensures forall s: int :: s in Durations(startedAt, cps) ==> 0 <= Durations(startedAt, cps)[s]
    ensures forall s: int :: s in Durations(startedAt, cps) <==> exists i :: 0 <= i < |cps| && cps[i].stage == s
  {
    if cps != [] {
      var before, last := cps[..|cps| - 1], cps[|cps| - 1];
      DurationsAreTimes(startedAt, before);
      forall s: int ensures s in Durations(startedAt, cps) <==> exists i :: 0 <= i < |cps| && cps[i].stage == s {
        if s in Durations(startedAt, before) {
          var i :| 0 <= i < |before| && before[i].stage == s;
          assert cps[i].stage == s;
        }
        if i :| 0 <= i < |cps| && cps[i].stage == s && i < |before| {
          assert before[i].stage == s;
        }
      }
    }
  }
}
