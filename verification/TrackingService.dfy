/** The tracking service with the records it updates in place; every method is tied to the tracking model. */
module TrackingService {
  import opened Wrappers
  import opened TrackingModel

  class TrackingRecord {
    const startedAt: int
    var checkpoints: seq<Checkpoint>
    var currentStage: Stage
    var isComplete: bool
    var participants: set<string>

    constructor (manufacturer: string, now: int)
      ensures View() == Initialized(manufacturer, now)
    {
      startedAt, checkpoints, currentStage, isComplete, participants := now, [], MATERIAL_SOURCING, false, {manufacturer};
    }

    function View(): Track
      reads this
    {
      Track(startedAt, checkpoints, currentStage, isComplete, participants)
    }
  }

  class SupplyChainTracking {
    /** The account the service signs with. */
    const account: string
    var trackingRecords: map<string, TrackingRecord>
    var verifiedActors: map<string, bool>
    /** The records as values. */
    ghost var model: map<string, Track>

    /** Records and values agree, and every record is one made here, after some run of attempts. */
    ghost predicate Valid()
      reads this`trackingRecords, this`model, trackingRecords.Values
    {
      Records() && Made()
    }

    ghost predicate Made()
      reads this`model
    {
      forall id :: id in model ==> FromRun(model[id])
    }

    ghost predicate Records()
      reads this`trackingRecords, this`model, trackingRecords.Values
    {
      && trackingRecords.Keys == model.Keys
      && (forall id :: id in trackingRecords ==> trackingRecords[id].View() == model[id])
      && (forall i, j :: i in trackingRecords && j in trackingRecords && i != j ==> trackingRecords[i] != trackingRecords[j])
    }

    constructor (account: string)
      ensures Valid() && this.account == account && model == map[] && verifiedActors == map[]
    {
      this.account, trackingRecords, verifiedActors, model := account, map[], map[], map[];
    }

    /** The records are those of the model but for one, which has become t. */
    ghost predicate Changed(id: string, t: Track)
      reads this`trackingRecords, this`model, trackingRecords.Values
    {
      && trackingRecords.Keys == model.Keys
      && (forall i :: i in trackingRecords ==> trackingRecords[i].View() == if i == id then t else model[i])
      && (forall i, j :: i in trackingRecords && j in trackingRecords && i != j ==> trackingRecords[i] != trackingRecords[j])
    }

    ghost method Commit(id: string, cp: Checkpoint, verified: bool)
      requires Made() && Refusal(model, id, cp.stage, verified) == None && Changed(id, Effect(model[id], cp))
      modifies this`model
      ensures Valid() && model == After(old(model), id, cp, verified)
    {
      hide TrackingRecord.View, Effect, Guard, FromRun;
      AfterFromRun(model, id, cp, verified);
      model := After(model, id, cp, verified);
    }

    /** Appends a checkpoint to a record. */
    method Append(record: TrackingRecord, checkpoint: Checkpoint)
      modifies record
      ensures record.View() == Effect(old(record.View()), checkpoint)
    {
      record.checkpoints := record.checkpoints + [checkpoint];
      record.currentStage := checkpoint.stage;
      record.participants := record.participants + {checkpoint.actor};
      if checkpoint.stage == COMPLETED {
        record.isComplete := true;
      }
    }

    method RegisterActor(address: string, verified: bool)
      modifies this`verifiedActors
      ensures verifiedActors == old(verifiedActors)[address := verified]
    {
      verifiedActors := verifiedActors[address := verified];
    }

    predicate IsVerifiedActor(address: string)
      reads this`verifiedActors
    {
      address in verifiedActors && verifiedActors[address]
    }

    method InitializeTracking(productId: string, manufacturer: string, now: int)
      requires Valid()
      modifies this`trackingRecords, this`model
      ensures Valid() && model == old(model)[productId := Initialized(manufacturer, now)]
      ensures forall t :: t in trackingRecords.Values ==> t in old(trackingRecords.Values) || fresh(t)
    {
      InitializedFromRun(manufacturer, now);
      hide TrackingRecord.View, FromRun;
      ghost var was := trackingRecords;
      var record := new TrackingRecord(manufacturer, now);
      trackingRecords := trackingRecords[productId := record];
      model := model[productId := Initialized(manufacturer, now)];
      forall t | t in trackingRecords.Values ensures t in was.Values || fresh(t) {
        var k :| k in trackingRecords && trackingRecords[k] == t;
        assert k != productId ==> was[k] in was.Values;
      }
    }

    /** Answers the position of the new checkpoint. */
    method RecordCheckpoint(productId: string, stage: Stage, location: string, now: int) returns (r: Result<nat, TrackingError>)
      requires Valid()
      modifies this`model, trackingRecords.Values
      ensures Valid() && model == After(old(model), productId, Checkpoint(stage, location, account, now), IsVerifiedActor(account))
      ensures match Refusal(old(model), productId, stage, IsVerifiedActor(account))
              case Some(error) => r == Err(error)
              case None => r == Ok(|old(model)[productId].checkpoints|)
    {
      hide Made;
      if productId !in trackingRecords {
        return Err(ProductNotFound);
      }
      var record := trackingRecords[productId];
      assert record.View() == model[productId];
      if record.isComplete {
        return Err(TrackingComplete);
      }
      if !IsVerifiedActor(account) {
        return Err(UnverifiedActor);
      }
      if stage < record.currentStage && stage != DISPUTE {
        return Err(StageRegression);
      }
      var index: nat := |record.checkpoints|;
      var checkpoint := Checkpoint(stage, location, account, now);
      hide TrackingRecord.View, Effect;
      Append(record, checkpoint);
      Commit(productId, checkpoint, IsVerifiedActor(account));
      r := Ok(index);
    }

    /** The stages of every record go up, and only a last one completes it. */
    lemma EveryRecordIsSound(id: string)
      requires Valid() && id in model
      ensures Sound(model[id])
    {
      FromRunIsSound(model[id]);
    }

    method GetStageDurations(productId: string) returns (durations: map<int, int>)
      requires Valid()
      ensures durations == if productId in model
                           then Durations(model[productId].startedAt, model[productId].checkpoints) else map[]
    {
      hide Made;
      durations := map[];
      if productId !in trackingRecords {
        return;
      }
      var record := trackingRecords[productId];
      assert record.View() == model[productId];
      var cps := record.checkpoints;
      var stageStart, i := record.startedAt, 0;
      while i < |cps|
        invariant 0 <= i <= |cps|
        invariant stageStart == LastTime(record.startedAt, cps[..i])
        invariant durations == Durations(record.startedAt, cps[..i])
      {
        var checkpoint := cps[i];
        var spent := if checkpoint.stage in durations then durations[checkpoint.stage] else 0;
        assert cps[..i + 1][..i] == cps[..i];
        durations := durations[checkpoint.stage := spent + (checkpoint.timestamp - stageStart)];
        stageStart := checkpoint.timestamp;
        i := i + 1;
      }
      assert cps[..i] == cps;
    }
  }
}
