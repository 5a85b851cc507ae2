/** Orders and tracking fit together: over every run of calls a checkpoint is refused only for want of a verified actor. */
module OrderTracking {
  import Escrows = EscrowModel
  import Tracks = TrackingModel
  import opened OrdersModel

  predicate Unfunded(s: OrderStatus) {
    s == Draft || s == PendingApproval || s == Approved
  }

  /** The statuses from which an order may still ask for checkpoints. */
  predicate Underway(s: OrderStatus) {
    s == Funded || s == InProduction || s == ProductionComplete || s == Shipping
  }

  /** The highest stage the record of an order can have reached while the order has this status. */
  function Ceiling(s: OrderStatus): Tracks.Stage {
    match s
    case Funded => Tracks.MATERIAL_SOURCING
    case InProduction => Tracks.MANUFACTURING_PROGRESS
    case ProductionComplete => Tracks.QUALITY_CONTROL_1
    case Shipping => Tracks.SHIPPING
    case _ => Tracks.DISPUTE
  }

  ghost predicate TrackFits(o: Order, t: Tracks.Track)
    requires |o.milestones| == 3
  {
    && (IsOpen(o.milestones[1]) ==> t.currentStage <= Tracks.MANUFACTURING_PROGRESS && !t.isComplete)
    && (Underway(o.status) ==> t.currentStage <= Ceiling(o.status) && !t.isComplete)
  }

  ghost predicate OrderFits(tracks: map<string, Tracks.Track>, o: Order) {
    && |o.milestones| == 3
    && |o.trackingIds| <= 1
    && (Unfunded(o.status) ==> o.trackingIds == [])
    && (o.status == ProductionComplete || o.status == Shipping ==> !IsOpen(o.milestones[1]))
    && (o.trackingIds != [] ==> o.trackingIds[0] in tracks && TrackFits(o, tracks[o.trackingIds[0]]))
  }

  ghost predicate SharesTrack(a: Order, b: Order) {
    exists i, j :: 0 <= i < |a.trackingIds| && 0 <= j < |b.trackingIds| && a.trackingIds[i] == b.trackingIds[j]
  }

  ghost predicate Fits(w: World) {
    && (forall id :: id in w.orders ==> OrderFits(w.tracks, w.orders[id]))
    && (forall i, j :: i in w.orders && j in w.orders && i != j ==> !SharesTrack(w.orders[i], w.orders[j]))
  }

  /** An order keeps its record, or takes one that no order knows yet. */
  ghost predicate OwnTrack(w: World, id: string, o: Order) {
    || (id in w.orders && o.trackingIds == w.orders[id].trackingIds)
    || (forall i :: 0 <= i < |o.trackingIds| ==> o.trackingIds[i] !in w.tracks)
  }

  lemma StayApart(w: World, id: string, o: Order, k: string)
    requires Fits(w) && k in w.orders && k != id && OwnTrack(w, id, o)
    ensures !SharesTrack(w.orders[k], o) && !SharesTrack(o, w.orders[k])
  {
    hide TrackFits;
    assert OrderFits(w.tracks, w.orders[k]);
    if id in w.orders {
      assert !SharesTrack(w.orders[k], w.orders[id]) && !SharesTrack(w.orders[id], w.orders[k]);
    }
  }

  lemma StillFits(tracks: map<string, Tracks.Track>, later: map<string, Tracks.Track>, o: Order, changed: Order)
    requires OrderFits(tracks, o) && !SharesTrack(o, changed)
    requires forall k :: k in tracks && k !in changed.trackingIds ==> k in later && later[k] == tracks[k]
    ensures OrderFits(later, o)
  {
    hide TrackFits;
    if o.trackingIds != [] {
      assert forall j :: 0 <= j < |changed.trackingIds| ==> o.trackingIds[0] != changed.trackingIds[j];
    }
  }

  /** One order has changed, and with it at most its own record; the other orders do not notice. */
  lemma OtherOrdersKeep(w: World, v: World, id: string)
    requires Fits(w) && id in v.orders && v.orders == w.orders[id := v.orders[id]]
    requires OrderFits(v.tracks, v.orders[id]) && OwnTrack(w, id, v.orders[id])
    requires forall k :: k in w.tracks && k !in v.orders[id].trackingIds ==> k in v.tracks && v.tracks[k] == w.tracks[k]
    ensures Fits(v)
  {
    hide OrderFits, OwnTrack, SharesTrack;
    forall k | k in v.orders && k != id
      ensures OrderFits(v.tracks, v.orders[k]) && !SharesTrack(v.orders[k], v.orders[id]) && !SharesTrack(v.orders[id], v.orders[k])
    {
      StayApart(w, id, v.orders[id], k);
      StillFits(w.tracks, v.tracks, w.orders[k], v.orders[id]);
    }
  }

  /** Stops that a record at this stage can take one after the other: none goes back, and only the last one completes. */
  ghost predicate Climbs(from: Tracks.Stage, stops: seq<Stop>)
    decreases |stops|
  {
    stops != [] ==>
      && from <= stops[0].stage
      && (stops[0].stage == Tracks.COMPLETED ==> |stops| == 1)
      && Climbs(stops[0].stage, stops[1..])
  }

  lemma ClimbsOne(from: Tracks.Stage, stop: Stop)
    requires from <= stop.stage
    ensures Climbs(from, [stop])
  {
    assert [stop][1..] == [];
  }

  lemma ClimbsTwo(from: Tracks.Stage, a: Stop, b: Stop)
    requires from <= a.stage <= b.stage && a.stage != Tracks.COMPLETED
    ensures Climbs(from, [a, b])
  {
    ClimbsOne(a.stage, b);
    assert [a, b][1..] == [b];
  }

  /** What recording stops leaves: this record has moved up, at most to the last stop, and only a missing verification stopped it. */
  ghost predicate Climbed(w: World, r: Outcome, trackingId: string, stops: seq<Stop>)
    requires trackingId in w.tracks
  {
    && trackingId in r.world.tracks
    && r.world == w.(tracks := w.tracks[trackingId := r.world.tracks[trackingId]])
    && (r.error.Some? ==> r.error.value == TrackingFailed(Tracks.UnverifiedActor) && !IsVerified(w))
    && var t, u := w.tracks[trackingId], r.world.tracks[trackingId];
       var top := if stops == [] then t.currentStage else stops[|stops| - 1].stage;
       t.currentStage <= u.currentStage <= top && (u.isComplete ==> top == Tracks.COMPLETED && stops != [])
  }

  lemma RecordStopClimbs(w: World, trackingId: string, stop: Stop, now: nat)
    requires trackingId in w.tracks && !w.tracks[trackingId].isComplete && w.tracks[trackingId].currentStage <= stop.stage
    ensures var r := RecordStop(w, trackingId, stop, now);
      && Climbed(w, r, trackingId, [stop])
      && (r.error.None? ==> r.world.tracks[trackingId].currentStage == stop.stage)
  {
    assert w == w.(tracks := w.tracks[trackingId := w.tracks[trackingId]]);
  }

  lemma {:induction false} RecordStopsClimb(w: World, trackingId: string, stops: seq<Stop>, now: nat)
    requires trackingId in w.tracks && !w.tracks[trackingId].isComplete && Climbs(w.tracks[trackingId].currentStage, stops)
    ensures Climbed(w, RecordStops(w, trackingId, stops, now), trackingId, stops)
    decreases |stops|
  {
    hide RecordStop;
    if stops == [] {
      assert w == w.(tracks := w.tracks[trackingId := w.tracks[trackingId]]);
    } else {
      RecordStopClimbs(w, trackingId, stops[0], now);
      ClimbsToLast(stops[0].stage, stops[1..]);
      var first := RecordStop(w, trackingId, stops[0], now);
      if first.error.None? && |stops| > 1 {
        RecordStopsClimb(first.world, trackingId, stops[1..], now);
      } else if first.error.None? {
        assert RecordStops(w, trackingId, stops, now) == first;
      }
    }
  }

  lemma {:induction false} ClimbsToLast(from: Tracks.Stage, stops: seq<Stop>)
    requires Climbs(from, stops)
    ensures stops != [] ==> from <= stops[|stops| - 1].stage
    decreases |stops|
  {
    if stops != [] {
      ClimbsToLast(stops[0].stage, stops[1..]);
    }
  }

  /** What an order-moving call must ensure before it records: its stops climb from wherever the record may be. */
  ghost predicate Ready(w: World, id: string, stops: seq<Stop>) {
    && id in w.orders
    && var o := w.orders[id];
       && |o.milestones| == 3 && |o.trackingIds| <= 1
       && (o.trackingIds != [] ==>
             && o.trackingIds[0] in w.tracks && !w.tracks[o.trackingIds[0]].isComplete
             && Climbs(w.tracks[o.trackingIds[0]].currentStage, stops))
  }

  ghost predicate ClimbedAll(w: World, r: Outcome, o: Order, stops: seq<Stop>) {
    && r.world.(tracks := w.tracks) == w
    && (r.error.Some? ==> r.error.value == TrackingFailed(Tracks.UnverifiedActor) && !IsVerified(w))
    && if o.trackingIds == [] then r.world == w
       else o.trackingIds[0] in w.tracks && Climbed(w, r, o.trackingIds[0], stops)
  }

  lemma RecordAllClimbs(w: World, id: string, stops: seq<Stop>, now: nat)
    requires Ready(w, id, stops)
    ensures ClimbedAll(w, RecordAll(w, w.orders[id].trackingIds, stops, now), w.orders[id], stops)
  {
    hide RecordStops, Climbs;
    var ids := w.orders[id].trackingIds;
    if ids != [] {
      RecordStopsClimb(w, ids[0], stops, now);
      assert ids[1..] == [];
      assert RecordAll(w, ids, stops, now) == RecordStops(w, ids[0], stops, now);
    }
  }

  /** A call leaves fitting objects behind, and a refused checkpoint was refused for want of a verified actor. */
  ghost predicate Fine(w: World, r: Outcome) {
    && Fits(r.world)
    && (r.error.Some? && r.error.value.TrackingFailed? ==>
          r.error.value == TrackingFailed(Tracks.UnverifiedActor) && !IsVerified(w))
  }

  /** The order as a call changes it before it records: its shape, and that the highest stop suits its new status. */
  ghost predicate Suits(before: Order, o: Order, stops: seq<Stop>) {
    && |o.milestones| == 3 && o.trackingIds == before.trackingIds && |o.trackingIds| <= 1
    && (Unfunded(o.status) ==> o.trackingIds == [])
    && (o.status == ProductionComplete || o.status == Shipping ==> !IsOpen(o.milestones[1]))
    && (o.trackingIds != [] ==> stops != [])
    && (stops != [] ==>
          var top := stops[|stops| - 1].stage;
          && (IsOpen(o.milestones[1]) ==> top <= Tracks.MANUFACTURING_PROGRESS)
          && (Underway(o.status) ==> top <= Ceiling(o.status)))
  }

  lemma RecordingIsFine(w: World, id: string, o: Order, stops: seq<Stop>, now: nat)
    requires Fits(w) && id in w.orders && Suits(w.orders[id], o, stops) && Ready(Put(w, id, o), id, stops)
    ensures Fine(w, RecordAll(Put(w, id, o), o.trackingIds, stops, now))
  {
    hide RecordAll, Climbs, Fits;
    var v := Put(w, id, o);
    var r := RecordAll(v, o.trackingIds, stops, now);
    RecordAllClimbs(v, id, stops, now);
    assert r.world.orders == v.orders;
    assert OrderFits(r.world.tracks, o);
    assert OwnTrack(w, id, o);
    OtherOrdersKeep(w, r.world, id);
  }

  /** Changes of an order that record nothing. */
  lemma ChangeIsFine(w: World, v: World, id: string)
    requires Fits(w) && id in w.orders && id in v.orders && v.orders == w.orders[id := v.orders[id]] && v.tracks == w.tracks
    requires v.orders[id].trackingIds == w.orders[id].trackingIds && OrderFits(v.tracks, v.orders[id])
    ensures Fits(v)
  {
    hide Fits, OrderFits;
    OtherOrdersKeep(w, v, id);
  }

  lemma AdvanceIsFine(w: World, id: string, from: set<OrderStatus>, to: OrderStatus, stops: seq<Stop>, now: nat)
    requires Fits(w)
    requires id in w.orders && w.orders[id].status in from ==>
      var o := w.orders[id].(status := to);
      Suits(w.orders[id], o, stops) && Ready(Put(w, id, o), id, stops)
    ensures Fine(w, Advance(w, id, from, to, stops, now))
  {
    hide Fits, Suits, Ready, RecordAll;
    if id in w.orders && w.orders[id].status in from {
      RecordingIsFine(w, id, w.orders[id].(status := to), stops, now);
    }
  }

  /** Milestone 1 has just been closed: the record cannot be past the quality check. */
  lemma QualityCheckIsFine(w: World, v: World, id: string, now: nat)
    requires Fits(w) && Fits(v) && id in w.orders && |w.orders[id].milestones| == 3 && IsOpen(w.orders[id].milestones[1])
    requires v.tracks == w.tracks && id in v.orders && v.orders[id] == Marked(w.orders[id], 1)
    ensures Fine(v, RecordAll(Put(v, id, v.orders[id].(status := ProductionComplete)), v.orders[id].trackingIds,
                              [Stop(Tracks.QUALITY_CONTROL_1, FACILITY)], now))
  {
    hide Fits, RecordAll, Climbs, Fine;
    var stop := Stop(Tracks.QUALITY_CONTROL_1, FACILITY);
    FitsOf(w, id);
    FitsOf(v, id);
    var o := v.orders[id];
    if o.trackingIds != [] {
      ClimbsOne(v.tracks[o.trackingIds[0]].currentStage, stop);
    }
    RecordingIsFine(v, id, o.(status := ProductionComplete), [stop], now);
  }

  lemma MarkingIsFine(w: World, v: World, id: string, index: nat, status: OrderStatus)
    requires Fits(w) && id in w.orders && index < |w.orders[id].milestones|
    requires status == w.orders[id].status || status == Complete
    requires v.tracks == w.tracks && v.orders == w.orders[id := Marked(w.orders[id], index).(status := status)]
    ensures Fits(v)
  {
    hide Fits;
    FitsOf(w, id);
    ChangeIsFine(w, v, id);
  }

  lemma CompletionIsFine(w: World, id: string, index: int, now: nat)
    requires Fits(w)
    ensures Fine(w, Completion(w, id, index, now))
  {
    hide Fits, RecordAll, Escrows.Refusal, Escrows.After;
    if id in w.orders && 0 <= index < |w.orders[id].milestones| && IsOpen(w.orders[id].milestones[index]) {
      FitsOf(w, id);
      var o := Marked(w.orders[id], index);
      var paid := PayMilestone(Put(w, id, o), o, index);
      MarkingIsFine(w, paid.world, id, index, o.status);
      if paid.error.None? {
        if index == 1 {
          QualityCheckIsFine(w, paid.world, id, now);
        } else if index == 2 {
          MarkingIsFine(w, Put(paid.world, id, o.(status := Complete)), id, index, Complete);
        }
      }
    }
  }

  lemma FitsOf(w: World, id: string)
    requires Fits(w) && id in w.orders
    ensures OrderFits(w.tracks, w.orders[id])
  {}

  lemma SuitsDelivery(w: World, id: string, stops: seq<Stop>, address: string)
    requires Fits(w) && id in w.orders && (w.orders[id].status == Shipping || w.orders[id].status == ProductionComplete)
    requires stops == [Stop(Tracks.DELIVERY_CONFIRMED, address), Stop(Tracks.COMPLETED, address)]
    ensures var o := w.orders[id].(status := Delivered);
      Suits(w.orders[id], o, stops) && Ready(Put(w, id, o), id, stops)
  {
    hide Fits, Climbs;
    FitsOf(w, id);
    if w.orders[id].trackingIds != [] {
      ClimbsTwo(w.tracks[w.orders[id].trackingIds[0]].currentStage, stops[0], stops[1]);
    }
  }

  lemma DeliveryIsFine(w: World, id: string, now: nat)
    requires Fits(w)
    ensures Fine(w, Delivery(w, id, now))
  {
    hide Fits, Advance, Completion, Suits, Ready;
    if id in w.orders {
      var address := w.orders[id].shippingAddress;
      var stops := [Stop(Tracks.DELIVERY_CONFIRMED, address), Stop(Tracks.COMPLETED, address)];
      var from := {Shipping, ProductionComplete};
      if w.orders[id].status in from {
        SuitsDelivery(w, id, stops, address);
      }
      AdvanceIsFine(w, id, from, Delivered, stops, now);
      AdvanceKeepsActors(w, id, from, Delivered, stops, now);
      CompletionIsFine(Advance(w, id, from, Delivered, stops, now).world, id, 2, now);
    }
  }

  lemma {:induction false} RecordAllKeepsActors(w: World, trackingIds: seq<string>, stops: seq<Stop>, now: nat)
    ensures RecordAll(w, trackingIds, stops, now).world.(tracks := w.tracks) == w
    decreases |trackingIds|
  {
    if trackingIds != [] {
      RecordStopsKeepActors(w, trackingIds[0], stops, now);
      RecordAllKeepsActors(RecordStops(w, trackingIds[0], stops, now).world, trackingIds[1..], stops, now);
    }
  }

  lemma {:induction false} RecordStopsKeepActors(w: World, trackingId: string, stops: seq<Stop>, now: nat)
    ensures RecordStops(w, trackingId, stops, now).world.(tracks := w.tracks) == w
    decreases |stops|
  {
    if stops != [] {
      RecordStopsKeepActors(RecordStop(w, trackingId, stops[0], now).world, trackingId, stops[1..], now);
    }
  }

  lemma AdvanceKeepsActors(w: World, id: string, from: set<OrderStatus>, to: OrderStatus, stops: seq<Stop>, now: nat)
    ensures IsVerified(Advance(w, id, from, to, stops, now).world) == IsVerified(w)
  {
    hide RecordAll;
    if id in w.orders {
      RecordAllKeepsActors(Put(w, id, w.orders[id].(status := to)), w.orders[id].trackingIds, stops, now);
    }
  }

  lemma FundingIsFine(w: World, id: string, escrowId: string, trackingId: string, now: nat)
    requires Fits(w) && trackingId !in w.tracks
    ensures Fine(w, Funding(w, id, escrowId, trackingId, now))
  {
    hide Fits, Escrows.Opened;
    if id in w.orders && w.orders[id].status == Approved {
      FitsOf(w, id);
      var r := Funding(w, id, escrowId, trackingId, now);
      if r.error.None? {
        assert r.world.orders[id].trackingIds == [trackingId];
        OtherOrdersKeep(w, r.world, id);
      }
    }
  }

  lemma DisputingIsFine(w: World, id: string)
    requires Fits(w)
    ensures Fine(w, Disputing(w, id))
  {
    hide Fits, Escrows.Refusal, Escrows.After;
    if id in w.orders {
      FitsOf(w, id);
      ChangeIsFine(w, Put(w, id, w.orders[id].(status := Disputed)), id);
      if Disputing(w, id).world != w {
        ChangeIsFine(w, Disputing(w, id).world, id);
      }
    }
  }

  lemma ResolutionIsFine(w: World, id: string, buyerPercent: real)
    requires Fits(w)
    ensures Fine(w, Resolution(w, id, buyerPercent))
  {
    hide Fits, Escrows.Refusal, Escrows.After;
    if id in w.orders {
      FitsOf(w, id);
      ChangeIsFine(w, Resolution(w, id, buyerPercent).world, id);
    }
  }

  lemma CreationIsFine(w: World, id: string, o: Order, counter: nat)
    requires Fits(w) && o.trackingIds == [] && |o.milestones| == 3 && o.status == Draft
    ensures Fits(Put(w, id, o).(counter := counter))
  {
    hide Fits;
    OtherOrdersKeep(w, Put(w, id, o).(counter := counter), id);
  }

  lemma SuitsSimply(w: World, id: string, from: set<OrderStatus>, to: OrderStatus, stops: seq<Stop>)
    requires Fits(w) && id in w.orders && w.orders[id].status in from
    requires stops == [] && Unfunded(w.orders[id].status) && to != ProductionComplete && to != Shipping
    ensures var o := w.orders[id].(status := to);
      Suits(w.orders[id], o, stops) && Ready(Put(w, id, o), id, stops)
  {
    hide Fits;
    FitsOf(w, id);
  }

  lemma SuitsOneStop(w: World, id: string, to: OrderStatus, stop: Stop)
    requires Fits(w) && id in w.orders && Underway(w.orders[id].status) && Underway(to)
    requires Ceiling(w.orders[id].status) <= stop.stage <= Ceiling(to) && stop.stage <= Tracks.MANUFACTURING_PROGRESS
    requires to != ProductionComplete && to != Shipping
    ensures var o := w.orders[id].(status := to);
      Suits(w.orders[id], o, [stop]) && Ready(Put(w, id, o), id, [stop])
  {
    hide Fits, Climbs;
    FitsOf(w, id);
    if w.orders[id].trackingIds != [] {
      ClimbsOne(w.tracks[w.orders[id].trackingIds[0]].currentStage, stop);
    }
  }

  lemma SuitsShipping(w: World, id: string, stops: seq<Stop>)
    requires Fits(w) && id in w.orders && w.orders[id].status == ProductionComplete
    requires stops == [Stop(Tracks.PACKAGING, FACILITY), Stop(Tracks.SHIPPING, DISTRIBUTION)]
    ensures var o := w.orders[id].(status := Shipping);
      Suits(w.orders[id], o, stops) && Ready(Put(w, id, o), id, stops)
  {
    hide Fits, Climbs;
    FitsOf(w, id);
    if w.orders[id].trackingIds != [] {
      ClimbsTwo(w.tracks[w.orders[id].trackingIds[0]].currentStage, stops[0], stops[1]);
    }
  }

  lemma CallIsFine(w: World, c: Call)
    requires Fits(w) && DrawsFresh(w, c)
    ensures Fine(w, Apply(w, c))
  {
    hide Fits, Suits, Ready, Advance, Approval, Funding, Completion, Delivery, Disputing, Resolution, NewOrder;
    match c
    case CreateOrder(manufacturer, shippingAddress, quantity, unitPrice, now) =>
      NewOrderIsDraft(manufacturer, shippingAddress, unitPrice * quantity);
      CreationIsFine(w, OrderId(w.counter + 1, now), NewOrder(manufacturer, shippingAddress, unitPrice * quantity), w.counter + 1);
    case SubmitOrder(id) =>
      if id in w.orders && w.orders[id].status in {Draft} {
        SuitsSimply(w, id, {Draft}, PendingApproval, []);
      }
      AdvanceIsFine(w, id, {Draft}, PendingApproval, [], 0);
    case ApproveOrder(id, manufacturer) => ApprovalIsFine(w, id, manufacturer);
    case FundOrder(id, escrowId, trackingId, now) => FundingIsFine(w, id, escrowId, trackingId, now);
    case StartProduction(id, now) =>
      var stop := Stop(Tracks.PRODUCTION_START, FACILITY);
      if id in w.orders && w.orders[id].status in {Funded} {
        SuitsOneStop(w, id, InProduction, stop);
      }
      AdvanceIsFine(w, id, {Funded}, InProduction, [stop], now);
    case ReportProgress(id, now) =>
      var stop := Stop(Tracks.MANUFACTURING_PROGRESS, FACILITY);
      if id in w.orders && w.orders[id].status in {InProduction} {
        SuitsOneStop(w, id, InProduction, stop);
      }
      AdvanceIsFine(w, id, {InProduction}, InProduction, [stop], now);
    case CompleteMilestone(id, index, now) => CompletionIsFine(w, id, index, now);
    case ReportShipping(id, now) =>
      var stops := [Stop(Tracks.PACKAGING, FACILITY), Stop(Tracks.SHIPPING, DISTRIBUTION)];
      if id in w.orders && w.orders[id].status in {ProductionComplete} {
        SuitsShipping(w, id, stops);
      }
      AdvanceIsFine(w, id, {ProductionComplete}, Shipping, stops, now);
    case ConfirmDelivery(id, now) => DeliveryIsFine(w, id, now);
    case RaiseDispute(id) => DisputingIsFine(w, id);
    case ResolveDispute(id, buyerPercent) => ResolutionIsFine(w, id, buyerPercent);
    case CancelOrder(id) =>
      if id in w.orders && w.orders[id].status in {Draft, PendingApproval} {
        SuitsSimply(w, id, {Draft, PendingApproval}, Cancelled, []);
      }
      AdvanceIsFine(w, id, {Draft, PendingApproval}, Cancelled, [], 0);
    case OnEscrow(escrowId, call) => SameOrdersFit(w, Apply(w, c).world);
    case RegisterActor(address, verified) => SameOrdersFit(w, Apply(w, c).world);
  }

  lemma NewOrderIsDraft(manufacturer: string, shippingAddress: string, total: int)
    ensures var o := NewOrder(manufacturer, shippingAddress, total);
      o.trackingIds == [] && |o.milestones| == 3 && o.status == Draft
  {}

  lemma ApprovalIsFine(w: World, id: string, manufacturer: string)
    requires Fits(w)
    ensures Fine(w, Approval(w, id, manufacturer))
  {
    hide Fits;
    if id in w.orders {
      FitsOf(w, id);
      if Approval(w, id, manufacturer).error.None? {
        ChangeIsFine(w, Approval(w, id, manufacturer).world, id);
      }
    }
  }

  lemma SameOrdersFit(w: World, v: World)
    requires Fits(w) && v.orders == w.orders && v.tracks == w.tracks
    ensures Fits(v)
  {}

  lemma {:induction false} ReachableFits(start: World, calls: seq<Call>)
    requires Starts(start) && DrawsFreshIds(start, calls)
    ensures Fits(Run(start, calls))
  {
    hide Fits, Apply;
    if calls == [] {
      InitiallyFits(start);
    } else {
      var before, c := calls[..|calls| - 1], calls[|calls| - 1];
      DrawsFreshBefore(start, calls);
      ReachableFits(start, before);
      CallIsFine(Run(start, before), c);
    }
  }

  lemma InitiallyFits(start: World)
    requires Starts(start)
    ensures Fits(start)
  {}

  lemma DrawsFreshBefore(w: World, calls: seq<Call>)
    requires DrawsFreshIds(w, calls) && calls != []
    ensures DrawsFreshIds(w, calls[..|calls| - 1])
    ensures DrawsFresh(Run(w, calls[..|calls| - 1]), calls[|calls| - 1])
  {
    hide Run, DrawsFresh;
    var before := calls[..|calls| - 1];
    forall k | 0 <= k < |before| ensures DrawsFresh(Run(w, before[..k]), before[k]) {
      assert before[..k] == calls[..k];
    }
  }

  /** In every reachable state, whatever call comes next: the tracking service refuses a checkpoint of an order neither
      for going back nor for being complete nor for an unknown product, but only if the actor is not verified. */
  lemma {:induction false} CheckpointsAreAccepted(start: World, calls: seq<Call>, c: Call)
    requires Starts(start) && DrawsFreshIds(start, calls + [c])
    ensures var w := Run(start, calls);
      var error := Apply(w, c).error;
      error.Some? && error.value.TrackingFailed? ==> error.value == TrackingFailed(Tracks.UnverifiedActor) && !IsVerified(w)
  {
    hide Apply, Fits, Run;
    assert (calls + [c])[..|calls|] == calls;
    DrawsFreshBefore(start, calls + [c]);
    ReachableFits(start, calls);
    CallIsFine(Run(start, calls), c);
  }
}
