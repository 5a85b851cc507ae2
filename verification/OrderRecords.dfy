/** Which checkpoints the calls on orders record, and what funding and approving do. */
module OrderRecords {
  import opened Wrappers
  import Escrows = EscrowModel
  import Tracks = TrackingModel
  import opened OrdersModel
  import OrderTracking

  /** The checkpoints that recording these stops adds. */
  function Stamped(stops: seq<Stop>, actor: string, now: nat): seq<Tracks.Checkpoint> {
    seq(|stops|, i requires 0 <= i < |stops| => Tracks.Checkpoint(stops[i].stage, stops[i].location, actor, now))
  }

  /** This record has these checkpoints more; nothing else has changed but what follows from them. */
  ghost predicate Added(w: World, v: World, trackingId: string, added: seq<Tracks.Checkpoint>) {
    && trackingId in w.tracks && trackingId in v.tracks
    && v == w.(tracks := w.tracks[trackingId := v.tracks[trackingId]])
    && v.tracks[trackingId].checkpoints == w.tracks[trackingId].checkpoints + added
    && v.tracks[trackingId].startedAt == w.tracks[trackingId].startedAt
  }

  lemma StopIsAdded(w: World, trackingId: string, stop: Stop, now: nat)
    requires RecordStop(w, trackingId, stop, now).error == None
    ensures Added(w, RecordStop(w, trackingId, stop, now).world, trackingId, Stamped([stop], w.actor, now))
  {}

  lemma AddedMore(w: World, v: World, u: World, trackingId: string, stops: seq<Stop>, now: nat)
    requires stops != [] && Added(w, v, trackingId, Stamped(stops[..1], w.actor, now))
    requires Added(v, u, trackingId, Stamped(stops[1..], w.actor, now))
    ensures Added(w, u, trackingId, Stamped(stops, w.actor, now))
  {
    assert Stamped(stops, w.actor, now) == Stamped(stops[..1], w.actor, now) + Stamped(stops[1..], w.actor, now);
  }

  lemma {:induction false} StopsAreAdded(w: World, trackingId: string, stops: seq<Stop>, now: nat)
    requires trackingId in w.tracks && RecordStops(w, trackingId, stops, now).error == None
    ensures Added(w, RecordStops(w, trackingId, stops, now).world, trackingId, Stamped(stops, w.actor, now))
    decreases |stops|
  {
    hide RecordStop;
    if stops == [] {
      assert w.tracks == w.tracks[trackingId := w.tracks[trackingId]];
    } else {
      StopIsAdded(w, trackingId, stops[0], now);
      var v := RecordStop(w, trackingId, stops[0], now).world;
      assert stops[..1] == [stops[0]];
      StopsAreAdded(v, trackingId, stops[1..], now);
      AddedMore(w, v, RecordStops(v, trackingId, stops[1..], now).world, trackingId, stops, now);
    }
  }

  lemma AllAreAdded(w: World, trackingId: string, stops: seq<Stop>, now: nat)
    requires trackingId in w.tracks && RecordAll(w, [trackingId], stops, now).error == None
    ensures Added(w, RecordAll(w, [trackingId], stops, now).world, trackingId, Stamped(stops, w.actor, now))
  {
    hide RecordStops, Added;
    assert [trackingId][1..] == [];
    var first := RecordStops(w, trackingId, stops, now);
    StopsAreAdded(w, trackingId, stops, now);
    assert RecordAll(w, [trackingId], stops, now) == first;
  }

  /** The stages, by their numbers, and places that a call records. */
  function Stages(c: Call, address: string): seq<(int, string)> {
    match c
    case StartProduction(_, _) => [(2, "Manufacturing Facility")]
    case ReportProgress(_, _) => [(3, "Manufacturing Facility")]
    case CompleteMilestone(_, index, _) => if index == 1 then [(4, "Manufacturing Facility")] else []
    case ReportShipping(_, _) => [(6, "Manufacturing Facility"), (8, "Distribution Center")]
    case ConfirmDelivery(_, _) => [(11, address), (12, address)]
    case _ => []
  }

  predicate Records(c: Call) {
    c.StartProduction? || c.ReportProgress? || c.CompleteMilestone? || c.ReportShipping? || c.ConfirmDelivery?
  }

  /** The checkpoints of a record are the earlier ones and these, by this account at this time. */
  ghost predicate Lists(t: Tracks.Track, before: Tracks.Track, stages: seq<(int, string)>, actor: string, now: nat) {
    var n := |before.checkpoints|;
    && |t.checkpoints| == n + |stages| && t.checkpoints[..n] == before.checkpoints
    && forall i :: 0 <= i < |stages| ==>
         && t.checkpoints[n + i].stage == stages[i].0 && t.checkpoints[n + i].location == stages[i].1
         && t.checkpoints[n + i].actor == actor && t.checkpoints[n + i].timestamp == now
  }

  lemma AddedLists(w: World, v: World, trackingId: string, stops: seq<Stop>, stages: seq<(int, string)>, now: nat)
    requires Added(w, v, trackingId, Stamped(stops, w.actor, now)) && |stops| == |stages|
    requires forall i :: 0 <= i < |stops| ==> stops[i].stage == stages[i].0 && stops[i].location == stages[i].1
    ensures Lists(v.tracks[trackingId], w.tracks[trackingId], stages, w.actor, now)
  {}

  lemma AdvanceRecords(w: World, id: string, from: set<OrderStatus>, next: OrderStatus, stops: seq<Stop>, stages: seq<(int, string)>, now: nat)
    requires id in w.orders && |w.orders[id].trackingIds| == 1 && w.orders[id].trackingIds[0] in w.tracks
    requires Advance(w, id, from, next, stops, now).error == None
    requires |stops| == |stages| && forall i :: 0 <= i < |stops| ==> stops[i].stage == stages[i].0 && stops[i].location == stages[i].1
    ensures var tid, v := w.orders[id].trackingIds[0], Advance(w, id, from, next, stops, now).world;
      tid in v.tracks && Lists(v.tracks[tid], w.tracks[tid], stages, w.actor, now)
  {
    hide RecordAll, Lists, Added;
    var tid, moved := w.orders[id].trackingIds[0], Put(w, id, w.orders[id].(status := next));
    assert w.orders[id].trackingIds == [tid];
    AllAreAdded(moved, tid, stops, now);
    assert Advance(w, id, from, next, stops, now).world == RecordAll(moved, [tid], stops, now).world;
    AddedLists(moved, RecordAll(moved, [tid], stops, now).world, tid, stops, stages, now);
    AddedKeeps(moved, RecordAll(moved, [tid], stops, now).world, tid, Stamped(stops, w.actor, now));
  }

  lemma AddedKeeps(w: World, v: World, trackingId: string, added: seq<Tracks.Checkpoint>)
    requires Added(w, v, trackingId, added)
    ensures trackingId in v.tracks && v.actor == w.actor && v.orders == w.orders && v.escrows == w.escrows
  {}

  lemma CompletionRecords(w: World, id: string, index: int, now: nat)
    requires id in w.orders && |w.orders[id].trackingIds| == 1 && w.orders[id].trackingIds[0] in w.tracks
    requires Completion(w, id, index, now).error == None
    ensures var tid, v := w.orders[id].trackingIds[0], Completion(w, id, index, now).world;
      tid in v.tracks && Lists(v.tracks[tid], w.tracks[tid], if index == 1 then [(4, "Manufacturing Facility")] else [], w.actor, now)
  {
    hide RecordAll, Added, Escrows.Refusal, Escrows.After;
    var o, paid := OrdersModel.Marked(w.orders[id], index), MarkAndPay(w, id, index);
    var tid := w.orders[id].trackingIds[0];
    assert paid.world.tracks == w.tracks && paid.world.actor == w.actor;
    if index == 1 {
      var moved, stops := Put(paid.world, id, o.(status := ProductionComplete)), [Stop(Tracks.QUALITY_CONTROL_1, FACILITY)];
      assert o.trackingIds == [tid];
      hide Completion, MarkAndPay, Lists;
      CompletionEnds(w, id, now);
      AllAreAdded(moved, tid, stops, now);
      AddedLists(moved, RecordAll(moved, [tid], stops, now).world, tid, stops, [(4, "Manufacturing Facility")], now);
      AddedKeeps(moved, RecordAll(moved, [tid], stops, now).world, tid, Stamped(stops, w.actor, now));
    }
  }

  lemma CompletionEnds(w: World, id: string, now: nat)
    requires id in w.orders && Completion(w, id, 1, now).error == None
    ensures 1 < |w.orders[id].milestones| && MarkAndPay(w, id, 1).error == None
    ensures var o := OrdersModel.Marked(w.orders[id], 1);
      Completion(w, id, 1, now)
      == RecordAll(Put(MarkAndPay(w, id, 1).world, id, o.(status := ProductionComplete)), o.trackingIds,
                   [Stop(Tracks.QUALITY_CONTROL_1, FACILITY)], now)
  {
    hide RecordAll, MarkAndPay;
  }

  lemma DeliveryRecords(w: World, id: string, now: nat)
    requires id in w.orders && |w.orders[id].trackingIds| == 1 && w.orders[id].trackingIds[0] in w.tracks
    requires Delivery(w, id, now).error == None
    ensures var tid, v, address := w.orders[id].trackingIds[0], Delivery(w, id, now).world, w.orders[id].shippingAddress;
      tid in v.tracks && Lists(v.tracks[tid], w.tracks[tid], [(11, address), (12, address)], w.actor, now)
  {
    var tid, address := w.orders[id].trackingIds[0], w.orders[id].shippingAddress;
    var stops := [Stop(Tracks.DELIVERY_CONFIRMED, address), Stop(Tracks.COMPLETED, address)];
    var from := {Shipping, ProductionComplete};
    var delivered := Advance(w, id, from, Delivered, stops, now);
    hide Completion, RecordAll;
    assert delivered.error == None && Delivery(w, id, now) == Completion(delivered.world, id, 2, now);
    var moved := Put(w, id, w.orders[id].(status := Delivered));
    OrderTracking.RecordAllKeepsActors(moved, w.orders[id].trackingIds, stops, now);
    assert delivered.world.orders == moved.orders && delivered.world.actor == w.actor;
    AdvanceRecords(w, id, from, Delivered, stops, [(11, address), (12, address)], now);
    hide Advance, Delivery, Lists;
    CompletionRecords(delivered.world, id, 2, now);
    ListsNoMore(delivered.world.tracks[tid], Completion(delivered.world, id, 2, now).world.tracks[tid], w.tracks[tid],
                [(11, address), (12, address)], w.actor, now);
  }

  lemma ListsNoMore(t: Tracks.Track, u: Tracks.Track, before: Tracks.Track, stages: seq<(int, string)>, actor: string, now: nat)
    requires Lists(t, before, stages, actor, now) && Lists(u, t, [], actor, now)
    ensures Lists(u, before, stages, actor, now)
  {
    assert u.checkpoints == t.checkpoints;
  }

  /** Every call that goes through adds exactly the checkpoints of its kind to the record of its order: production start,
      progress, first quality check, packaging and shipping, delivery and completion. */
  lemma CallRecords(w: World, c: Call)
    requires Records(c) && c.id in w.orders && |w.orders[c.id].trackingIds| == 1 && w.orders[c.id].trackingIds[0] in w.tracks
    requires Apply(w, c).error == None
    ensures var tid, v := w.orders[c.id].trackingIds[0], Step(w, c);
      tid in v.tracks && Lists(v.tracks[tid], w.tracks[tid], Stages(c, w.orders[c.id].shippingAddress), w.actor, c.now)
  {
    hide Advance, Completion, Delivery, Lists;
    match c
    case StartProduction(i, now) =>
      AdvanceRecords(w, i, {Funded}, InProduction, [Stop(Tracks.PRODUCTION_START, FACILITY)], Stages(c, ""), now);
    case ReportProgress(i, now) =>
      AdvanceRecords(w, i, {InProduction}, InProduction, [Stop(Tracks.MANUFACTURING_PROGRESS, FACILITY)], Stages(c, ""), now);
    case ReportShipping(i, now) =>
      AdvanceRecords(w, i, {ProductionComplete}, Shipping,
                     [Stop(Tracks.PACKAGING, FACILITY), Stop(Tracks.SHIPPING, DISTRIBUTION)], Stages(c, ""), now);
    case CompleteMilestone(i, index, now) => CompletionRecords(w, i, index, now);
    case ConfirmDelivery(i, now) => DeliveryRecords(w, i, now);
  }

  /** Two letters are the same but for their case. */
  predicate SameLetter(c: char, d: char) {
    c == d || ('A' <= c <= 'Z' && d as int == c as int + 32) || ('A' <= d <= 'Z' && c as int == d as int + 32)
  }

  predicate SameAddress(a: string, b: string) {
    |a| == |b| && forall i :: 0 <= i < |a| ==> SameLetter(a[i], b[i])
  }

  lemma SameLowerCase(a: string, b: string)
    ensures LowerCase(a) == LowerCase(b) <==> SameAddress(a, b)
  {
    if LowerCase(a) == LowerCase(b) {
      forall i | 0 <= i < |a| ensures SameLetter(a[i], b[i]) {
        assert LowerCase(a)[i] == LowerCase(b)[i];
      }
    }
    if SameAddress(a, b) {
      forall i | 0 <= i < |a| ensures LowerCase(a)[i] == LowerCase(b)[i] {
        assert SameLetter(a[i], b[i]);
      }
    }
  }

  /** An order is approved exactly if it awaits approval and its own manufacturer asks, in whatever case. */
  lemma ApprovedIff(w: World, id: string, manufacturer: string)
    ensures Approval(w, id, manufacturer).error == None
      <==> id in w.orders && w.orders[id].status == PendingApproval && SameAddress(w.orders[id].manufacturer, manufacturer)
  {
    hide LowerCase, SameAddress;
    if id in w.orders {
      SameLowerCase(w.orders[id].manufacturer, manufacturer);
    }
  }

  /** Funding opens an escrow on the terms of the order and a fresh record, and links both. */
  lemma FundingLinks(w: World, id: string, escrowId: string, trackingId: string, now: nat)
    requires id in w.orders && Funding(w, id, escrowId, trackingId, now).error == None
    ensures var v, o := Funding(w, id, escrowId, trackingId, now).world, w.orders[id];
      && o.status == Approved
      && v == w.(orders := w.orders[id := o.(escrowId := Some(escrowId), status := Funded, trackingIds := o.trackingIds + [trackingId])],
                 escrows := w.escrows[escrowId := Escrows.Escrow(o.total, Amounts(o.milestones), Escrows.Funded, 0)],
                 tracks := w.tracks[trackingId := Tracks.Track(now, [], 0, false, {o.manufacturer})])
  {
    hide Escrows.Total;
  }
}
