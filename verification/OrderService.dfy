/** The orders service over the two services it drives; every method does what the step function says, also where it
    throws half-way. */
module OrderService {
  import opened Wrappers
  import Escrows = EscrowModel
  import Tracks = TrackingModel
  import opened EscrowService
  import opened TrackingService
  import opened OrdersModel
  import OrderTracking
  import OrderPayments

  class ManufacturingOrder {
    const manufacturer: string
    const shippingAddress: string
    const totalAmount: int
    var status: OrderStatus
    var escrowId: Option<string>
    var trackingIds: seq<string>
    var milestones: seq<Milestone>

    constructor (o: Order)
      ensures View() == o
    {
      manufacturer, shippingAddress, totalAmount, status := o.manufacturer, o.shippingAddress, o.total, o.status;
      escrowId, trackingIds, milestones := o.escrowId, o.trackingIds, o.milestones;
    }

    function View(): Order
      reads this
    {
      Order(manufacturer, shippingAddress, totalAmount, status, escrowId, trackingIds, milestones)
    }
  }

  /** What the escrow pays for a milestone it releases. */
  function Due(w: World, escrowId: Option<string>, index: int): int {
    if escrowId.Some? && escrowId.value in w.escrows && 0 <= index < |w.escrows[escrowId.value].amounts|
    then w.escrows[escrowId.value].amounts[index] else 0
  }

  /** The buyer's and the manufacturer's part of a dispute. */
  function Parts(w: World, escrowId: Option<string>, buyerPercent: real): (int, int) {
    if escrowId.Some? && escrowId.value in w.escrows then
      var e := w.escrows[escrowId.value];
      var toBuyer := Escrows.ToBuyer(e, buyerPercent.Floor);
      (toBuyer, Escrows.RemainingAmount(e) - toBuyer)
    else (0, 0)
  }

  class ManufacturingOrders {
    const escrow: ManufacturingEscrow
    const tracking: SupplyChainTracking
    var orders: map<string, ManufacturingOrder>
    var orderCounter: nat
    /** The orders as values. */
    ghost var model: map<string, Order>

    ghost predicate Records()
      reads this`orders, this`model, orders.Values
    {
      && orders.Keys == model.Keys
      && (forall id :: id in orders ==> orders[id].View() == model[id])
      && (forall i, j :: i in orders && j in orders && i != j ==> orders[i] != orders[j])
    }

    /** Orders and services together are what some run of calls leaves. */
    ghost predicate Valid()
      reads this, orders.Values
      reads escrow, escrow.pendingEscrows.Values
      reads tracking, tracking.trackingRecords.Values
    {
      Consistent() && Reachable(TheWorld())
    }

    /** The records agree with their values; every method works from here and keeps Valid as well. */
    ghost predicate Consistent()
      reads this, orders.Values
      reads escrow, escrow.pendingEscrows.Values
      reads tracking, tracking.trackingRecords.Values
    {
      Records() && escrow.Valid() && tracking.Valid()
    }

    /** Orders, escrows and tracking records together. */
    ghost function TheWorld(): World
      reads this`model, this`orderCounter, escrow`model, tracking`model, tracking`verifiedActors
    {
      World(model, escrow.model, tracking.model, orderCounter, tracking.account, tracking.verifiedActors)
    }

    constructor (escrow: ManufacturingEscrow, tracking: SupplyChainTracking)
      requires escrow.Valid() && tracking.Valid()
      ensures Valid() && this.escrow == escrow && this.tracking == tracking
      ensures TheWorld() == World(map[], escrow.model, tracking.model, 0, tracking.account, tracking.verifiedActors)
    {
      this.escrow, this.tracking, orders, orderCounter, model := escrow, tracking, map[], 0, map[];
      new;
      StartReachable(TheWorld());
    }

    /** Order id has become o; every other record is as the model has it. */
    ghost predicate Changed(id: string, o: Order)
      reads this`orders, this`model, orders.Values
    {
      && orders.Keys == model.Keys
      && (forall i :: i in orders ==> orders[i].View() == if i == id then o else model[i])
      && (forall i, j :: i in orders && j in orders && i != j ==> orders[i] != orders[j])
    }

    ghost method Commit(id: string, o: Order)
      requires id in orders && Changed(id, o)
      modifies this`model
      ensures Records() && model == old(model)[id := o]
    {
      hide ManufacturingOrder.View;
      model := model[id := o];
    }

    method SetStatus(id: string, status: OrderStatus)
      requires id in orders && Records()
      modifies this`model, orders.Values
      ensures Records() && model == old(model)[id := old(model[id]).(status := status)]
    {
      var order := orders[id];
      assert order.View() == model[id];
      order.status := status;
      Commit(id, model[id].(status := status));
    }

    method MarkMilestone(id: string, index: nat)
      requires Records() && id in orders && index < |model[id].milestones|
      modifies this`model, orders.Values
      ensures Records() && model == old(model)[id := Marked(old(model[id]), index)]
    {
      var order := orders[id];
      assert order.View() == model[id];
      order.milestones := order.milestones[index := order.milestones[index].(status := Completed)];
      Commit(id, Marked(model[id], index));
    }

    /** The record of an order carries what the model says. */
    lemma RecordOf(id: string)
      requires Consistent()
      ensures id in orders <==> id in TheWorld().orders
      ensures id in orders ==> orders[id].View() == TheWorld().orders[id]
    {
      hide ManufacturingOrder.View, SupplyChainTracking.Valid, ManufacturingEscrow.Valid;
    }

    method MoveTo(id: string, status: OrderStatus)
      requires Consistent() && id in TheWorld().orders
      modifies this`model, orders.Values
      ensures Consistent() && TheWorld() == Put(old(TheWorld()), id, old(TheWorld()).orders[id].(status := status))
    {
      hide SupplyChainTracking.Valid, ManufacturingEscrow.Valid, ManufacturingOrder.View;
      SetStatus(id, status);
    }

    method Mark(id: string, index: nat)
      requires Consistent() && id in TheWorld().orders && index < |TheWorld().orders[id].milestones|
      modifies this`model, orders.Values
      ensures Consistent() && TheWorld() == Put(old(TheWorld()), id, Marked(old(TheWorld()).orders[id], index))
    {
      hide SupplyChainTracking.Valid, ManufacturingEscrow.Valid, ManufacturingOrder.View;
      MarkMilestone(id, index);
    }

    /** Asks the escrow, if there is one, to release a milestone; answers the amount released. */
    method Pay(escrowId: Option<string>, index: int, ghost o: Order) returns (r: Result<int, OrderError>)
      requires Consistent() && o.escrowId == escrowId
      modifies escrow`model, escrow.pendingEscrows.Values
      ensures Consistent()
      ensures var outcome := PayMilestone(old(TheWorld()), o, index);
        TheWorld() == outcome.world && outcome.error == if r.Ok? then None else Some(r.error)
      ensures r.Ok? ==> r.value == Due(old(TheWorld()), escrowId, index)
    {
      hide SupplyChainTracking.Valid, ManufacturingEscrow.Valid, Records, Escrows.Effect;
      if escrowId.None? {
        return Ok(0);
      }
      var result := escrow.ReleaseMilestone(escrowId.value, index);
      r := if result.Ok? then Ok(result.value) else Err(EscrowFailed(result.error));
    }

    method DisputeEscrow(escrowId: string) returns (r: Option<OrderError>)
      requires Consistent()
      modifies escrow`model, escrow.pendingEscrows.Values
      ensures Consistent()
      ensures var outcome := CallEscrow(old(TheWorld()), escrowId, Escrows.Dispute);
        TheWorld() == outcome.world && r == outcome.error
    {
      hide SupplyChainTracking.Valid, ManufacturingEscrow.Valid, Records, Escrows.Effect;
      var refusal := escrow.RaiseDispute(escrowId);
      r := if refusal.Some? then Some(EscrowFailed(refusal.value)) else None;
    }

    method ResolveEscrow(escrowId: string, buyerPercent: real) returns (r: Result<(int, int), OrderError>)
      requires Consistent()
      modifies escrow`model, escrow.pendingEscrows.Values
      ensures Consistent()
      ensures var outcome := CallEscrow(old(TheWorld()), escrowId, Escrows.Resolve(buyerPercent));
        TheWorld() == outcome.world && outcome.error == if r.Ok? then None else Some(r.error)
      ensures r.Ok? ==> Parts(old(TheWorld()), Some(escrowId), buyerPercent) == r.value
    {
      hide SupplyChainTracking.Valid, ManufacturingEscrow.Valid, Records, Escrows.Effect, Escrows.ToBuyer, Escrows.RemainingAmount;
      var result := escrow.ResolveDispute(escrowId, buyerPercent);
      r := if result.Ok? then Ok(result.value) else Err(EscrowFailed(result.error));
    }

    /** The loops over the products of an order, recording the same stops for each. */
    method RecordCheckpoints(trackingIds: seq<string>, stops: seq<Stop>, now: nat) returns (r: Option<OrderError>)
      requires Consistent()
      modifies tracking`model, tracking.trackingRecords.Values
      ensures Consistent()
      ensures var outcome := RecordAll(old(TheWorld()), trackingIds, stops, now); TheWorld() == outcome.world && r == outcome.error
    {
      hide RecordStops, Tracks.Refusal, Tracks.After, SupplyChainTracking.Valid, ManufacturingEscrow.Valid, Records;
      ghost var all := RecordAll(TheWorld(), trackingIds, stops, now);
      var i := 0;
      while i < |trackingIds|
        invariant 0 <= i <= |trackingIds| && Consistent()
        invariant RecordAll(TheWorld(), trackingIds[i..], stops, now) == all
      {
        r := RecordOne(trackingIds[i], stops, now);
        if r.Some? {
          return;
        }
        assert trackingIds[i..][1..] == trackingIds[i + 1..];
        i := i + 1;
      }
      r := None;
    }

    method RecordOne(trackingId: string, stops: seq<Stop>, now: nat) returns (r: Option<OrderError>)
      requires Consistent()
      modifies tracking`model, tracking.trackingRecords.Values
      ensures Consistent()
      ensures var outcome := RecordStops(old(TheWorld()), trackingId, stops, now); TheWorld() == outcome.world && r == outcome.error
    {
      hide Tracks.Refusal, Tracks.After, SupplyChainTracking.Valid, ManufacturingEscrow.Valid, Records;
      ghost var all := RecordStops(TheWorld(), trackingId, stops, now);
      var i := 0;
      while i < |stops|
        invariant 0 <= i <= |stops| && Consistent()
        invariant RecordStops(TheWorld(), trackingId, stops[i..], now) == all
      {
        r := RecordStopNow(trackingId, stops[i], now);
        if r.Some? {
          return;
        }
        assert stops[i..][1..] == stops[i + 1..];
        i := i + 1;
      }
      r := None;
    }

    method RecordStopNow(trackingId: string, stop: Stop, now: nat) returns (r: Option<OrderError>)
      requires Consistent()
      modifies tracking`model, tracking.trackingRecords.Values
      ensures Consistent()
      ensures var outcome := RecordStop(old(TheWorld()), trackingId, stop, now); TheWorld() == outcome.world && r == outcome.error
    {
      hide SupplyChainTracking.Valid, ManufacturingEscrow.Valid, Records;
      var answer := tracking.RecordCheckpoint(trackingId, stop.stage, stop.location, now);
      r := if answer.Ok? then None else Some(TrackingFailed(answer.error));
    }

    method AddOrder(id: string, o: Order)
      requires Records()
      modifies this`orders, this`model
      ensures Records() && model == old(model)[id := o]
      ensures forall v :: v in orders.Values ==> v in old(orders.Values) || fresh(v)
    {
      hide ManufacturingOrder.View;
      ghost var was := orders;
      var order := new ManufacturingOrder(o);
      orders := orders[id := order];
      model := model[id := o];
      forall v | v in orders.Values ensures v in was.Values || fresh(v) {
        var k :| k in orders && orders[k] == v;
        assert k != id ==> was[k] in was.Values;
      }
    }

    method CreateOrder(manufacturer: string, shippingAddress: string, quantity: int, unitPrice: int, now: nat) returns (orderId: string)
      requires Consistent()
      modifies this
      ensures Consistent() && (old(Valid()) ==> Valid())
      ensures TheWorld() == Step(old(TheWorld()), Call.CreateOrder(manufacturer, shippingAddress, quantity, unitPrice, now))
      ensures orderId == OrderId(old(orderCounter) + 1, now) && orderId in TheWorld().orders
    {
      hide SupplyChainTracking.Valid, ManufacturingEscrow.Valid, Records, NewOrder, Reachable;
      if Valid() {
        StepReachable(TheWorld(), Call.CreateOrder(manufacturer, shippingAddress, quantity, unitPrice, now));
      }
      orderCounter := orderCounter + 1;
      orderId := OrderId(orderCounter, now);
      AddOrder(orderId, NewOrder(manufacturer, shippingAddress, unitPrice * quantity));
    }

    /** The calls that check a status, set another one and record checkpoints. */
    method AdvanceOrder(orderId: string, from: set<OrderStatus>, next: OrderStatus, stops: seq<Stop>, now: nat)
      returns (r: Option<OrderError>)
      requires Consistent()
      modifies this`model, orders.Values, tracking`model, tracking.trackingRecords.Values
      ensures Consistent()
      ensures var outcome := Advance(old(TheWorld()), orderId, from, next, stops, now); TheWorld() == outcome.world && r == outcome.error
    {
      hide Consistent, TheWorld, RecordAll;
      RecordOf(orderId);
      if orderId !in orders {
        return Some(OrderNotFound);
      }
      var order := orders[orderId];
      if order.status !in from {
        return Some(WrongStatus);
      }
      var trackingIds := order.trackingIds;
      MoveTo(orderId, next);
      r := RecordCheckpoints(trackingIds, stops, now);
    }

    method SubmitOrder(orderId: string) returns (r: Option<OrderError>)
      requires Consistent()
      modifies this`model, orders.Values, tracking`model, tracking.trackingRecords.Values
      ensures Consistent() && (old(Valid()) ==> Valid())
      ensures var outcome := Apply(old(TheWorld()), Call.SubmitOrder(orderId)); TheWorld() == outcome.world && r == outcome.error
    {
      hide Consistent, TheWorld, Advance, Reachable;
      if Valid() {
        StepReachable(TheWorld(), Call.SubmitOrder(orderId));
      }
      r := AdvanceOrder(orderId, {Draft}, PendingApproval, [], 0);
    }

    method CancelOrder(orderId: string) returns (r: Option<OrderError>)
      requires Consistent()
      modifies this`model, orders.Values, tracking`model, tracking.trackingRecords.Values
      ensures Consistent() && (old(Valid()) ==> Valid())
      ensures var outcome := Apply(old(TheWorld()), Call.CancelOrder(orderId)); TheWorld() == outcome.world && r == outcome.error
    {
      hide Consistent, TheWorld, Advance, Reachable;
      if Valid() {
        StepReachable(TheWorld(), Call.CancelOrder(orderId));
      }
      r := AdvanceOrder(orderId, {Draft, PendingApproval}, Cancelled, [], 0);
    }

    method ApproveOrder(orderId: string, manufacturerAddress: string) returns (r: Option<OrderError>)
      requires Consistent()
      modifies this`model, orders.Values
      ensures Consistent() && (old(Valid()) ==> Valid())
      ensures var outcome := Apply(old(TheWorld()), Call.ApproveOrder(orderId, manufacturerAddress));
        TheWorld() == outcome.world && r == outcome.error
    {
      hide Consistent, TheWorld, LowerCase, Reachable;
      if Valid() {
        StepReachable(TheWorld(), Call.ApproveOrder(orderId, manufacturerAddress));
      }
      RecordOf(orderId);
      if orderId !in orders {
        return Some(OrderNotFound);
      }
      var order := orders[orderId];
      if order.status != PendingApproval {
        return Some(WrongStatus);
      }
      if LowerCase(order.manufacturer) != LowerCase(manufacturerAddress) {
        return Some(NotTheManufacturer);
      }
      MoveTo(orderId, Approved);
      r := None;
    }

    method OpenEscrow(totalAmount: int, milestoneAmounts: seq<int>, escrowId: string) returns (r: Option<OrderError>)
      requires Consistent()
      modifies escrow
      ensures Consistent()
      ensures var created := Escrows.Opened(totalAmount, milestoneAmounts);
        if created.Ok? then r.None? && TheWorld() == old(TheWorld()).(escrows := old(TheWorld()).escrows[escrowId := created.value])
        else r == Some(EscrowFailed(created.error)) && TheWorld() == old(TheWorld())
    {
      hide SupplyChainTracking.Valid, ManufacturingEscrow.Valid, Records, Escrows.Opened;
      var created := escrow.CreateEscrow(totalAmount, milestoneAmounts, escrowId);
      r := if created.Ok? then None else Some(EscrowFailed(created.error));
    }

    method OpenTracking(trackingId: string, manufacturer: string, now: nat)
      requires Consistent()
      modifies tracking`model, tracking`trackingRecords
      ensures Consistent()
      ensures TheWorld() == old(TheWorld()).(tracks := old(TheWorld()).tracks[trackingId := Tracks.Initialized(manufacturer, now)])
    {
      hide SupplyChainTracking.Valid, ManufacturingEscrow.Valid, Records;
      tracking.InitializeTracking(trackingId, manufacturer, now);
    }

    method SetEscrow(id: string, escrowId: string)
      requires Records() && id in orders
      modifies this`model, orders.Values
      ensures Records() && model == old(model)[id := old(model[id]).(escrowId := Some(escrowId), status := Funded)]
    {
      var order := orders[id];
      assert order.View() == model[id];
      order.escrowId := Some(escrowId);
      order.status := Funded;
      Commit(id, model[id].(escrowId := Some(escrowId), status := Funded));
    }

    method AttachEscrow(id: string, escrowId: string)
      requires Consistent() && id in TheWorld().orders
      modifies this`model, orders.Values
      ensures Consistent()
      ensures TheWorld() == Put(old(TheWorld()), id, old(TheWorld()).orders[id].(escrowId := Some(escrowId), status := Funded))
    {
      hide SupplyChainTracking.Valid, ManufacturingEscrow.Valid, ManufacturingOrder.View;
      SetEscrow(id, escrowId);
    }

    method PushTrackingId(id: string, trackingId: string)
      requires Records() && id in orders
      modifies this`model, orders.Values
      ensures Records() && model == old(model)[id := old(model[id]).(trackingIds := old(model[id]).trackingIds + [trackingId])]
    {
      var order := orders[id];
      assert order.View() == model[id];
      order.trackingIds := order.trackingIds + [trackingId];
      Commit(id, model[id].(trackingIds := model[id].trackingIds + [trackingId]));
    }

    method AttachTracking(id: string, trackingId: string)
      requires Consistent() && id in TheWorld().orders
      modifies this`model, orders.Values
      ensures Consistent()
      ensures var o := old(TheWorld()).orders[id];
        TheWorld() == Put(old(TheWorld()), id, o.(trackingIds := o.trackingIds + [trackingId]))
    {
      hide SupplyChainTracking.Valid, ManufacturingEscrow.Valid, ManufacturingOrder.View;
      PushTrackingId(id, trackingId);
    }

    method Fund(orderId: string, escrowId: string, trackingId: string, now: nat) returns (r: Option<OrderError>)
      requires Consistent()
      modifies this`model, orders.Values, escrow, tracking`model, tracking`trackingRecords
      ensures Consistent()
      ensures var outcome := Funding(old(TheWorld()), orderId, escrowId, trackingId, now);
        TheWorld() == outcome.world && r == outcome.error
    {
      hide Consistent, TheWorld, Escrows.Opened;
      RecordOf(orderId);
      if orderId !in orders {
        return Some(OrderNotFound);
      }
      var order := orders[orderId];
      if order.status != Approved {
        return Some(WrongStatus);
      }
      var manufacturer := order.manufacturer;
      r := OpenEscrow(order.totalAmount, Amounts(order.milestones), escrowId);
      if r.None? {
        AttachEscrow(orderId, escrowId);
        OpenTracking(trackingId, manufacturer, now);
        AttachTracking(orderId, trackingId);
      }
    }

    /** The ids are those drawn for the escrow and the tracking record; if they are new, the world stays a reachable one. */
    method FundOrder(orderId: string, escrowId: string, trackingId: string, now: nat) returns (r: Option<OrderError>)
      requires Consistent()
      modifies this`model, orders.Values, escrow, tracking`model, tracking`trackingRecords
      ensures Consistent() && (old(Valid() && DrawsFresh(TheWorld(), Call.FundOrder(orderId, escrowId, trackingId, now))) ==> Valid())
      ensures var outcome := Apply(old(TheWorld()), Call.FundOrder(orderId, escrowId, trackingId, now));
        TheWorld() == outcome.world && r == outcome.error
    {
      hide Consistent, TheWorld, Funding, Reachable, DrawsFresh;
      if Valid() && DrawsFresh(TheWorld(), Call.FundOrder(orderId, escrowId, trackingId, now)) {
        StepReachable(TheWorld(), Call.FundOrder(orderId, escrowId, trackingId, now));
      }
      r := Fund(orderId, escrowId, trackingId, now);
    }

    method StartProduction(orderId: string, now: nat) returns (r: Option<OrderError>)
      requires Consistent()
      modifies this`model, orders.Values, tracking`model, tracking.trackingRecords.Values
      ensures Consistent() && (old(Valid()) ==> Valid())
      ensures var outcome := Apply(old(TheWorld()), Call.StartProduction(orderId, now)); TheWorld() == outcome.world && r == outcome.error
    {
      hide Consistent, TheWorld, Advance, Reachable;
      if Valid() {
        StepReachable(TheWorld(), Call.StartProduction(orderId, now));
      }
      r := AdvanceOrder(orderId, {Funded}, InProduction, [Stop(Tracks.PRODUCTION_START, FACILITY)], now);
    }

    method ReportProgress(orderId: string, now: nat) returns (r: Option<OrderError>)
      requires Consistent()
      modifies this`model, orders.Values, tracking`model, tracking.trackingRecords.Values
      ensures Consistent() && (old(Valid()) ==> Valid())
      ensures var outcome := Apply(old(TheWorld()), Call.ReportProgress(orderId, now)); TheWorld() == outcome.world && r == outcome.error
    {
      hide Consistent, TheWorld, Advance, Reachable;
      if Valid() {
        StepReachable(TheWorld(), Call.ReportProgress(orderId, now));
      }
      r := AdvanceOrder(orderId, {InProduction}, InProduction, [Stop(Tracks.MANUFACTURING_PROGRESS, FACILITY)], now);
    }

    method ReportShipping(orderId: string, now: nat) returns (r: Option<OrderError>)
      requires Consistent()
      modifies this`model, orders.Values, tracking`model, tracking.trackingRecords.Values
      ensures Consistent() && (old(Valid()) ==> Valid())
      ensures var outcome := Apply(old(TheWorld()), Call.ReportShipping(orderId, now)); TheWorld() == outcome.world && r == outcome.error
    {
      hide Consistent, TheWorld, Advance, Reachable;
      if Valid() {
        StepReachable(TheWorld(), Call.ReportShipping(orderId, now));
      }
      r := AdvanceOrder(orderId, {ProductionComplete}, Shipping,
                        [Stop(Tracks.PACKAGING, FACILITY), Stop(Tracks.SHIPPING, DISTRIBUTION)], now);
    }

    method FinishMilestone(orderId: string, milestoneIndex: int, now: nat) returns (r: Option<OrderError>, releasedAmount: int)
      requires Consistent()
      modifies this`model, orders.Values, escrow`model, escrow.pendingEscrows.Values, tracking`model, tracking.trackingRecords.Values
      ensures Consistent()
      ensures var outcome := Completion(old(TheWorld()), orderId, milestoneIndex, now); TheWorld() == outcome.world && r == outcome.error
      ensures r.None? ==> orderId in old(TheWorld()).orders
      ensures r.None? ==> releasedAmount == Due(old(TheWorld()), old(TheWorld()).orders[orderId].escrowId, milestoneIndex)
    {
      hide Consistent, TheWorld, RecordAll, PayMilestone, Due;
      releasedAmount := 0;
      RecordOf(orderId);
      if orderId !in orders {
        r := Some(OrderNotFound);
        return;
      }
      var order := orders[orderId];
      if milestoneIndex < 0 || milestoneIndex >= |order.milestones| {
        r := Some(MilestoneNotFound);
        return;
      }
      if !IsOpen(order.milestones[milestoneIndex]) {
        r := Some(MilestoneClosed);
        return;
      }
      var escrowId, trackingIds := order.escrowId, order.trackingIds;
      ghost var o := Marked(TheWorld().orders[orderId], milestoneIndex);
      Mark(orderId, milestoneIndex);
      DueWhenMarked(old(TheWorld()), orderId, o, escrowId, milestoneIndex);
      var paid := Pay(escrowId, milestoneIndex, o);
      PayingKeepsOrders(Put(old(TheWorld()), orderId, o), o, milestoneIndex);
      if paid.Err? {
        r := Some(paid.error);
        return;
      }
      releasedAmount, r := paid.value, None;
      if milestoneIndex == 1 {
        MoveTo(orderId, ProductionComplete);
        r := RecordCheckpoints(trackingIds, [Stop(Tracks.QUALITY_CONTROL_1, FACILITY)], now);
      } else if milestoneIndex == 2 {
        MoveTo(orderId, Complete);
      }
    }

    method CompleteMilestone(orderId: string, milestoneIndex: int, now: nat) returns (r: Option<OrderError>, releasedAmount: int)
      requires Consistent()
      modifies this`model, orders.Values, escrow`model, escrow.pendingEscrows.Values, tracking`model, tracking.trackingRecords.Values
      ensures Consistent() && (old(Valid()) ==> Valid())
      ensures var outcome := Apply(old(TheWorld()), Call.CompleteMilestone(orderId, milestoneIndex, now)); TheWorld() == outcome.world && r == outcome.error
      ensures r.None? ==> orderId in old(TheWorld()).orders
      ensures r.None? ==> releasedAmount == Due(old(TheWorld()), old(TheWorld()).orders[orderId].escrowId, milestoneIndex)
    {
      hide Consistent, TheWorld, Completion, Reachable, Due;
      if Valid() {
        StepReachable(TheWorld(), Call.CompleteMilestone(orderId, milestoneIndex, now));
      }
      r, releasedAmount := FinishMilestone(orderId, milestoneIndex, now);
    }

    method ConfirmDelivery(orderId: string, now: nat) returns (r: Option<OrderError>, releasedAmount: int)
      requires Consistent()
      modifies this`model, orders.Values, escrow`model, escrow.pendingEscrows.Values, tracking`model, tracking.trackingRecords.Values
      ensures Consistent() && (old(Valid()) ==> Valid())
      ensures var outcome := Apply(old(TheWorld()), Call.ConfirmDelivery(orderId, now)); TheWorld() == outcome.world && r == outcome.error
      ensures r.None? ==> orderId in old(TheWorld()).orders
      ensures r.None? ==> releasedAmount == Due(old(TheWorld()), old(TheWorld()).orders[orderId].escrowId, 2)
    {
      hide Consistent, TheWorld, Completion, Advance, Reachable, Due;
      if Valid() {
        StepReachable(TheWorld(), Call.ConfirmDelivery(orderId, now));
      }
      releasedAmount := 0;
      RecordOf(orderId);
      if orderId !in orders {
        r := Some(OrderNotFound);
        return;
      }
      var address := orders[orderId].shippingAddress;
      var stops := [Stop(Tracks.DELIVERY_CONFIRMED, address), Stop(Tracks.COMPLETED, address)];
      DueWhenAdvanced(TheWorld(), orderId, {Shipping, ProductionComplete}, Delivered, stops, now, 2);
      r := AdvanceOrder(orderId, {Shipping, ProductionComplete}, Delivered, stops, now);
      if r.None? {
        r, releasedAmount := FinishMilestone(orderId, 2, now);
      }
    }

    method RaiseDispute(orderId: string) returns (r: Option<OrderError>)
      requires Consistent()
      modifies this`model, orders.Values, escrow`model, escrow.pendingEscrows.Values
      ensures Consistent() && (old(Valid()) ==> Valid())
      ensures var outcome := Apply(old(TheWorld()), Call.RaiseDispute(orderId)); TheWorld() == outcome.world && r == outcome.error
    {
      hide Consistent, TheWorld, CallEscrow, Reachable;
      if Valid() {
        StepReachable(TheWorld(), Call.RaiseDispute(orderId));
      }
      RecordOf(orderId);
      if orderId !in orders {
        return Some(OrderNotFound);
      }
      var order := orders[orderId];
      if order.status == Complete || order.status == Cancelled {
        return Some(WrongStatus);
      }
      var escrowId := order.escrowId;
      MoveTo(orderId, Disputed);
      r := None;
      if escrowId.Some? {
        r := DisputeEscrow(escrowId.value);
      }
    }

    /** Answers the buyer's and the manufacturer's part. */
    method ResolveDispute(orderId: string, buyerPercent: real) returns (r: Result<(int, int), OrderError>)
      requires Consistent()
      modifies this`model, orders.Values, escrow`model, escrow.pendingEscrows.Values
      ensures Consistent() && (old(Valid()) ==> Valid())
      ensures var outcome := Apply(old(TheWorld()), Call.ResolveDispute(orderId, buyerPercent));
        TheWorld() == outcome.world && outcome.error == if r.Ok? then None else Some(r.error)
      ensures r.Ok? ==> orderId in old(TheWorld()).orders
      ensures r.Ok? ==> r.value == Parts(old(TheWorld()), old(TheWorld()).orders[orderId].escrowId, buyerPercent)
    {
      hide Consistent, TheWorld, CallEscrow, Escrows.ToBuyer, Reachable;
      if Valid() {
        StepReachable(TheWorld(), Call.ResolveDispute(orderId, buyerPercent));
      }
      RecordOf(orderId);
      if orderId !in orders {
        return Err(OrderNotFound);
      }
      var order := orders[orderId];
      if order.status != Disputed {
        return Err(WrongStatus);
      }
      var escrowId, parts := order.escrowId, (0, 0);
      if escrowId.Some? {
        var result := ResolveEscrow(escrowId.value, buyerPercent);
        CallKeepsOrders(old(TheWorld()), escrowId.value, Escrows.Resolve(buyerPercent));
        if result.Err? {
          return Err(result.error);
        }
        parts := result.value;
      }
      if buyerPercent == 100.0 {
        MoveTo(orderId, Refunded);
      } else if buyerPercent == 0.0 {
        MoveTo(orderId, Complete);
      } else {
        PutSame(TheWorld(), orderId);
      }
      r := Ok(parts);
    }

    /** The tracking service refuses a checkpoint of an order for no other reason than an unverified account. */
    lemma CheckpointsAreAccepted(c: Call)
      requires Valid() && DrawsFresh(TheWorld(), c)
      ensures var error := Apply(TheWorld(), c).error;
        error.Some? && error.value.TrackingFailed?
        ==> error.value == TrackingFailed(Tracks.UnverifiedActor) && !tracking.IsVerifiedActor(tracking.account)
    {
      hide Consistent, Apply, DrawsFresh, Run;
      var w := TheWorld();
      var start, calls :| Starts(start) && DrawsFreshIds(start, calls) && Run(start, calls) == w;
      DrawsFreshMore(start, calls, c);
      OrderTracking.CheckpointsAreAccepted(start, calls, c);
    }

    /** The escrow of an order is in the escrow service, on the terms of the order, and belongs to no other order. */
    lemma EveryOrderIsBacked(id: string, other: string)
      requires Valid() && id in orders && orders[id].escrowId.Some?
      ensures var eid := orders[id].escrowId.value;
        && eid in escrow.model && escrow.model[eid].total == orders[id].totalAmount
        && escrow.model[eid].amounts == Shares(orders[id].totalAmount)
        && (other in orders && other != id ==> orders[other].escrowId != Some(eid))
    {
      hide OrderPayments.Sound, Run, Shares, ManufacturingEscrow.Valid, SupplyChainTracking.Valid;
      RecordOf(id);
      RecordOf(other);
      var w := TheWorld();
      var start, calls :| Starts(start) && DrawsFreshIds(start, calls) && Run(start, calls) == w;
      var direct := DirectReleases(start, calls);
      OrderPayments.ReachableSound(start, calls);
      OrderPayments.SoundOf(direct, w, id);
      if other in w.orders && other != id {
        OrderPayments.Apart(direct, w, id, other);
      }
    }

    /** A call that another client makes on one of the services directly keeps the orders valid too. */
    twostate lemma DirectCallsKeepValid(c: Call)
      requires old(Valid()) && Consistent() && (c.OnEscrow? || c.RegisterActor?)
      requires TheWorld() == Step(old(TheWorld()), c)
      ensures Valid()
    {
      hide Consistent, Reachable, Apply;
      StepReachable(old(TheWorld()), c);
    }
  }

  lemma CallKeepsOrders(w: World, escrowId: string, c: Escrows.EscrowCall)
    ensures CallEscrow(w, escrowId, c).world.orders == w.orders
  {}

  lemma PayingKeepsOrders(w: World, o: Order, index: int)
    ensures PayMilestone(w, o, index).world.orders == w.orders
  {}

  lemma DueWhenMarked(w: World, id: string, o: Order, escrowId: Option<string>, index: int)
    ensures Due(Put(w, id, o), escrowId, index) == Due(w, escrowId, index)
  {}

  lemma DueWhenAdvanced(w: World, id: string, from: set<OrderStatus>, next: OrderStatus, stops: seq<Stop>, now: nat, index: int)
    requires id in w.orders
    ensures var v := Advance(w, id, from, next, stops, now).world;
      id in v.orders && Due(v, v.orders[id].escrowId, index) == Due(w, w.orders[id].escrowId, index)
  {
    hide RecordAll;
    OrderTracking.RecordAllKeepsActors(Put(w, id, w.orders[id].(status := next)), w.orders[id].trackingIds, stops, now);
  }

  lemma PutSame(w: World, id: string)
    requires id in w.orders
    ensures Put(w, id, w.orders[id]) == w
  {}
}
