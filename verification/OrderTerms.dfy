/** What an order is worth at each milestone, and how its status moves. */
module OrderTerms {
  import opened Wrappers
  import Escrows = EscrowModel
  import Tracks = TrackingModel
  import opened OrdersModel
  import OrderTracking
  import OrderPayments

  /** The amount is so many fifths of the total, rounded down to a whole unit. */
  predicate IsFifths(amount: int, fifths: nat, total: int) {
    5 * amount <= fifths * total < 5 * amount + 5
  }

  /** Two fifths, two fifths and one fifth, in this order. */
  predicate OnTerms(amounts: seq<int>, total: int) {
    |amounts| == 3 && IsFifths(amounts[0], 2, total) && IsFifths(amounts[1], 2, total) && IsFifths(amounts[2], 1, total)
  }

  lemma SharesOnTerms(total: int)
    requires 0 <= total
    ensures OnTerms(Shares(total), total)
  {
    OrderPayments.SharesByFifths(total, total / 5, total % 5);
  }

  /** An order is made with these milestones, not begun, as a draft without escrow and tracking, under an id of its own. */
  lemma CreatedOnTerms(w: World, manufacturer: string, shippingAddress: string, quantity: int, unitPrice: int, now: nat)
    ensures var v := Step(w, CreateOrder(manufacturer, shippingAddress, quantity, unitPrice, now));
      var id, total := OrderId(w.counter + 1, now), unitPrice * quantity;
      && id in v.orders && v == w.(orders := w.orders[id := v.orders[id]], counter := w.counter + 1)
      && var o := v.orders[id];
         && o.manufacturer == manufacturer && o.shippingAddress == shippingAddress && o.total == total && o.status == Draft
         && o.escrowId == None && o.trackingIds == [] && |o.milestones| == 3
         && (forall k :: 0 <= k < 3 ==> o.milestones[k].status == NotStarted)
         && (0 <= total ==> OnTerms(Amounts(o.milestones), total))
  {
    var total := unitPrice * quantity;
    if 0 <= total {
      SharesOnTerms(total);
    }
    hide Shares, OrderId, IsFifths;
    assert Amounts(NewOrder(manufacturer, shippingAddress, total).milestones) == Shares(total);
  }

  /** In every reachable state the next release pays the milestone it names on these terms: two fifths for the first and the
      second, one fifth for the third. */
  lemma {:induction false} ReleasePaysOnTerms(start: World, calls: seq<Call>, id: string, k: nat)
    requires Starts(start) && DrawsFreshIds(start, calls)
    requires id in Run(start, calls).orders && Run(start, calls).orders[id].escrowId.Some? && 0 <= Run(start, calls).orders[id].total
    ensures var w, o := Run(start, calls), Run(start, calls).orders[id];
      && o.escrowId.value in w.escrows
      && (var paid := CallEscrow(w, o.escrowId.value, Escrows.Release(k));
          paid.error == None ==>
            && k < 3 && o.escrowId.value in paid.world.escrows
            && IsFifths(Escrows.ReleasedAmount(paid.world.escrows[o.escrowId.value])
                        - Escrows.ReleasedAmount(w.escrows[o.escrowId.value]), if k == 2 then 1 else 2, o.total))
  {
    hide Run, OrderPayments.Sound, DirectReleases, Shares, IsFifths;
    var w, direct := Run(start, calls), DirectReleases(start, calls);
    OrderPayments.ReachableSound(start, calls);
    OrderPayments.SoundOf(direct, w, id);
    var o := w.orders[id];
    var e := w.escrows[o.escrowId.value];
    SharesOnTerms(o.total);
    hide CallEscrow;
    OrderPayments.DirectReleaseDoes(w, o.escrowId.value, k);
    if CallEscrow(w, o.escrowId.value, Escrows.Release(k)).error == None {
      ReleasedMore(e.amounts, k);
    }
  }

  lemma ReleasedMore(amounts: seq<int>, k: nat)
    requires k < |amounts|
    ensures Escrows.Total(amounts[..k + 1]) == Escrows.Total(amounts[..k]) + amounts[k]
  {
    assert amounts[..k + 1] == amounts[..k] + [amounts[k]];
    Escrows.TotalAppend(amounts[..k], amounts[k]);
  }

  /** The order a call is about. */
  function Named(c: Call): Option<string> {
    match c
    case CreateOrder(_, _, _, _, _) => None
    case OnEscrow(_, _) => None
    case RegisterActor(_, _) => None
    case SubmitOrder(id) => Some(id)
    case ApproveOrder(id, _) => Some(id)
    case FundOrder(id, _, _, _) => Some(id)
    case StartProduction(id, _) => Some(id)
    case ReportProgress(id, _) => Some(id)
    case CompleteMilestone(id, _, _) => Some(id)
    case ReportShipping(id, _) => Some(id)
    case ConfirmDelivery(id, _) => Some(id)
    case RaiseDispute(id) => Some(id)
    case ResolveDispute(id, _) => Some(id)
    case CancelOrder(id) => Some(id)
  }

  /** Where a call, done or broken off half-way, may take an order. */
  predicate Moves(c: Call, a: OrderStatus, b: OrderStatus) {
    match c
    case SubmitOrder(_) => a == Draft && b == PendingApproval
    case ApproveOrder(_, _) => a == PendingApproval && b == Approved
    case FundOrder(_, _, _, _) => a == Approved && b == Funded
    case StartProduction(_, _) => a == Funded && b == InProduction
    case CompleteMilestone(_, index, _) => (index == 1 && b == ProductionComplete) || (index == 2 && b == Complete)
    case ReportShipping(_, _) => a == ProductionComplete && b == Shipping
    case ConfirmDelivery(_, _) => (a == Shipping || a == ProductionComplete) && (b == Delivered || b == Complete)
    case RaiseDispute(_) => a != Complete && a != Cancelled && b == Disputed
    case ResolveDispute(_, percent) => a == Disputed && ((percent == 100.0 && b == Refunded) || (percent == 0.0 && b == Complete))
    case CancelOrder(_) => (a == Draft || a == PendingApproval) && b == Cancelled
    case _ => false
  }

  /** Where it takes the order if it goes through. */
  predicate Arrives(c: Call, a: OrderStatus, b: OrderStatus) {
    match c
    case ReportProgress(_, _) => a == InProduction == b
    case CompleteMilestone(_, index, _) => if index == 1 then b == ProductionComplete else if index == 2 then b == Complete else b == a
    case ConfirmDelivery(_, _) => (a == Shipping || a == ProductionComplete) && b == Complete
    case ResolveDispute(_, percent) => a == Disputed && b == if percent == 100.0 then Refunded else if percent == 0.0 then Complete else Disputed
    case _ => Moves(c, a, b)
  }

  /** The statuses before and after a call. */
  ghost predicate Moved(w: World, v: World, id: string, c: Call, done: bool) {
    && id in w.orders && id in v.orders
    && var a, b := w.orders[id].status, v.orders[id].status;
       && (a == b || Moves(c, a, b))
       && (done ==> Arrives(c, a, b))
  }

  lemma AdvanceMoves(w: World, id: string, from: set<OrderStatus>, next: OrderStatus, stops: seq<Stop>, now: nat)
    requires id in w.orders
    ensures var r := Advance(w, id, from, next, stops, now);
      && r.world.orders == (if w.orders[id].status in from then w.orders[id := w.orders[id].(status := next)] else w.orders)
      && (r.error == None ==> w.orders[id].status in from)
  {
    hide RecordAll;
    OrderTracking.RecordAllKeepsActors(Put(w, id, w.orders[id].(status := next)), w.orders[id].trackingIds, stops, now);
  }

  lemma CompletionMoves(w: World, id: string, index: int, now: nat)
    requires id in w.orders
    ensures var r := Completion(w, id, index, now);
      && id in r.world.orders && r.world.orders == w.orders[id := r.world.orders[id]]
      && var a, b := w.orders[id].status, r.world.orders[id].status;
         && (a == b || (index == 1 && b == ProductionComplete) || (index == 2 && b == Complete))
         && (r.error == None ==> if index == 1 then b == ProductionComplete else if index == 2 then b == Complete else b == a)
  {
    hide RecordAll, Escrows.Refusal, Escrows.After;
    if 0 <= index < |w.orders[id].milestones| && IsOpen(w.orders[id].milestones[index]) {
      var o, paid := OrdersModel.Marked(w.orders[id], index), MarkAndPay(w, id, index);
      OrderTracking.RecordAllKeepsActors(Put(paid.world, id, o.(status := ProductionComplete)), o.trackingIds,
                                         [Stop(Tracks.QUALITY_CONTROL_1, FACILITY)], now);
    }
  }

  lemma DeliveryMoves(w: World, id: string, now: nat)
    requires id in w.orders
    ensures Moved(w, Delivery(w, id, now).world, id, ConfirmDelivery(id, now), Delivery(w, id, now).error == None)
    ensures id in Delivery(w, id, now).world.orders
      && Delivery(w, id, now).world.orders == w.orders[id := Delivery(w, id, now).world.orders[id]]
  {
    var address := w.orders[id].shippingAddress;
    var stops := [Stop(Tracks.DELIVERY_CONFIRMED, address), Stop(Tracks.COMPLETED, address)];
    AdvanceMoves(w, id, {Shipping, ProductionComplete}, Delivered, stops, now);
    CompletionMoves(Advance(w, id, {Shipping, ProductionComplete}, Delivered, stops, now).world, id, 2, now);
    hide Advance, Completion;
  }

  /** The calls that move an order on and record checkpoints. */
  lemma AdvancesMove(w: World, c: Call, id: string)
    requires id in w.orders && Named(c).Some? && Named(c).value in w.orders
    requires c.SubmitOrder? || c.StartProduction? || c.ReportProgress? || c.ReportShipping? || c.CancelOrder?
    ensures id in Step(w, c).orders
    ensures Named(c) != Some(id) ==> Step(w, c).orders[id] == w.orders[id]
    ensures Named(c) == Some(id) ==> Moved(w, Step(w, c), id, c, Apply(w, c).error == None)
  {
    hide Advance, RecordAll;
    match c
    case SubmitOrder(i) => AdvanceMoves(w, i, {Draft}, PendingApproval, [], 0);
    case StartProduction(i, now) => AdvanceMoves(w, i, {Funded}, InProduction, [Stop(Tracks.PRODUCTION_START, FACILITY)], now);
    case ReportProgress(i, now) =>
      AdvanceMoves(w, i, {InProduction}, InProduction, [Stop(Tracks.MANUFACTURING_PROGRESS, FACILITY)], now);
    case ReportShipping(i, now) =>
      AdvanceMoves(w, i, {ProductionComplete}, Shipping, [Stop(Tracks.PACKAGING, FACILITY), Stop(Tracks.SHIPPING, DISTRIBUTION)], now);
    case CancelOrder(i) => AdvanceMoves(w, i, {Draft, PendingApproval}, Cancelled, [], 0);
  }

  /** Every call, in whatever state, leaves every order that it does not name as it is, and the status of the one it names
      as it is or one of these moves further; if it goes through, where it says. */
  lemma StatusMoves(w: World, c: Call, id: string)
    requires id in w.orders && (c.CreateOrder? ==> OrderId(w.counter + 1, c.now) != id)
    ensures id in Step(w, c).orders
    ensures Named(c) != Some(id) ==> Step(w, c).orders[id] == w.orders[id]
    ensures Named(c) == Some(id) ==> Moved(w, Step(w, c), id, c, Apply(w, c).error == None)
  {
    hide Advance, Completion, Delivery, RecordAll, Escrows.Refusal, Escrows.After, Escrows.Opened, LowerCase, OrderId, NewOrder;
    if Named(c).Some? && Named(c).value !in w.orders {
      Unknown(w, c);
    } else {
      match c
      case CompleteMilestone(i, index, now) => CompletionMoves(w, i, index, now);
      case ConfirmDelivery(i, now) => DeliveryMoves(w, i, now);
      case CreateOrder(_, _, _, _, _) =>
      case ApproveOrder(_, _) =>
      case FundOrder(_, _, _, _) =>
      case RaiseDispute(_) =>
      case ResolveDispute(_, _) =>
      case OnEscrow(_, _) =>
      case RegisterActor(_, _) =>
      case _ => AdvancesMove(w, c, id);
    }
  }

  /** A call on an unknown order changes nothing. */
  lemma Unknown(w: World, c: Call)
    requires Named(c).Some? && Named(c).value !in w.orders
    ensures Apply(w, c) == Outcome(w, Some(OrderNotFound))
  {}

  /** When the dispute of an order over an open escrow is resolved, order and escrow end alike: refunded if the buyer gets
      everything, complete if the manufacturer does, and otherwise both stay disputed. */
  lemma ResolutionSettlesBoth(w: World, id: string, buyerPercent: real)
    requires id in w.orders && w.orders[id].escrowId.Some? && Resolution(w, id, buyerPercent).error == None
    ensures var v, eid := Resolution(w, id, buyerPercent).world, w.orders[id].escrowId.value;
      && id in v.orders && eid in w.escrows && eid in v.escrows
      && var o, e, before := v.orders[id], v.escrows[eid], w.escrows[eid];
         && Escrows.Guard(before, Escrows.Resolve(buyerPercent)) == None
         && (o.status == Refunded <==> e.status == Escrows.Refunded) && (o.status == Complete <==> e.status == Escrows.Complete)
         && (o.status == Disputed <==> e.status == Escrows.Disputed)
         && (o.status == Refunded || o.status == Complete || o.status == Disputed)
         && var paid := Escrows.Pays(before, Escrows.Resolve(buyerPercent));
            && paid.Some? && paid.value.Split?
            && (o.status == Refunded ==> paid.value == Escrows.Split(Escrows.RemainingAmount(before), 0))
            && (o.status == Complete ==> paid.value == Escrows.Split(0, Escrows.RemainingAmount(before)))
  {
    hide Escrows.RemainingAmount, Escrows.IsWhole;
  }

  /** Disputing an order with an escrow disputes both. */
  lemma DisputeHitsBoth(w: World, id: string)
    requires id in w.orders && w.orders[id].escrowId.Some? && Disputing(w, id).error == None
    ensures var v, eid := Disputing(w, id).world, w.orders[id].escrowId.value;
      && id in v.orders && v.orders[id].status == Disputed && eid in v.escrows && v.escrows[eid].status == Escrows.Disputed
      && v == w.(orders := w.orders[id := w.orders[id].(status := Disputed)],
                 escrows := w.escrows[eid := w.escrows[eid].(status := Escrows.Disputed)])
  {}
}
