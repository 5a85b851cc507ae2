/** Manufacturing orders with the escrows and tracking records they drive, as one step function on values. A call that
    throws half-way leaves what it had already changed. */
module OrdersModel {
  import opened Wrappers
  import opened Text
  import Escrows = EscrowModel
  import Tracks = TrackingModel

  datatype OrderStatus =
    | Draft | PendingApproval | Approved | Funded | InProduction | ProductionComplete | Shipping
    | Delivered | Complete | Disputed | Cancelled | Refunded

  datatype MilestoneStatus = NotStarted | InProgress | Completed | InDispute

  datatype Milestone = Milestone(amount: int, status: MilestoneStatus)

  datatype Order = Order(
    manufacturer: string,
    shippingAddress: string,
    total: int,
    status: OrderStatus,
    escrowId: Option<string>,
    trackingIds: seq<string>,
    milestones: seq<Milestone>)

  /** actor is the account the tracking service signs with; actors says which accounts are verified. */
  datatype World = World(
    orders: map<string, Order>,
    escrows: map<string, Escrows.Escrow>,
    tracks: map<string, Tracks.Track>,
    counter: nat,
    actor: string,
    actors: map<string, bool>)

  datatype OrderError =
    | OrderNotFound | WrongStatus | NotTheManufacturer | MilestoneNotFound | MilestoneClosed
    | EscrowFailed(escrowError: Escrows.EscrowError)
    | TrackingFailed(trackingError: Tracks.TrackingError)

  datatype Outcome = Outcome(world: World, error: Option<OrderError>)

  /** The calls on orders, and those that other clients make on the services directly. */
  datatype Call =
    | CreateOrder(manufacturer: string, shippingAddress: string, quantity: int, unitPrice: int, now: nat)
    | SubmitOrder(id: string)
    | ApproveOrder(id: string, manufacturer: string)
    | FundOrder(id: string, escrowId: string, trackingId: string, now: nat)
    | StartProduction(id: string, now: nat)
    | ReportProgress(id: string, now: nat)
    | CompleteMilestone(id: string, index: int, now: nat)
    | ReportShipping(id: string, now: nat)
    | ConfirmDelivery(id: string, now: nat)
    | RaiseDispute(id: string)
    | ResolveDispute(id: string, buyerPercent: real)
    | CancelOrder(id: string)
    | OnEscrow(escrowId: string, call: Escrows.EscrowCall)
    | RegisterActor(address: string, verified: bool)

  /** A checkpoint as the orders ask for it. */
  datatype Stop = Stop(stage: Tracks.Stage, location: string)

  const FACILITY := "Manufacturing Facility"
  const DISTRIBUTION := "Distribution Center"

  /** No orders yet; the services may have been in use before. */
  ghost predicate Starts(w: World) {
    w.orders == map[]
  }

  function IsVerified(w: World): bool {
    w.actor in w.actors && w.actors[w.actor]
  }

  function Lower(c: char): char {
    if 'A' <= c <= 'Z' then c + ' ' else c
  }

  /** toLowerCase on the characters of addresses */
  function LowerCase(s: string): string {
    seq(|s|, i requires 0 <= i < |s| => Lower(s[i]))
  }

  const ORDER := "order-"

  function OrderId(counter: nat, now: nat): string {
    StampedId(ORDER, counter, now)
  }

  /** The milestone amounts of an order: 40, 40 and 20 percent, each cut down to a whole unit. */
  function Shares(total: int): (shares: seq<int>)
    ensures |shares| == 3
  {
    var start := Escrows.TruncatedDiv(total * 40, 100);
    [start, start, Escrows.TruncatedDiv(total * 20, 100)]
  }

  function NewOrder(manufacturer: string, shippingAddress: string, total: int): Order {
    var shares := Shares(total);
    Order(manufacturer, shippingAddress, total, Draft, None, [],
          [Milestone(shares[0], NotStarted), Milestone(shares[1], NotStarted), Milestone(shares[2], NotStarted)])
  }

  function Amounts(milestones: seq<Milestone>): (amounts: seq<int>)
    ensures |amounts| == |milestones|
  {
    seq(|milestones|, i requires 0 <= i < |milestones| => milestones[i].amount)
  }

  function Put(w: World, id: string, o: Order): World {
    w.(orders := w.orders[id := o])
  }

  function Fails(w: World, error: OrderError): Outcome {
    Outcome(w, Some(error))
  }

  function Succeeds(w: World): Outcome {
    Outcome(w, None)
  }

  function CallEscrow(w: World, escrowId: string, c: Escrows.EscrowCall): Outcome {
    var refusal := Escrows.Refusal(w.escrows, escrowId, c);
    if refusal.Some? then Fails(w, EscrowFailed(refusal.value))
    else Succeeds(w.(escrows := Escrows.After(w.escrows, escrowId, c)))
  }

  function RecordStop(w: World, trackingId: string, stop: Stop, now: nat): Outcome {
    var refusal := Tracks.Refusal(w.tracks, trackingId, stop.stage, IsVerified(w));
    if refusal.Some? then Fails(w, TrackingFailed(refusal.value))
    else
      var cp := Tracks.Checkpoint(stop.stage, stop.location, w.actor, now);
      Succeeds(w.(tracks := Tracks.After(w.tracks, trackingId, cp, true)))
  }

  /** Several checkpoints of one product; the first one refused ends the call. */
  function RecordStops(w: World, trackingId: string, stops: seq<Stop>, now: nat): Outcome
    decreases |stops|
  {
    if stops == [] then Succeeds(w) else
      var first := RecordStop(w, trackingId, stops[0], now);
      if first.error.Some? then first else RecordStops(first.world, trackingId, stops[1..], now)
  }

  /** The loop over the products of an order. */
  function RecordAll(w: World, trackingIds: seq<string>, stops: seq<Stop>, now: nat): Outcome
    decreases |trackingIds|
  {
    if trackingIds == [] then Succeeds(w) else
      var first := RecordStops(w, trackingIds[0], stops, now);
      if first.error.Some? then first else RecordAll(first.world, trackingIds[1..], stops, now)
  }

  /** A call that needs one status, sets another, and then records checkpoints. */
  function Advance(w: World, id: string, from: set<OrderStatus>, to: OrderStatus, stops: seq<Stop>, now: nat): Outcome {
    if id !in w.orders then Fails(w, OrderNotFound)
    else if w.orders[id].status !in from then Fails(w, WrongStatus)
    else RecordAll(Put(w, id, w.orders[id].(status := to)), w.orders[id].trackingIds, stops, now)
  }

  function Approval(w: World, id: string, manufacturer: string): Outcome {
    if id !in w.orders then Fails(w, OrderNotFound)
    else if w.orders[id].status != PendingApproval then Fails(w, WrongStatus)
    else if LowerCase(w.orders[id].manufacturer) != LowerCase(manufacturer) then Fails(w, NotTheManufacturer)
    else Succeeds(Put(w, id, w.orders[id].(status := Approved)))
  }

  function Funding(w: World, id: string, escrowId: string, trackingId: string, now: nat): Outcome {
    if id !in w.orders then Fails(w, OrderNotFound)
    else if w.orders[id].status != Approved then Fails(w, WrongStatus)
    else
      var o := w.orders[id];
      var escrow := Escrows.Opened(o.total, Amounts(o.milestones));
      if escrow.Err? then Fails(w, EscrowFailed(escrow.error))
      else Succeeds(Put(w, id, o.(escrowId := Some(escrowId), status := Funded, trackingIds := o.trackingIds + [trackingId]))
                    .(escrows := w.escrows[escrowId := escrow.value],
                      tracks := w.tracks[trackingId := Tracks.Initialized(o.manufacturer, now)]))
  }

  predicate IsOpen(m: Milestone) {
    m.status == NotStarted || m.status == InProgress
  }

  function Marked(o: Order, index: nat): Order
    requires index < |o.milestones|
  {
    o.(milestones := o.milestones[index := o.milestones[index].(status := Completed)])
  }

  function PayMilestone(w: World, o: Order, index: int): Outcome {
    if o.escrowId.None? then Succeeds(w) else CallEscrow(w, o.escrowId.value, Escrows.Release(index))
  }

  /** The world after a milestone has been marked and the escrow asked. */
  function MarkAndPay(w: World, id: string, index: nat): Outcome
    requires id in w.orders && index < |w.orders[id].milestones|
  {
    var o := Marked(w.orders[id], index);
    PayMilestone(Put(w, id, o), o, index)
  }

  /** Marks the milestone, then asks the escrow to pay, then moves the order on. */
  function Completion(w: World, id: string, index: int, now: nat): Outcome {
    if id !in w.orders then Fails(w, OrderNotFound)
    else if index < 0 || index >= |w.orders[id].milestones| then Fails(w, MilestoneNotFound)
    else if !IsOpen(w.orders[id].milestones[index]) then Fails(w, MilestoneClosed)
    else
      var o, paid := Marked(w.orders[id], index), MarkAndPay(w, id, index);
      if paid.error.Some? then paid
      else if index == 1 then
        RecordAll(Put(paid.world, id, o.(status := ProductionComplete)), o.trackingIds, [Stop(Tracks.QUALITY_CONTROL_1, FACILITY)], now)
      else if index == 2 then Succeeds(Put(paid.world, id, o.(status := Complete)))
      else paid
  }

  function Delivery(w: World, id: string, now: nat): Outcome {
    if id !in w.orders then Fails(w, OrderNotFound)
    else
      var address := w.orders[id].shippingAddress;
      var delivered := Advance(w, id, {Shipping, ProductionComplete}, Delivered,
                               [Stop(Tracks.DELIVERY_CONFIRMED, address), Stop(Tracks.COMPLETED, address)], now);
      if delivered.error.Some? then delivered else Completion(delivered.world, id, 2, now)
  }

  /** The order is disputed first; the escrow may then refuse. */
  function Disputing(w: World, id: string): Outcome {
    if id !in w.orders then Fails(w, OrderNotFound)
    else if w.orders[id].status == Complete || w.orders[id].status == Cancelled then Fails(w, WrongStatus)
    else
      var o := w.orders[id].(status := Disputed);
      if o.escrowId.None? then Succeeds(Put(w, id, o)) else CallEscrow(Put(w, id, o), o.escrowId.value, Escrows.Dispute)
  }

  function Resolved(o: Order, buyerPercent: real): Order {
    if buyerPercent == 100.0 then o.(status := Refunded)
    else if buyerPercent == 0.0 then o.(status := Complete)
    else o
  }

  function Resolution(w: World, id: string, buyerPercent: real): Outcome {
    if id !in w.orders then Fails(w, OrderNotFound)
    else if w.orders[id].status != Disputed then Fails(w, WrongStatus)
    else
      var o := w.orders[id];
      var settled := if o.escrowId.None? then Succeeds(w) else CallEscrow(w, o.escrowId.value, Escrows.Resolve(buyerPercent));
      if settled.error.Some? then settled else Succeeds(Put(settled.world, id, Resolved(o, buyerPercent)))
  }

  function Apply(w: World, c: Call): Outcome {
    match c
    case CreateOrder(manufacturer, shippingAddress, quantity, unitPrice, now) =>
      Succeeds(Put(w, OrderId(w.counter + 1, now), NewOrder(manufacturer, shippingAddress, unitPrice * quantity))
               .(counter := w.counter + 1))
    case SubmitOrder(id) => Advance(w, id, {Draft}, PendingApproval, [], 0)
    case ApproveOrder(id, manufacturer) => Approval(w, id, manufacturer)
    case FundOrder(id, escrowId, trackingId, now) => Funding(w, id, escrowId, trackingId, now)
    case StartProduction(id, now) => Advance(w, id, {Funded}, InProduction, [Stop(Tracks.PRODUCTION_START, FACILITY)], now)
    case ReportProgress(id, now) =>
      Advance(w, id, {InProduction}, InProduction, [Stop(Tracks.MANUFACTURING_PROGRESS, FACILITY)], now)
    case CompleteMilestone(id, index, now) => Completion(w, id, index, now)
    case ReportShipping(id, now) =>
      Advance(w, id, {ProductionComplete}, Shipping,
              [Stop(Tracks.PACKAGING, FACILITY), Stop(Tracks.SHIPPING, DISTRIBUTION)], now)
    case ConfirmDelivery(id, now) => Delivery(w, id, now)
    case RaiseDispute(id) => Disputing(w, id)
    case ResolveDispute(id, buyerPercent) => Resolution(w, id, buyerPercent)
    case CancelOrder(id) => Advance(w, id, {Draft, PendingApproval}, Cancelled, [], 0)
    case OnEscrow(escrowId, call) => CallEscrow(w, escrowId, call)
    case RegisterActor(address, verified) => Succeeds(w.(actors := w.actors[address := verified]))
  }

  function Step(w: World, c: Call): World {
    Apply(w, c).world
  }

  function Run(w: World, calls: seq<Call>): World {
    if calls == [] then w else Step(Run(w, calls[..|calls| - 1]), calls[|calls| - 1])
  }

  /** The ids a funding draws are new. */
  ghost predicate DrawsFresh(w: World, c: Call) {
    c.FundOrder? ==> c.escrowId !in w.escrows && c.trackingId !in w.tracks
  }

  ghost predicate DrawsFreshIds(w: World, calls: seq<Call>) {
    forall k :: 0 <= k < |calls| ==> DrawsFresh(Run(w, calls[..k]), calls[k])
  }

  /** The worlds that some run of calls leads to. */
  ghost predicate Reachable(w: World) {
    exists start, calls :: Starts(start) && DrawsFreshIds(start, calls) && Run(start, calls) == w
  }

  lemma StartReachable(w: World)
    requires Starts(w)
    ensures Reachable(w)
  {
    assert DrawsFreshIds(w, []) && Run(w, []) == w;
  }

  lemma DrawsFreshMore(w: World, calls: seq<Call>, c: Call)
    requires DrawsFreshIds(w, calls) && DrawsFresh(Run(w, calls), c)
    ensures DrawsFreshIds(w, calls + [c])
  {
    hide Run, DrawsFresh;
    var longer := calls + [c];
    assert longer[..|calls|] == calls;
    forall k | 0 <= k < |longer| ensures DrawsFresh(Run(w, longer[..k]), longer[k]) {
      if k < |calls| {
        assert longer[..k] == calls[..k];
      }
    }
  }

  lemma StepReachable(w: World, c: Call)
    requires Reachable(w) && DrawsFresh(w, c)
    ensures Reachable(Step(w, c))
  {
    var start, calls :| Starts(start) && DrawsFreshIds(start, calls) && Run(start, calls) == w;
    DrawsFreshMore(start, calls, c);
    assert (calls + [c])[..|calls|] == calls;
    hide Apply, DrawsFresh;
    assert Run(start, calls + [c]) == Step(w, c);
  }

  /** Milestones released by calls on the escrow service itself: escrow and index. */
  type Releases = set<(string, int)>

  /** The release a call makes without going through an order. */
  function DirectRelease(w: World, c: Call): Releases {
    if c.OnEscrow? && c.call.Release? && Escrows.Refusal(w.escrows, c.escrowId, c.call) == None then {(c.escrowId, c.call.index)} else {}
  }

  function DirectReleases(w: World, calls: seq<Call>): Releases {
    if calls == [] then {} else
      var before := calls[..|calls| - 1];
      DirectReleases(w, before) + DirectRelease(Run(w, before), calls[|calls| - 1])
  }
}
