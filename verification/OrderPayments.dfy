/** Orders and escrows fit together: what an escrow has released is marked in its order, and what was marked too early is
    never released. */
module OrderPayments {
  import opened Wrappers
  import opened Text
  import Escrows = EscrowModel
  import opened OrdersModel
  import Tracks = TrackingModel
  import OrderTracking

  lemma SharesOf(total: int)
    ensures Escrows.Total(Shares(total)) == 2 * Escrows.TruncatedDiv(total * 40, 100) + Escrows.TruncatedDiv(total * 20, 100)
  {
    var s := Shares(total);
    assert s[..2] == [s[0], s[1]] && [s[0], s[1]][..1] == [s[0]] && [s[0]][..0] == [];
    assert Escrows.Total([s[0]]) == s[0];
    assert Escrows.Total([s[0], s[1]]) == s[0] + s[1];
  }

  /** The shares of a non-negative amount in terms of its fifths. */
  lemma SharesByFifths(a: nat, q: nat, r: nat)
    requires a == 5 * q + r && r < 5
    ensures a * 40 / 100 == 2 * q + 2 * r / 5
    ensures a * 20 / 100 == q
  {
    assert a * 40 == 100 * (2 * q) + 40 * r;
    assert a * 20 == 100 * q + 20 * r;
  }

  /** Of a non-negative amount the shares leave over what the remainder by five does, at most two units. */
  lemma SharesOfAmount(a: nat)
    ensures var rest := a - (2 * (a * 40 / 100) + a * 20 / 100);
      0 <= rest <= 2 && (rest == 0 <==> a % 5 == 0)
  {
    SharesByFifths(a, a / 5, a % 5);
  }

  /** The shares of an order that costs something are not negative and leave at most two units over. */
  lemma SharesLeaveAtMostTwo(total: int)
    requires 0 <= total
    ensures forall i :: 0 <= i < 3 ==> 0 <= Shares(total)[i]
    ensures 0 <= total - Escrows.Total(Shares(total)) <= 2
  {
    SharesOf(total);
    hide Escrows.Total;
    SharesOfAmount(total);
  }

  /** They exceed the total, and funding fails, exactly for a negative total that is no multiple of five. */
  lemma SharesExceedIff(total: int)
    ensures Escrows.Total(Shares(total)) > total <==> total < 0 && total % 5 != 0
  {
    SharesOf(total);
    hide Escrows.Total, Shares;
    if 0 <= total {
      SharesOfAmount(total);
    } else {
      SharesOfAmount(-total);
      Negated(total);
    }
  }

  lemma Negated(total: int)
    ensures -(total * 40) == -total * 40 && -(total * 20) == -total * 20
    ensures -total % 5 == 0 <==> total % 5 == 0
  {}

  /** The escrow of an order: its terms are those of the order, and what it has released is marked as completed there
      or has been released directly. */
  ghost predicate EscrowFits(direct: Releases, eid: string, o: Order, e: Escrows.Escrow)
    requires |o.milestones| == 3
  {
    && e.amounts == Shares(o.total) && e.total == o.total && e.completed <= 3
    && forall k :: 0 <= k < e.completed ==> o.milestones[k].status == Completed || (eid, k) in direct
  }

  ghost predicate Backed(direct: Releases, escrows: map<string, Escrows.Escrow>, o: Order) {
    && |o.milestones| == 3
    && Amounts(o.milestones) == Shares(o.total)
    && (OrderTracking.Unfunded(o.status) ==> o.escrowId.None?)
    && (o.escrowId.Some? ==> o.escrowId.value in escrows && EscrowFits(direct, o.escrowId.value, o, escrows[o.escrowId.value]))
  }

  ghost predicate SameEscrow(a: Order, b: Order) {
    a.escrowId.Some? && a.escrowId == b.escrowId
  }

  ghost predicate Sound(direct: Releases, w: World) {
    && (forall id :: id in w.orders ==> Backed(direct, w.escrows, w.orders[id]) && FromCounter(ORDER, id, w.counter))
    && (forall i, j :: i in w.orders && j in w.orders && i != j ==> !SameEscrow(w.orders[i], w.orders[j]))
  }

  /** Milestone k of the order is marked as completed, but it has not been paid through the order. */
  ghost predicate Unpaid(direct: Releases, w: World, id: string, k: nat) {
    && id in w.orders && k < |w.orders[id].milestones|
    && w.orders[id].milestones[k].status == Completed
    && (w.orders[id].escrowId.Some? ==>
          w.orders[id].escrowId.value in w.escrows
          && (w.escrows[w.orders[id].escrowId.value].completed <= k || (w.orders[id].escrowId.value, k) in direct))
  }

  /** v is sound, and no milestone left unpaid in w has been paid since. */
  ghost predicate Follows(direct: Releases, w: World, v: World) {
    Sound(direct, v) && forall id, k: nat :: Unpaid(direct, w, id, k) ==> Unpaid(direct, v, id, k)
  }

  lemma SoundOf(direct: Releases, w: World, id: string)
    requires Sound(direct, w) && id in w.orders
    ensures Backed(direct, w.escrows, w.orders[id]) && FromCounter(ORDER, id, w.counter)
  {}

  lemma Apart(direct: Releases, w: World, i: string, j: string)
    requires Sound(direct, w) && i in w.orders && j in w.orders && i != j
    ensures !SameEscrow(w.orders[i], w.orders[j])
  {}

  /** An escrow of no or of one order has moved on without a release. */
  ghost predicate SameReleases(escrows: map<string, Escrows.Escrow>, later: map<string, Escrows.Escrow>) {
    forall k :: k in escrows ==> k in later && later[k] == escrows[k].(status := later[k].status)
  }

  lemma OtherCallsReleaseNothing(escrows: map<string, Escrows.Escrow>, escrowId: string, c: Escrows.EscrowCall)
    requires !c.Release?
    ensures SameReleases(escrows, Escrows.After(escrows, escrowId, c))
  {}

  lemma StillBacked(direct: Releases, escrows: map<string, Escrows.Escrow>, later: map<string, Escrows.Escrow>, o: Order)
    requires Backed(direct, escrows, o) && SameReleases(escrows, later)
    ensures Backed(direct, later, o)
  {
    hide Shares;
  }

  lemma EscrowsFollow(direct: Releases, w: World, v: World)
    requires Sound(direct, w) && v.orders == w.orders && v.counter == w.counter && SameReleases(w.escrows, v.escrows)
    ensures Follows(direct, w, v)
  {
    hide Backed, FromCounter, SameEscrow;
    forall id | id in v.orders ensures Backed(direct, v.escrows, v.orders[id]) {
      StillBacked(direct, w.escrows, v.escrows, w.orders[id]);
    }
    forall id, k: nat | Unpaid(direct, w, id, k) ensures Unpaid(direct, v, id, k) {}
  }

  /** An order changes its status, tracking ids or both. */
  lemma StatusFollows(direct: Releases, w: World, v: World, id: string)
    requires Sound(direct, w) && id in w.orders && id in v.orders && v.orders == w.orders[id := v.orders[id]]
    requires v.escrows == w.escrows && v.counter == w.counter
    requires v.orders[id] == w.orders[id].(status := v.orders[id].status)
    requires OrderTracking.Unfunded(v.orders[id].status) ==> OrderTracking.Unfunded(w.orders[id].status)
    ensures Follows(direct, w, v)
  {
    hide FromCounter, Shares, Amounts;
    forall k | k in v.orders ensures Backed(direct, v.escrows, v.orders[k]) && FromCounter(ORDER, k, v.counter) {
      SoundOf(direct, w, k);
    }
    forall i, j | i in v.orders && j in v.orders && i != j ensures !SameEscrow(v.orders[i], v.orders[j]) {
      Apart(direct, w, i, j);
    }
  }

  ghost predicate HasOpenMilestone(w: World, id: string, index: int) {
    id in w.orders && 0 <= index < |w.orders[id].milestones| && IsOpen(w.orders[id].milestones[index])
  }

  /** What marking a milestone and asking the escrow does: the payment comes exactly if it is the next one, and otherwise
      the escrow wants earlier ones first. */
  lemma MarkAndPayDoes(direct: Releases, w: World, id: string, index: nat)
    requires Sound(direct, w) && HasOpenMilestone(w, id, index)
    ensures var r, o := MarkAndPay(w, id, index), w.orders[id];
      && r.world.orders == w.orders[id := Marked(o, index)] && r.world.counter == w.counter
      && if o.escrowId.None? then r.error.None? && r.world.escrows == w.escrows
         else
           var eid, e := o.escrowId.value, w.escrows[o.escrowId.value];
           && (index == e.completed ==>
                 && r.error.None? && eid in r.world.escrows
                 && r.world.escrows == w.escrows[eid := e.(completed := index + 1, status := r.world.escrows[eid].status)])
           && (index != e.completed ==> r.world.escrows == w.escrows)
           && (index < e.completed ==> r.error == Some(EscrowFailed(Escrows.AlreadyReleased)) && (eid, index) in direct)
           && (e.completed < index ==> r.error == Some(EscrowFailed(Escrows.PreviousFirst)))
  {
    hide Sound, Shares, Escrows.StatusAfterRelease;
    SoundOf(direct, w, id);
  }

  lemma MarkKeepsBacked(direct: Releases, w: World, id: string, index: nat)
    requires Sound(direct, w) && HasOpenMilestone(w, id, index)
    ensures var v := MarkAndPay(w, id, index).world; Backed(direct, v.escrows, v.orders[id])
  {
    hide Sound, Shares, MarkAndPay;
    SoundOf(direct, w, id);
    MarkAndPayDoes(direct, w, id, index);
    var o := w.orders[id];
    assert Amounts(Marked(o, index).milestones) == Amounts(o.milestones);
  }

  lemma OtherEscrowsStay(direct: Releases, w: World, id: string, index: nat, k: string)
    requires Sound(direct, w) && HasOpenMilestone(w, id, index) && k in w.orders && k != id
    ensures var v := MarkAndPay(w, id, index).world;
      && k in v.orders && v.orders[k] == w.orders[k] && Backed(direct, v.escrows, w.orders[k])
      && (w.orders[k].escrowId.Some? ==> v.escrows[w.orders[k].escrowId.value] == w.escrows[w.orders[k].escrowId.value])
  {
    hide Sound, Shares, Amounts, MarkAndPay;
    SoundOf(direct, w, k);
    SoundOf(direct, w, id);
    Apart(direct, w, id, k);
    MarkAndPayDoes(direct, w, id, index);
  }

  lemma MarkingFollows(direct: Releases, w: World, id: string, index: nat)
    requires Sound(direct, w) && HasOpenMilestone(w, id, index)
    ensures Follows(direct, w, MarkAndPay(w, id, index).world)
  {
    hide Sound, Shares, Amounts, MarkAndPay, Backed, FromCounter, SameEscrow;
    var v := MarkAndPay(w, id, index).world;
    MarkAndPayDoes(direct, w, id, index);
    SoundOf(direct, w, id);
    forall k | k in v.orders ensures Backed(direct, v.escrows, v.orders[k]) && FromCounter(ORDER, k, v.counter) {
      SoundOf(direct, w, k);
      if k == id {
        MarkKeepsBacked(direct, w, id, index);
      } else {
        OtherEscrowsStay(direct, w, id, index, k);
      }
    }
    forall i, j | i in v.orders && j in v.orders && i != j ensures !SameEscrow(v.orders[i], v.orders[j]) {
      Apart(direct, w, i, j);
      SameEscrowByIds(w.orders[i], w.orders[j], v.orders[i], v.orders[j]);
    }
    assert Sound(direct, v) by {
      SoundIf(direct, v);
    }
    forall k, m: nat | Unpaid(direct, w, k, m) ensures Unpaid(direct, v, k, m) {
      MarkingLeavesUnpaid(direct, w, id, index, k, m);
    }
  }

  lemma SoundIf(direct: Releases, v: World)
    requires forall id :: id in v.orders ==> Backed(direct, v.escrows, v.orders[id]) && FromCounter(ORDER, id, v.counter)
    requires forall i, j :: i in v.orders && j in v.orders && i != j ==> !SameEscrow(v.orders[i], v.orders[j])
    ensures Sound(direct, v)
  {}

  lemma SameEscrowByIds(a: Order, b: Order, c: Order, d: Order)
    requires a.escrowId == c.escrowId && b.escrowId == d.escrowId
    ensures SameEscrow(a, b) == SameEscrow(c, d)
  {}

  lemma MarkingLeavesUnpaid(direct: Releases, w: World, id: string, index: nat, k: string, m: nat)
    requires Sound(direct, w) && HasOpenMilestone(w, id, index) && Unpaid(direct, w, k, m)
    ensures Unpaid(direct, MarkAndPay(w, id, index).world, k, m)
  {
    hide Sound, Shares, Amounts, MarkAndPay;
    MarkAndPayDoes(direct, w, id, index);
    SoundOf(direct, w, id);
    if k != id {
      OtherEscrowsStay(direct, w, id, index, k);
    }
  }

  lemma FundingFollows(direct: Releases, w: World, id: string, escrowId: string, trackingId: string, now: nat)
    requires Sound(direct, w) && escrowId !in w.escrows
    ensures Follows(direct, w, Funding(w, id, escrowId, trackingId, now).world)
  {
    hide Sound, Shares, FromCounter, Escrows.Total;
    var v := Funding(w, id, escrowId, trackingId, now).world;
    if v != w {
      forall k | k in v.orders ensures Backed(direct, v.escrows, v.orders[k]) && FromCounter(ORDER, k, v.counter) {
        SoundOf(direct, w, k);
      }
      forall i, j | i in v.orders && j in v.orders && i != j ensures !SameEscrow(v.orders[i], v.orders[j]) {
        SoundOf(direct, w, i);
        SoundOf(direct, w, j);
        Apart(direct, w, i, j);
      }
      SoundIf(direct, v);
    }
  }

  lemma CreationFollows(direct: Releases, w: World, now: nat, manufacturer: string, shippingAddress: string, total: int)
    requires Sound(direct, w)
    ensures Follows(direct, w, Put(w, OrderId(w.counter + 1, now), NewOrder(manufacturer, shippingAddress, total)).(counter := w.counter + 1))
  {
    hide Sound, Shares, StampedId, Amounts, Backed;
    var id := OrderId(w.counter + 1, now);
    var v := Put(w, id, NewOrder(manufacturer, shippingAddress, total)).(counter := w.counter + 1);
    assert FromCounter(ORDER, id, v.counter);
    hide FromCounter;
    forall k | k in v.orders ensures Backed(direct, v.escrows, v.orders[k]) && FromCounter(ORDER, k, v.counter) {
      if k == id {
        NewOrderIsBacked(direct, v.escrows, manufacturer, shippingAddress, total);
      } else {
        SoundOf(direct, w, k);
        CounterGrows(ORDER, k, w.counter);
      }
    }
    forall i, j | i in v.orders && j in v.orders && i != j ensures !SameEscrow(v.orders[i], v.orders[j]) {
      if i != id && j != id {
        Apart(direct, w, i, j);
      }
    }
    SoundIf(direct, v);
    forall k, m: nat | Unpaid(direct, w, k, m) ensures Unpaid(direct, v, k, m) {
      SoundOf(direct, w, k);
      NextIdIsNew(ORDER, k, w.counter, now);
    }
  }

  lemma NewOrderIsBacked(direct: Releases, escrows: map<string, Escrows.Escrow>, manufacturer: string, shippingAddress: string, total: int)
    ensures Backed(direct, escrows, NewOrder(manufacturer, shippingAddress, total))
  {
    hide Escrows.TruncatedDiv;
  }

  lemma FollowsTrans(direct: Releases, w: World, v: World, u: World)
    requires Follows(direct, w, v) && Follows(direct, v, u)
    ensures Follows(direct, w, u)
  {
    hide Sound, Unpaid;
  }

  lemma FollowsSelf(direct: Releases, w: World)
    requires Sound(direct, w)
    ensures Follows(direct, w, w)
  {}

  lemma AdvanceFollows(direct: Releases, w: World, id: string, from: set<OrderStatus>, to: OrderStatus, stops: seq<Stop>, now: nat)
    requires Sound(direct, w)
    requires OrderTracking.Unfunded(to) ==> forall s :: s in from ==> OrderTracking.Unfunded(s)
    ensures Follows(direct, w, Advance(w, id, from, to, stops, now).world)
  {
    hide Sound, Follows, RecordAll;
    if id in w.orders && w.orders[id].status in from {
      var moved := Put(w, id, w.orders[id].(status := to));
      OrderTracking.RecordAllKeepsActors(moved, w.orders[id].trackingIds, stops, now);
      StatusFollows(direct, w, RecordAll(moved, w.orders[id].trackingIds, stops, now).world, id);
    } else {
      FollowsSelf(direct, w);
    }
  }

  lemma ApprovalFollows(direct: Releases, w: World, id: string, manufacturer: string)
    requires Sound(direct, w)
    ensures Follows(direct, w, Approval(w, id, manufacturer).world)
  {
    hide Sound, Follows;
    if Approval(w, id, manufacturer).error.None? {
      StatusFollows(direct, w, Approval(w, id, manufacturer).world, id);
    } else {
      FollowsSelf(direct, w);
    }
  }

  /** After the milestone is paid, the order moves on and checkpoints may be recorded. */
  lemma MovingOnFollows(direct: Releases, w: World, id: string, status: OrderStatus, stops: seq<Stop>, now: nat)
    requires Sound(direct, w) && id in w.orders && !OrderTracking.Unfunded(status)
    ensures Follows(direct, w, RecordAll(Put(w, id, w.orders[id].(status := status)), w.orders[id].trackingIds, stops, now).world)
  {
    hide Sound, Follows, RecordAll;
    var moved := Put(w, id, w.orders[id].(status := status));
    OrderTracking.RecordAllKeepsActors(moved, w.orders[id].trackingIds, stops, now);
    StatusFollows(direct, w, RecordAll(moved, w.orders[id].trackingIds, stops, now).world, id);
  }

  lemma CompletionFollows(direct: Releases, w: World, id: string, index: int, now: nat)
    requires Sound(direct, w)
    ensures Follows(direct, w, Completion(w, id, index, now).world)
  {
    hide Sound, RecordAll, MarkAndPay, Unpaid;
    if !HasOpenMilestone(w, id, index) {
      FollowsSelf(direct, w);
    } else {
      MarkingFollows(direct, w, id, index);
      MarkAndPayDoes(direct, w, id, index);
      var paid := MarkAndPay(w, id, index);
      if paid.error.None? && index == 1 {
        MovingOnFollows(direct, paid.world, id, ProductionComplete, [Stop(Tracks.QUALITY_CONTROL_1, FACILITY)], now);
        FollowsTrans(direct, w, paid.world, Completion(w, id, index, now).world);
      } else if paid.error.None? && index == 2 {
        StatusFollows(direct, paid.world, Completion(w, id, index, now).world, id);
        FollowsTrans(direct, w, paid.world, Completion(w, id, index, now).world);
      }
    }
  }

  lemma DeliveryFollows(direct: Releases, w: World, id: string, now: nat)
    requires Sound(direct, w)
    ensures Follows(direct, w, Delivery(w, id, now).world)
  {
    hide Sound, Advance, Completion, Unpaid;
    if id !in w.orders {
      FollowsSelf(direct, w);
    } else {
      var address := w.orders[id].shippingAddress;
      var stops := [Stop(Tracks.DELIVERY_CONFIRMED, address), Stop(Tracks.COMPLETED, address)];
      AdvanceFollows(direct, w, id, {Shipping, ProductionComplete}, Delivered, stops, now);
      var delivered := Advance(w, id, {Shipping, ProductionComplete}, Delivered, stops, now).world;
      CompletionFollows(direct, delivered, id, 2, now);
      FollowsTrans(direct, w, delivered, Completion(delivered, id, 2, now).world);
    }
  }

  lemma EscrowCallFollows(direct: Releases, w: World, escrowId: string, c: Escrows.EscrowCall)
    requires Sound(direct, w) && !c.Release?
    ensures Follows(direct, w, CallEscrow(w, escrowId, c).world)
  {
    hide Sound, Follows;
    OtherCallsReleaseNothing(w.escrows, escrowId, c);
    EscrowsFollow(direct, w, CallEscrow(w, escrowId, c).world);
  }

  /** More direct releases make nothing unsound. */
  lemma SoundWithMore(less: Releases, direct: Releases, w: World)
    requires Sound(less, w) && less <= direct
    ensures Sound(direct, w)
    ensures forall id, k: nat :: Unpaid(less, w, id, k) ==> Unpaid(direct, w, id, k)
  {
    hide FromCounter, Shares, Amounts, SameEscrow;
  }

  /** What a direct release of a known milestone does to the escrows. */
  lemma DirectReleaseDoes(w: World, escrowId: string, index: int)
    ensures var r := CallEscrow(w, escrowId, Escrows.Release(index));
      && r.world == w.(escrows := r.world.escrows) && (r.error.Some? ==> r.world == w)
      && (r.error.None? ==>
            && escrowId in w.escrows && index == w.escrows[escrowId].completed < |w.escrows[escrowId].amounts|
            && escrowId in r.world.escrows
            && r.world.escrows
               == w.escrows[escrowId := w.escrows[escrowId].(completed := index + 1, status := r.world.escrows[escrowId].status)])
  {
    hide Escrows.StatusAfterRelease;
  }

  lemma DirectReleaseFollows(direct: Releases, w: World, escrowId: string, index: int)
    requires Sound(direct, w) && DirectRelease(w, OnEscrow(escrowId, Escrows.Release(index))) <= direct
    ensures Follows(direct, w, CallEscrow(w, escrowId, Escrows.Release(index)).world)
  {
    hide FromCounter, Shares, Amounts, SameEscrow, CallEscrow;
    DirectReleaseDoes(w, escrowId, index);
    if CallEscrow(w, escrowId, Escrows.Release(index)).error.None? {
      DirectIsRecorded(w, escrowId, index);
    }
    var v := CallEscrow(w, escrowId, Escrows.Release(index)).world;
    forall k | k in v.orders ensures Backed(direct, v.escrows, v.orders[k]) {
      SoundOf(direct, w, k);
    }
  }

  lemma DirectIsRecorded(w: World, escrowId: string, index: int)
    requires CallEscrow(w, escrowId, Escrows.Release(index)).error.None?
    ensures (escrowId, index) in DirectRelease(w, OnEscrow(escrowId, Escrows.Release(index)))
  {}

  lemma DisputingFollows(direct: Releases, w: World, id: string)
    requires Sound(direct, w)
    ensures Follows(direct, w, Disputing(w, id).world)
  {
    hide Sound, Unpaid, CallEscrow;
    if id in w.orders && w.orders[id].status != Complete && w.orders[id].status != Cancelled {
      var disputed := Put(w, id, w.orders[id].(status := Disputed));
      StatusFollows(direct, w, disputed, id);
      if w.orders[id].escrowId.Some? {
        EscrowCallFollows(direct, disputed, w.orders[id].escrowId.value, Escrows.Dispute);
        FollowsTrans(direct, w, disputed, Disputing(w, id).world);
      }
    } else {
      FollowsSelf(direct, w);
    }
  }

  lemma ResolutionFollows(direct: Releases, w: World, id: string, buyerPercent: real)
    requires Sound(direct, w)
    ensures Follows(direct, w, Resolution(w, id, buyerPercent).world)
  {
    hide Sound, Unpaid;
    FollowsSelf(direct, w);
    if id in w.orders && w.orders[id].status == Disputed {
      var o := w.orders[id];
      var settled := if o.escrowId.None? then Succeeds(w) else CallEscrow(w, o.escrowId.value, Escrows.Resolve(buyerPercent));
      if o.escrowId.Some? {
        EscrowCallFollows(direct, w, o.escrowId.value, Escrows.Resolve(buyerPercent));
      }
      if settled.error.None? {
        hide CallEscrow;
        StatusFollows(direct, settled.world, Resolution(w, id, buyerPercent).world, id);
        FollowsTrans(direct, w, settled.world, Resolution(w, id, buyerPercent).world);
      }
    }
  }

  lemma CallFollows(direct: Releases, w: World, c: Call)
    requires Sound(direct, w) && DrawsFresh(w, c) && DirectRelease(w, c) <= direct
    ensures Follows(direct, w, Step(w, c))
  {
    hide Sound, Follows, Advance, Approval, Funding, Completion, Delivery, Disputing, Resolution, NewOrder, CallEscrow;
    match c
    case CreateOrder(manufacturer, shippingAddress, quantity, unitPrice, now) =>
      CreationFollows(direct, w, now, manufacturer, shippingAddress, unitPrice * quantity);
    case SubmitOrder(id) => AdvanceFollows(direct, w, id, {Draft}, PendingApproval, [], 0);
    case ApproveOrder(id, manufacturer) => ApprovalFollows(direct, w, id, manufacturer);
    case FundOrder(id, escrowId, trackingId, now) => FundingFollows(direct, w, id, escrowId, trackingId, now);
    case StartProduction(id, now) =>
      AdvanceFollows(direct, w, id, {Funded}, InProduction, [Stop(Tracks.PRODUCTION_START, FACILITY)], now);
    case ReportProgress(id, now) =>
      AdvanceFollows(direct, w, id, {InProduction}, InProduction, [Stop(Tracks.MANUFACTURING_PROGRESS, FACILITY)], now);
    case CompleteMilestone(id, index, now) => CompletionFollows(direct, w, id, index, now);
    case ReportShipping(id, now) =>
      AdvanceFollows(direct, w, id, {ProductionComplete}, Shipping,
                     [Stop(Tracks.PACKAGING, FACILITY), Stop(Tracks.SHIPPING, DISTRIBUTION)], now);
    case ConfirmDelivery(id, now) => DeliveryFollows(direct, w, id, now);
    case RaiseDispute(id) => DisputingFollows(direct, w, id);
    case ResolveDispute(id, buyerPercent) => ResolutionFollows(direct, w, id, buyerPercent);
    case CancelOrder(id) => AdvanceFollows(direct, w, id, {Draft, PendingApproval}, Cancelled, [], 0);
    case OnEscrow(escrowId, call) =>
      if call.Release? {
        DirectReleaseFollows(direct, w, escrowId, call.index);
      } else {
        EscrowCallFollows(direct, w, escrowId, call);
      }
    case RegisterActor(address, verified) => EscrowsFollow(direct, w, Step(w, c));
  }

  lemma InitiallySound(direct: Releases, start: World)
    requires Starts(start)
    ensures Sound(direct, start)
  {}

  /** What a run keeps: soundness, with its direct releases added to those before, and unpaid milestones. */
  ghost predicate Keeps(less: Releases, w: World, direct: Releases, v: World) {
    Sound(direct, v) && forall id, k: nat :: Unpaid(less, w, id, k) ==> Unpaid(direct, v, id, k)
  }

  lemma KeepsOneMore(less: Releases, w: World, direct: Releases, v: World, more: Releases, u: World)
    requires Keeps(less, w, direct, v) && direct <= more && Follows(more, v, u)
    ensures Keeps(less, w, more, u)
  {
    SoundWithMore(direct, more, v);
    hide Sound, Unpaid;
  }

  lemma {:induction false} RunFollows(direct: Releases, w: World, calls: seq<Call>)
    requires Sound(direct, w) && DrawsFreshIds(w, calls)
    ensures Keeps(direct, w, direct + DirectReleases(w, calls), Run(w, calls))
  {
    hide Sound, Unpaid, Step, DirectRelease;
    if calls == [] {
      assert direct + {} == direct;
    } else {
      var before, c := calls[..|calls| - 1], calls[|calls| - 1];
      var v, less, more := Run(w, before), direct + DirectReleases(w, before), direct + DirectReleases(w, calls);
      OrderTracking.DrawsFreshBefore(w, calls);
      RunFollows(direct, w, before);
      SoundWithMore(less, more, v);
      CallFollows(more, v, c);
      KeepsOneMore(direct, w, less, v, more, Run(w, calls));
    }
  }

  /** Every run from the start. */
  lemma {:induction false} ReachableSound(start: World, calls: seq<Call>)
    requires Starts(start) && DrawsFreshIds(start, calls)
    ensures Sound(DirectReleases(start, calls), Run(start, calls))
  {
    hide Sound, Run, DirectReleases, Unpaid;
    InitiallySound({}, start);
    RunFollows({}, start, calls);
    assert {} + DirectReleases(start, calls) == DirectReleases(start, calls);
  }

  /** In every reachable state, each milestone an escrow has released is marked as completed in its order or has been
      released by a call on the escrow itself, and an order that costs nothing negative has an escrow with a remainder
      between zero and its total. */
  lemma {:induction false} ReleasedIsMarked(start: World, calls: seq<Call>, id: string)
    requires Starts(start) && DrawsFreshIds(start, calls)
    ensures var w, direct := Run(start, calls), DirectReleases(start, calls);
      id in w.orders && w.orders[id].escrowId.Some? ==>
        var o := w.orders[id];
        && o.escrowId.value in w.escrows
        && var e := w.escrows[o.escrowId.value];
           && |o.milestones| == 3 && e.completed <= 3
           && (forall k :: 0 <= k < e.completed ==> o.milestones[k].status == Completed || (o.escrowId.value, k) in direct)
           && (0 <= o.total ==> 0 <= Escrows.RemainingAmount(e) <= o.total)
  {
    hide Sound, Run, DirectReleases, Shares, Escrows.Total;
    ReachableSound(start, calls);
    var w, direct := Run(start, calls), DirectReleases(start, calls);
    if id in w.orders && w.orders[id].escrowId.Some? {
      SoundOf(direct, w, id);
      var o := w.orders[id];
      var e := w.escrows[o.escrowId.value];
      if 0 <= o.total {
        SharesLeaveAtMostTwo(o.total);
        Escrows.PrefixWithinTotal(e.amounts, e.completed);
      }
    }
  }

  /** The escrow, if it refuses, wants earlier milestones first, or has already released this one directly. */
  ghost predicate Hears(direct: Releases, w: World, id: string, index: int, r: Outcome) {
    r.error.Some? && r.error.value.EscrowFailed? ==>
      || r.error.value == EscrowFailed(Escrows.PreviousFirst)
      || (r.error.value == EscrowFailed(Escrows.AlreadyReleased) && id in w.orders && w.orders[id].escrowId.Some?
          && (w.orders[id].escrowId.value, index) in direct)
  }

  lemma CompletionHears(direct: Releases, w: World, id: string, index: int, now: nat)
    requires Sound(direct, w)
    ensures Hears(direct, w, id, index, Completion(w, id, index, now))
  {
    hide Sound, RecordAll, MarkAndPay;
    if HasOpenMilestone(w, id, index) {
      MarkAndPayDoes(direct, w, id, index);
      RecordingErrors(Put(MarkAndPay(w, id, index).world, id, Marked(w.orders[id], index).(status := ProductionComplete)),
                      w.orders[id].trackingIds, [Stop(Tracks.QUALITY_CONTROL_1, FACILITY)], now);
    }
  }

  lemma DeliveryHears(direct: Releases, w: World, id: string, now: nat)
    requires Sound(direct, w)
    ensures Hears(direct, w, id, 2, Delivery(w, id, now))
  {
    hide Sound, Completion, RecordAll, Unpaid;
    if id in w.orders {
      var address := w.orders[id].shippingAddress;
      var stops := [Stop(Tracks.DELIVERY_CONFIRMED, address), Stop(Tracks.COMPLETED, address)];
      var moved := Put(w, id, w.orders[id].(status := Delivered));
      RecordingErrors(moved, w.orders[id].trackingIds, stops, now);
      OrderTracking.RecordAllKeepsActors(moved, w.orders[id].trackingIds, stops, now);
      AdvanceFollows(direct, w, id, {Shipping, ProductionComplete}, Delivered, stops, now);
      CompletionHears(direct, Advance(w, id, {Shipping, ProductionComplete}, Delivered, stops, now).world, id, 2, now);
    }
  }

  /** What completeMilestone and confirmDelivery can hear from the escrow, in every reachable state: that an earlier
      milestone comes first, or that a call on the escrow itself has released this one, and nothing else. */
  lemma {:induction false} OnlyEarlierFirst(start: World, calls: seq<Call>, c: Call)
    requires Starts(start) && DrawsFreshIds(start, calls)
    requires c.CompleteMilestone? || c.ConfirmDelivery?
    ensures Hears(DirectReleases(start, calls), Run(start, calls), c.id,
                  if c.CompleteMilestone? then c.index else 2, Apply(Run(start, calls), c))
  {
    hide Sound, Run, DirectReleases, Completion, Delivery, Hears;
    ReachableSound(start, calls);
    var w, direct := Run(start, calls), DirectReleases(start, calls);
    if c.CompleteMilestone? {
      CompletionHears(direct, w, c.id, c.index, c.now);
    } else {
      DeliveryHears(direct, w, c.id, c.now);
    }
  }

  /** Funding an approved order fails exactly for a negative total that is no multiple of five. */
  lemma FundingFailsIff(direct: Releases, w: World, id: string, escrowId: string, trackingId: string, now: nat)
    requires Sound(direct, w) && id in w.orders && w.orders[id].status == Approved
    ensures Funding(w, id, escrowId, trackingId, now).error.Some? <==> w.orders[id].total < 0 && w.orders[id].total % 5 != 0
    ensures Funding(w, id, escrowId, trackingId, now).error.Some? ==> Funding(w, id, escrowId, trackingId, now).world == w
  {
    hide Sound, Shares, Escrows.Total;
    SoundOf(direct, w, id);
    SharesExceedIff(w.orders[id].total);
  }

  lemma {:induction false} RecordingErrors(w: World, trackingIds: seq<string>, stops: seq<Stop>, now: nat)
    ensures var error := RecordAll(w, trackingIds, stops, now).error; error.Some? ==> error.value.TrackingFailed?
    decreases |trackingIds|
  {
    if trackingIds != [] {
      StopErrors(w, trackingIds[0], stops, now);
      RecordingErrors(RecordStops(w, trackingIds[0], stops, now).world, trackingIds[1..], stops, now);
    }
  }

  lemma {:induction false} StopErrors(w: World, trackingId: string, stops: seq<Stop>, now: nat)
    ensures var error := RecordStops(w, trackingId, stops, now).error; error.Some? ==> error.value.TrackingFailed?
    decreases |stops|
  {
    if stops != [] {
      StopErrors(RecordStop(w, trackingId, stops[0], now).world, trackingId, stops[1..], now);
    }
  }

  /** Completing an open milestone of a funded order pays exactly if it is the next one the escrow releases. If it comes
      too early it is marked nevertheless, and unpaid from then on; too late it can only come after a direct release. */
  lemma CompletionPaysIff(direct: Releases, w: World, id: string, index: int, now: nat)
    requires Sound(direct, w) && HasOpenMilestone(w, id, index) && w.orders[id].escrowId.Some?
    ensures var eid, r := w.orders[id].escrowId.value, Completion(w, id, index, now);
      && eid in w.escrows && eid in r.world.escrows
      && (r.world.escrows[eid].completed == w.escrows[eid].completed + 1 <==> index == w.escrows[eid].completed)
      && (w.escrows[eid].completed < index ==>
            r.error == Some(EscrowFailed(Escrows.PreviousFirst)) && Unpaid(direct, r.world, id, index))
      && (index < w.escrows[eid].completed ==>
            r.error == Some(EscrowFailed(Escrows.AlreadyReleased)) && (eid, index) in direct)
  {
    hide Sound, RecordAll, MarkAndPay, Shares;
    SoundOf(direct, w, id);
    MarkAndPayDoes(direct, w, id, index);
    OrderTracking.RecordAllKeepsActors(
      Put(MarkAndPay(w, id, index).world, id, Marked(w.orders[id], index).(status := ProductionComplete)),
      w.orders[id].trackingIds, [Stop(Tracks.QUALITY_CONTROL_1, FACILITY)], now);
  }

  /** A delivery that goes through has released everything: the order is complete, its escrow has paid all three shares,
      and at most two units are left over. */
  lemma DeliveryPaysEverything(direct: Releases, w: World, id: string, now: nat)
    requires Sound(direct, w) && id in w.orders && w.orders[id].escrowId.Some? && 0 <= w.orders[id].total
    requires Delivery(w, id, now).error.None?
    ensures var v, eid := Delivery(w, id, now).world, w.orders[id].escrowId.value;
      && id in v.orders && v.orders[id].status == Complete && eid in v.escrows
      && v.escrows[eid].completed == 3 && 0 <= Escrows.RemainingAmount(v.escrows[eid]) <= 2
  {
    hide Sound, RecordAll, MarkAndPay, Shares, Unpaid, Escrows.Total;
    var address := w.orders[id].shippingAddress;
    var stops := [Stop(Tracks.DELIVERY_CONFIRMED, address), Stop(Tracks.COMPLETED, address)];
    var from := {Shipping, ProductionComplete};
    var moved := Put(w, id, w.orders[id].(status := Delivered));
    AdvanceFollows(direct, w, id, from, Delivered, stops, now);
    OrderTracking.RecordAllKeepsActors(moved, w.orders[id].trackingIds, stops, now);
    var delivered := Advance(w, id, from, Delivered, stops, now).world;
    assert delivered.orders == moved.orders && delivered.escrows == w.escrows;
    SoundOf(direct, delivered, id);
    MarkAndPayDoes(direct, delivered, id, 2);
    SharesLeaveAtMostTwo(w.orders[id].total);
    var e := delivered.escrows[w.orders[id].escrowId.value];
    assert e.amounts[..3] == e.amounts;
  }

  /** A milestone that is marked but unpaid in a reachable state is never paid through its order in any continuation: it
      stays unreleased, or a call on the escrow itself releases it. */
  lemma {:induction false} UnpaidForEver(start: World, calls: seq<Call>, more: seq<Call>, id: string, k: nat)
    requires Starts(start) && DrawsFreshIds(start, calls) && DrawsFreshIds(Run(start, calls), more)
    requires Unpaid(DirectReleases(start, calls), Run(start, calls), id, k)
    ensures Unpaid(DirectReleases(start, calls) + DirectReleases(Run(start, calls), more),
                   Run(Run(start, calls), more), id, k)
  {
    hide Sound, Run, Unpaid, DirectReleases;
    ReachableSound(start, calls);
    RunFollows(DirectReleases(start, calls), Run(start, calls), more);
  }

  /** Completing the first milestone of an order that is not funded yet succeeds, and the escrow it gets later never
      releases anything, unless a call on the escrow itself makes the start. */
  lemma {:induction false} EarlyCompletionFreezesEscrow(start: World, calls: seq<Call>, id: string, now: nat, more: seq<Call>)
    requires Starts(start) && DrawsFreshIds(start, calls)
    requires HasOpenMilestone(Run(start, calls), id, 0) && Run(start, calls).orders[id].escrowId.None?
    requires DrawsFreshIds(Step(Run(start, calls), CompleteMilestone(id, 0, now)), more)
    ensures Apply(Run(start, calls), CompleteMilestone(id, 0, now)).error.None?
    ensures var marked := Step(Run(start, calls), CompleteMilestone(id, 0, now));
      var v := Run(marked, more);
      && id in v.orders
      && (v.orders[id].escrowId.Some? ==>
            var eid := v.orders[id].escrowId.value;
            eid in v.escrows &&
            (Escrows.ReleasedAmount(v.escrows[eid]) == 0
             || (eid, 0) in DirectReleases(start, calls) + DirectReleases(marked, more)))
  {
    hide Sound, Run, Shares, MarkAndPay, RecordAll, DirectReleases;
    ReachableSound(start, calls);
    var w, direct := Run(start, calls), DirectReleases(start, calls);
    MarkAndPayDoes(direct, w, id, 0);
    CallFollows(direct, w, CompleteMilestone(id, 0, now));
    var marked := Step(w, CompleteMilestone(id, 0, now));
    assert Unpaid(direct, marked, id, 0);
    RunFollows(direct, marked, more);
    var v, later := Run(marked, more), direct + DirectReleases(marked, more);
    assert Unpaid(later, v, id, 0);
    SoundOf(later, v, id);
  }
}
