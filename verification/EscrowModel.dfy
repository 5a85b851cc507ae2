/** A purchase-order escrow: its guards, what each call pays, and what the payments of a run add up to. */
module EscrowModel {
  import opened Wrappers

  datatype EscrowStatus = Pending | Funded | Manufacturing | Milestone1 | Milestone2 | Complete | Disputed | Refunded | Cancelled

  datatype Escrow = Escrow(total: int, amounts: seq<int>, status: EscrowStatus, completed: nat)

  datatype EscrowError =
    | EscrowNotFound | MilestonesExceedTotal
    | InvalidIndex | AlreadyReleased | PreviousFirst
    | AlreadyDisputed | AlreadySettled
    | NotDisputed | PercentOutOfRange | PercentNotWhole
    | AlreadyRefunded | AlreadyComplete

  datatype EscrowCall = Release(index: int) | Dispute | Resolve(buyerPercent: real) | Refund

  /** What a call hands out. */
  datatype Payment = Milestone(index: nat, amount: int) | Split(toBuyer: int, toManufacturer: int) | Refunding(toBuyer: int)

  function Total(amounts: seq<int>): int {
    if amounts == [] then 0 else Total(amounts[..|amounts| - 1]) + amounts[|amounts| - 1]
  }

  /** Division of bigints: towards zero. */
  function TruncatedDiv(n: int, d: int): int
    requires 0 < d
  {
    if 0 <= n then n / d else -(-n / d)
  }

  function Opened(total: int, amounts: seq<int>): Result<Escrow, EscrowError> {
    if Total(amounts) > total then Err(MilestonesExceedTotal) else Ok(Escrow(total, amounts, Funded, 0))
  }

  /** slice(0, completed) */
  function Passed(e: Escrow): seq<int> {
    if e.completed <= |e.amounts| then e.amounts[..e.completed] else e.amounts
  }

  function ReleasedAmount(e: Escrow): int {
    Total(Passed(e))
  }

  function RemainingAmount(e: Escrow): int {
    e.total - ReleasedAmount(e)
  }

  function IsWhole(x: real): bool {
    x.Floor as real == x
  }

  /** The first guard of a call that fails. A negative index is below the next one, like any index already passed. */
  function Guard(e: Escrow, c: EscrowCall): Option<EscrowError> {
    match c
    case Release(index) =>
      if index >= |e.amounts| then Some(InvalidIndex)
      else if index < e.completed then Some(AlreadyReleased)
      else if index > e.completed then Some(PreviousFirst)
      else None
    case Dispute =>
      if e.status == Disputed then Some(AlreadyDisputed)
      else if e.status == Complete || e.status == Refunded then Some(AlreadySettled)
      else None
    case Resolve(buyerPercent) =>
      if e.status != Disputed then Some(NotDisputed)
      else if buyerPercent < 0.0 || buyerPercent > 100.0 then Some(PercentOutOfRange)
      else if !IsWhole(buyerPercent) then Some(PercentNotWhole)
      else None
    case Refund =>
      if e.status == Refunded then Some(AlreadyRefunded)
      else if e.status == Complete then Some(AlreadyComplete)
      else None
  }

  function StatusAfterRelease(e: Escrow): EscrowStatus {
    if e.completed + 1 == |e.amounts| then Complete
    else if e.completed + 1 == 1 then Milestone1
    else if e.completed + 1 == 2 then Milestone2
    else e.status
  }

  function Effect(e: Escrow, c: EscrowCall): Escrow
    requires Guard(e, c) == None
  {
    match c
    case Release(_) => e.(completed := e.completed + 1, status := StatusAfterRelease(e))
    case Dispute => e.(status := Disputed)
    case Resolve(buyerPercent) =>
      if buyerPercent == 100.0 then e.(status := Refunded)
      else if buyerPercent == 0.0 then e.(status := Complete)
      else e
    case Refund => e.(status := Refunded)
  }

  function ToBuyer(e: Escrow, buyerPercent: int): int {
    TruncatedDiv(RemainingAmount(e) * buyerPercent, 100)
  }

  /** What a call that passes its guards pays. */
  function Pays(e: Escrow, c: EscrowCall): Option<Payment>
    requires Guard(e, c) == None
  {
    match c
    case Release(_) => Some(Milestone(e.completed, e.amounts[e.completed]))
    case Dispute => None
    case Resolve(buyerPercent) =>
      var toBuyer := ToBuyer(e, buyerPercent.Floor);
      Some(Split(toBuyer, RemainingAmount(e) - toBuyer))
    case Refund => Some(Refunding(RemainingAmount(e)))
  }

  function Step(e: Escrow, c: EscrowCall): Escrow {
    if Guard(e, c) == None then Effect(e, c) else e
  }

  /** Why the service refuses a call on one of its escrows. */
  function Refusal(escrows: map<string, Escrow>, id: string, c: EscrowCall): Option<EscrowError> {
    if id !in escrows then Some(EscrowNotFound) else Guard(escrows[id], c)
  }

  /** The escrows of the service after a call on one of them. */
  function After(escrows: map<string, Escrow>, id: string, c: EscrowCall): map<string, Escrow> {
    if Refusal(escrows, id, c) == None then escrows[id := Effect(escrows[id], c)] else escrows
  }

  function Run(e: Escrow, calls: seq<EscrowCall>): Escrow {
    if calls == [] then e else Step(Run(e, calls[..|calls| - 1]), calls[|calls| - 1])
  }

  /** The payments of one call, none or one. */
  function Paid(e: Escrow, c: EscrowCall): seq<Payment> {
    if Guard(e, c) == None && Pays(e, c).Some? then [Pays(e, c).value] else []
  }

  /** Everything a run pays, in order. */
  function Payments(e: Escrow, calls: seq<EscrowCall>): seq<Payment> {
    if calls == [] then [] else
      var before := calls[..|calls| - 1];
      Payments(e, before) + Paid(Run(e, before), calls[|calls| - 1])
  }

  function Amount(p: Payment): int {
    match p
    case Milestone(_, amount) => amount
    case Split(toBuyer, toManufacturer) => toBuyer + toManufacturer
    case Refunding(toBuyer) => toBuyer
  }

  function Sum(ps: seq<Payment>): int {
    if ps == [] then 0 else Sum(ps[..|ps| - 1]) + Amount(ps[|ps| - 1])
  }

  function MilestonesIn(ps: seq<Payment>): seq<Payment> {
    if ps == [] then [] else
      MilestonesIn(ps[..|ps| - 1]) + if ps[|ps| - 1].Milestone? then [ps[|ps| - 1]] else []
  }

  /** The first n milestones, each with its own amount, in index order. */
  function InOrder(amounts: seq<int>, n: nat): seq<Payment>
    requires n <= |amounts|
  {
    seq(n, i requires 0 <= i < n => Milestone(i, amounts[i]))
  }

  lemma TotalAppend(amounts: seq<int>, a: int)
    ensures Total(amounts + [a]) == Total(amounts) + a
  {
    assert (amounts + [a])[..|amounts|] == amounts;
  }

  lemma SumAppend(ps: seq<Payment>, p: Payment)
    ensures Sum(ps + [p]) == Sum(ps) + Amount(p)
    ensures MilestonesIn(ps + [p]) == MilestonesIn(ps) + if p.Milestone? then [p] else []
  {
    assert (ps + [p])[..|ps|] == ps;
  }

  /** The terms of an escrow never change, and no more milestones are released than there are. */
  lemma {:induction false} TermsStand(e: Escrow, calls: seq<EscrowCall>)
    requires e.completed <= |e.amounts|
    ensures Run(e, calls).total == e.total && Run(e, calls).amounts == e.amounts
    ensures e.completed <= Run(e, calls).completed <= |e.amounts|
  {
    if calls != [] {
      TermsStand(e, calls[..|calls| - 1]);
    }
  }

  ghost predicate Accepts(e: Escrow, c: EscrowCall) {
    Guard(e, c) == None
  }

  lemma StepReleases(e: Escrow, c: EscrowCall, ps: seq<Payment>)
    ensures Step(e, c).completed == e.completed + if c.Release? && Accepts(e, c) then 1 else 0
    ensures c.Release? && Accepts(e, c) ==>
      e.completed < |e.amounts| && Paid(e, c) == [Milestone(e.completed, e.amounts[e.completed])]
    ensures !(c.Release? && Accepts(e, c)) ==> MilestonesIn(ps + Paid(e, c)) == MilestonesIn(ps)
  {
    hide TruncatedDiv, ReleasedAmount, RemainingAmount, MilestonesIn;
    if Accepts(e, c) && Pays(e, c).Some? {
      SumAppend(ps, Pays(e, c).value);
    } else {
      assert ps + [] == ps;
    }
  }

  lemma InOrderStep(amounts: seq<int>, n: nat)
    requires n < |amounts|
    ensures InOrder(amounts, n + 1) == InOrder(amounts, n) + [Milestone(n, amounts[n])]
  {}

  /** Each milestone is released at most once, in index order, for its own amount. */
  lemma {:induction false} MilestonesReleaseInOrder(e: Escrow, calls: seq<EscrowCall>)
    requires e.completed == 0
    ensures Run(e, calls).completed <= |e.amounts|
    ensures MilestonesIn(Payments(e, calls)) == InOrder(e.amounts, Run(e, calls).completed)
  {
    hide Step, Paid, Accepts;
    TermsStand(e, calls);
    if calls != [] {
      hide MilestonesIn, InOrder;
      var before, c := calls[..|calls| - 1], calls[|calls| - 1];
      var now := Run(e, before);
      TermsStand(e, before);
      MilestonesReleaseInOrder(e, before);
      StepReleases(now, c, Payments(e, before));
      if c.Release? && Accepts(now, c) {
        InOrderStep(e.amounts, now.completed);
        SumAppend(Payments(e, before), Milestone(now.completed, now.amounts[now.completed]));
      }
    }
  }

  /** How far the status of an escrow tells how many milestones have been released. */
  ghost predicate StatusFits(e: Escrow) {
    && (e.status == Funded ==> e.completed == 0)
    && (e.status == Milestone1 ==> e.completed == 1)
    && (e.status == Milestone2 ==> if |e.amounts| <= 3 then e.completed == 2 else 2 <= e.completed)
    && (0 < |e.amounts| == e.completed ==> e.status == Complete)
  }

  lemma StepKeepsStatus(e: Escrow, c: EscrowCall)
    requires StatusFits(e) && e.completed <= |e.amounts|
    ensures StatusFits(Step(e, c))
  {}

  /** Over every run of a new escrow the status never overstates or understates the releases, and once the last
      milestone is released it stays complete: no dispute, no refund. */
  lemma {:induction false} StatusTellsReleases(e: Escrow, calls: seq<EscrowCall>)
    requires e.completed == 0 && e.status == Funded
    ensures StatusFits(Run(e, calls))
  {
    hide Step;
    if calls == [] {
      assert StatusFits(e);
    } else {
      var before := calls[..|calls| - 1];
      TermsStand(e, before);
      StatusTellsReleases(e, before);
      StepKeepsStatus(Run(e, before), calls[|calls| - 1]);
    }
  }

  lemma {:induction false} SumOfMilestones(amounts: seq<int>, n: nat)
    requires n <= |amounts|
    ensures Sum(InOrder(amounts, n)) == Total(amounts[..n])
  {
    if n > 0 {
      SumOfMilestones(amounts, n - 1);
      assert InOrder(amounts, n)[..n - 1] == InOrder(amounts, n - 1);
      assert amounts[..n][..n - 1] == amounts[..n - 1];
    }
  }

  /** What getReleasedAmount reports is what the milestone payments of the run add up to. */
  lemma {:induction false} ReleasedIsPaidOut(e: Escrow, calls: seq<EscrowCall>)
    requires e.completed == 0
    ensures ReleasedAmount(Run(e, calls)) == Sum(MilestonesIn(Payments(e, calls)))
    ensures ReleasedAmount(Run(e, calls)) + RemainingAmount(Run(e, calls)) == e.total
  {
    TermsStand(e, calls);
    MilestonesReleaseInOrder(e, calls);
    SumOfMilestones(e.amounts, Run(e, calls).completed);
  }

  function Releases(n: nat): seq<EscrowCall> {
    if n == 0 then [] else Releases(n - 1) + [Release(n - 1)]
  }

  lemma {:induction false} ReleasesReach(e: Escrow, n: nat)
    requires e.completed == 0 && n <= |e.amounts|
    ensures Run(e, Releases(n)).completed == n
  {
    if n > 0 {
      ReleasesReach(e, n - 1);
      TermsStand(e, Releases(n - 1));
      assert Releases(n)[..n - 1] == Releases(n - 1) by {
        ReleasesCount(n - 1);
      }
      ReleasesCount(n);
    }
  }

  lemma {:induction false} ReleasesCount(n: nat)
    ensures |Releases(n)| == n
  {
    if n > 0 {
      ReleasesCount(n - 1);
    }
  }

  ghost predicate PrefixesFit(e: Escrow) {
    forall n :: 0 <= n <= |e.amounts| ==> Total(e.amounts[..n]) <= e.total
  }

  ghost predicate NeverShort(e: Escrow) {
    forall calls :: 0 <= RemainingAmount(Run(e, calls))
  }

  /** No run leaves a negative remainder exactly if no prefix of the milestone amounts exceeds the total. */
  lemma {:induction false} RemainderNeverNegative(e: Escrow)
    requires e.completed == 0
    ensures NeverShort(e) <==> PrefixesFit(e)
  {
    hide Run, Total;
    if NeverShort(e) {
      forall n | 0 <= n <= |e.amounts| ensures Total(e.amounts[..n]) <= e.total {
        ReleasesReach(e, n);
        TermsStand(e, Releases(n));
        assert 0 <= RemainingAmount(Run(e, Releases(n)));
      }
    }
    if PrefixesFit(e) {
      forall calls ensures 0 <= RemainingAmount(Run(e, calls)) {
        TermsStand(e, calls);
      }
    }
  }

  lemma {:induction false} PrefixWithinTotal(amounts: seq<int>, n: nat)
    requires n <= |amounts| && forall i :: 0 <= i < |amounts| ==> 0 <= amounts[i]
    ensures 0 <= Total(amounts[..n]) <= Total(amounts)
  {
    if n < |amounts| {
      var init := amounts[..|amounts| - 1];
      PrefixWithinTotal(init, n);
      assert init[..n] == amounts[..n];
    } else {
      assert amounts[..n] == amounts;
      if amounts != [] {
        PrefixWithinTotal(amounts[..n - 1], n - 1);
        assert amounts[..n - 1][..n - 1] == amounts[..n - 1];
      }
    }
  }

  /** Non-negative amounts that pass the guard of createEscrow suffice. */
  lemma {:induction false} OpenedIsNeverShort(total: int, amounts: seq<int>, calls: seq<EscrowCall>)
    requires Opened(total, amounts).Ok? && forall i :: 0 <= i < |amounts| ==> 0 <= amounts[i]
    ensures 0 <= RemainingAmount(Run(Opened(total, amounts).value, calls)) <= total
  {
    hide Run, Total;
    var e := Opened(total, amounts).value;
    TermsStand(e, calls);
    PrefixWithinTotal(amounts, Run(e, calls).completed);
  }

  ghost predicate IsNew(e: Escrow) {
    e.completed == 0 && e.status == Funded && Total(e.amounts) <= e.total
  }

  /** The escrow is one that createEscrow has made, after some run of calls. */
  ghost predicate FromRun(e: Escrow) {
    exists start: Escrow, calls :: IsNew(start) && Run(start, calls) == e
  }

  lemma OpenedFromRun(total: int, amounts: seq<int>)
    requires Opened(total, amounts).Ok?
    ensures FromRun(Opened(total, amounts).value)
  {
    var e := Opened(total, amounts).value;
    assert Run(e, []) == e;
  }

  lemma StepFromRun(e: Escrow, c: EscrowCall)
    requires FromRun(e)
    ensures FromRun(Step(e, c))
  {
    hide Step, Total;
    var start: Escrow, calls :| IsNew(start) && Run(start, calls) == e;
    assert (calls + [c])[..|calls|] == calls;
    assert Run(start, calls + [c]) == Step(e, c);
  }

  /** A call on the service leaves only escrows of this kind. */
  lemma AfterFromRun(escrows: map<string, Escrow>, id: string, c: EscrowCall)
    requires forall k :: k in escrows ==> FromRun(escrows[k])
    ensures forall k :: k in After(escrows, id, c) ==> FromRun(After(escrows, id, c)[k])
  {
    if Refusal(escrows, id, c) == None {
      StepFromRun(escrows[id], c);
    }
    hide FromRun, Guard, Effect;
  }

  /** What the theorems about runs say of every such escrow. */
  lemma FromRunIsSound(e: Escrow)
    requires FromRun(e)
    ensures e.completed <= |e.amounts| && StatusFits(e)
    ensures NonNegative(e.amounts) ==> 0 <= RemainingAmount(e) <= e.total
  {
    var start: Escrow, calls :| IsNew(start) && Run(start, calls) == e;
    hide Run, Total, StatusFits;
    TermsStand(start, calls);
    StatusTellsReleases(start, calls);
    if NonNegative(e.amounts) {
      PrefixWithinTotal(e.amounts, e.completed);
    }
  }

  lemma ShareIsWithin(rest: int, percent: int)
    requires 0 <= rest && 0 <= percent <= 100
    ensures 0 <= rest * percent <= rest * 100
  {}

  /** A dispute is split into two parts that are not negative and add up to the remainder; the buyer's share is rounded down. */
  lemma SplitIsFair(e: Escrow, buyerPercent: real)
    requires Guard(e, Resolve(buyerPercent)) == None && 0 <= RemainingAmount(e)
    ensures var p := Pays(e, Resolve(buyerPercent)).value;
      && 0 <= p.toBuyer && 0 <= p.toManufacturer && p.toBuyer + p.toManufacturer == RemainingAmount(e)
      && 100 * p.toBuyer <= RemainingAmount(e) * buyerPercent.Floor < 100 * p.toBuyer + 100
  {
    ShareIsWithin(RemainingAmount(e), buyerPercent.Floor);
  }

  function Settles(p: Payment): bool {
    p.Split? || p.Refunding?
  }

  ghost predicate Settled(ps: seq<Payment>) {
    exists i :: 0 <= i < |ps| && Settles(ps[i])
  }

  /** What is paid after the first settlement. */
  ghost function PaidAfter(ps: seq<Payment>): int {
    if ps == [] || !Settled(ps[..|ps| - 1]) then 0
    else PaidAfter(ps[..|ps| - 1]) + Amount(ps[|ps| - 1])
  }

  lemma SettledAppend(ps: seq<Payment>, p: Payment)
    ensures Settled(ps + [p]) <==> Settled(ps) || Settles(p)
    ensures PaidAfter(ps + [p]) == if Settled(ps) then PaidAfter(ps) + Amount(p) else 0
  {
    assert (ps + [p])[..|ps|] == ps;
    assert forall i :: 0 <= i < |ps| ==> (ps + [p])[i] == ps[i];
    assert (ps + [p])[|ps|] == p;
  }

  ghost predicate PaysWhatItSays(e: Escrow, ps: seq<Payment>) {
    Sum(ps) == if Settled(ps) then e.total + PaidAfter(ps) else ReleasedAmount(e)
  }

  lemma ReleaseAdds(e: Escrow)
    requires e.completed < |e.amounts|
    ensures ReleasedAmount(e.(completed := e.completed + 1)) == ReleasedAmount(e) + e.amounts[e.completed]
  {
    TotalAppend(e.amounts[..e.completed], e.amounts[e.completed]);
    assert e.amounts[..e.completed + 1] == e.amounts[..e.completed] + [e.amounts[e.completed]];
  }

  lemma PayoutStep(e: Escrow, ps: seq<Payment>, c: EscrowCall)
    requires e.completed <= |e.amounts| && PaysWhatItSays(e, ps)
    ensures PaysWhatItSays(Step(e, c), ps + Paid(e, c))
  {
    hide Sum, Settled, PaidAfter, Total, TruncatedDiv;
    if Accepts(e, c) && Pays(e, c).Some? {
      SumAppend(ps, Pays(e, c).value);
      SettledAppend(ps, Pays(e, c).value);
      if c.Release? {
        ReleaseAdds(e);
        assert ReleasedAmount(Step(e, c)) == ReleasedAmount(e.(completed := e.completed + 1));
      }
    } else {
      assert ps + [] == ps;
      assert Passed(Step(e, c)) == Passed(e);
    }
  }

  /** Until a settlement a run pays out the released milestones; the first settlement completes the total, and
      everything after it comes on top. */
  lemma {:induction false} PayoutOfRun(e: Escrow, calls: seq<EscrowCall>)
    requires e.completed == 0
    ensures var ps := Payments(e, calls);
      Sum(ps) == if Settled(ps) then e.total + PaidAfter(ps) else ReleasedAmount(Run(e, calls))
  {
    hide Sum, Settled, PaidAfter, Step, Paid;
    TermsStand(e, calls);
    if calls == [] {
      NothingPaid();
    } else {
      var before := calls[..|calls| - 1];
      TermsStand(e, before);
      PayoutOfRun(e, before);
      PayoutStep(Run(e, before), Payments(e, before), calls[|calls| - 1]);
    }
  }

  lemma NothingPaid()
    ensures Sum([]) == 0 && !Settled([]) && PaidAfter([]) == 0 && Total([]) == 0
  {}

  /** The call is accepted and settles the escrow. */
  ghost predicate SettlesNow(e: Escrow, c: EscrowCall) {
    Accepts(e, c) && (c.Resolve? || c.Refund?)
  }

  /** A dispute has been resolved, in whatever shares, or a refund made. */
  ghost predicate HasSettled(e: Escrow, calls: seq<EscrowCall>) {
    exists k :: 0 <= k < |calls| && SettlesNow(Run(e, calls[..k]), calls[k])
  }

  /** The call passes its guards and has something to pay. */
  ghost predicate PaysSomething(e: Escrow, c: EscrowCall) {
    Accepts(e, c) &&
    match c
    case Release(_) => e.amounts[e.completed] > 0
    case Dispute => false
    case Resolve(_) => RemainingAmount(e) > 0
    case Refund => RemainingAmount(e) > 0
  }

  ghost predicate NonNegative(amounts: seq<int>) {
    forall i :: 0 <= i < |amounts| ==> 0 <= amounts[i]
  }

  lemma {:induction false} OneMore(e: Escrow, calls: seq<EscrowCall>, c: EscrowCall)
    ensures Payments(e, calls + [c]) == Payments(e, calls) + Paid(Run(e, calls), c)
    ensures Run(e, calls + [c]) == Step(Run(e, calls), c)
  {
    hide Paid, Step;
    assert (calls + [c])[..|calls|] == calls;
  }

  lemma SettledMore(e: Escrow, calls: seq<EscrowCall>, c: EscrowCall)
    ensures HasSettled(e, calls + [c]) <==> HasSettled(e, calls) || SettlesNow(Run(e, calls), c)
  {
    hide Run, SettlesNow;
    var all := calls + [c];
    assert all[..|calls|] == calls && all[|calls|] == c;
    assert forall k :: 0 <= k < |calls| ==> all[..k] == calls[..k] && all[k] == calls[k];
  }

  /** Settled calls are settled payments. */
  lemma {:induction false} SettledByCalls(e: Escrow, calls: seq<EscrowCall>)
    ensures Settled(Payments(e, calls)) <==> HasSettled(e, calls)
  {
    hide Run, Settled, HasSettled, SettlesNow, Paid, Payments;
    if calls == [] {
      NoneYet(e);
      NothingPaid();
      assert !HasSettled(e, []) by {
        NeverSettled(e);
      }
    } else {
      var before, c := calls[..|calls| - 1], calls[|calls| - 1];
      assert calls == before + [c];
      SettledByCalls(e, before);
      OneMore(e, before, c);
      SettledMore(e, before, c);
      PaidSettles(Run(e, before), c, Payments(e, before));
    }
  }

  lemma NeverSettled(e: Escrow)
    ensures !HasSettled(e, [])
  {}

  lemma PaidSettles(e: Escrow, c: EscrowCall, ps: seq<Payment>)
    ensures Settled(ps + Paid(e, c)) <==> Settled(ps) || SettlesNow(e, c)
  {
    hide Settled, RemainingAmount, ToBuyer;
    if Accepts(e, c) && Pays(e, c).Some? {
      SettledAppend(ps, Pays(e, c).value);
    } else {
      assert ps + [] == ps;
    }
  }

  /** With non-negative amounts a call adds nothing negative, and something exactly if it pays something. */
  lemma PaidAmount(e: Escrow, c: EscrowCall, ps: seq<Payment>)
    requires NonNegative(e.amounts) && e.completed <= |e.amounts| && Total(e.amounts) <= e.total
    ensures Sum(ps) <= Sum(ps + Paid(e, c))
    ensures Sum(ps) < Sum(ps + Paid(e, c)) <==> PaysSomething(e, c)
  {
    PrefixWithinTotal(e.amounts, e.completed);
    hide Sum, Total, ToBuyer;
    if Accepts(e, c) && Pays(e, c).Some? {
      SumAppend(ps, Pays(e, c).value);
    } else {
      assert ps + [] == ps;
    }
  }

  /** What an escrow that createEscrow has accepted looks like, if no amount is negative. */
  ghost predicate Fresh(e: Escrow) {
    e.completed == 0 && NonNegative(e.amounts) && Total(e.amounts) <= e.total
  }

  /** A run that has settled has paid the total at least; one that has not, at most. */
  lemma {:induction false} PaidSoFar(e: Escrow, calls: seq<EscrowCall>)
    requires Fresh(e)
    ensures if HasSettled(e, calls) then e.total <= Sum(Payments(e, calls))
            else Sum(Payments(e, calls)) == ReleasedAmount(Run(e, calls)) <= e.total
  {
    TermsStand(e, calls);
    PayoutOfRun(e, calls);
    SettledByCalls(e, calls);
    PrefixWithinTotal(e.amounts, Run(e, calls).completed);
    PaidAfterIsNonNegative(e, calls);
    hide Run, Sum, Settled, PaidAfter, Total, HasSettled;
  }

  lemma {:induction false} PaidAfterIsNonNegative(e: Escrow, calls: seq<EscrowCall>)
    requires Fresh(e)
    ensures 0 <= PaidAfter(Payments(e, calls))
  {
    hide Sum, Settled, Total, Paid;
    if calls != [] {
      var before, c := calls[..|calls| - 1], calls[|calls| - 1];
      TermsStand(e, before);
      PaidAfterIsNonNegative(e, before);
      PaidAfterStep(Run(e, before), c, Payments(e, before));
    }
  }

  lemma PaidAfterStep(e: Escrow, c: EscrowCall, ps: seq<Payment>)
    requires NonNegative(e.amounts) && e.completed <= |e.amounts| && Total(e.amounts) <= e.total && 0 <= PaidAfter(ps)
    ensures 0 <= PaidAfter(ps + Paid(e, c))
  {
    PrefixWithinTotal(e.amounts, e.completed);
    hide Settled, PaidAfter, Total, ToBuyer;
    if Accepts(e, c) && Pays(e, c).Some? {
      SettledAppend(ps, Pays(e, c).value);
    } else {
      assert ps + [] == ps;
    }
  }

  /** At any point of a run: the next call takes the payments above the total, or further above it, exactly if the escrow
      has been settled and the call passes its guards with a milestone amount or a remainder greater than zero. */
  lemma {:induction false} NextCallOverpaysIff(e: Escrow, calls: seq<EscrowCall>, c: EscrowCall)
    requires Fresh(e)
    ensures var before, after := Sum(Payments(e, calls)), Sum(Payments(e, calls + [c]));
      (e.total < after && before < after) <==> HasSettled(e, calls) && PaysSomething(Run(e, calls), c)
  {
    hide Run, Sum, Payments, Paid, HasSettled, SettlesNow, PaysSomething, Total;
    TermsStand(e, calls);
    OneMore(e, calls, c);
    PaidAmount(Run(e, calls), c, Payments(e, calls));
    PaidSoFar(e, calls);
    PaidSoFar(e, calls + [c]);
    SettledMore(e, calls, c);
    if !HasSettled(e, calls) && SettlesNow(Run(e, calls), c) {
      FirstSettlement(e, calls, c);
    }
  }

  /** The first settlement completes the total exactly. */
  lemma {:induction false} FirstSettlement(e: Escrow, calls: seq<EscrowCall>, c: EscrowCall)
    requires Fresh(e) && !HasSettled(e, calls) && SettlesNow(Run(e, calls), c)
    ensures Sum(Payments(e, calls + [c])) == e.total
  {
    TermsStand(e, calls);
    hide Run, Sum, Payments, Paid, HasSettled, SettlesNow, ReleasedAmount;
    OneMore(e, calls, c);
    PaidSoFar(e, calls);
    SettlementPaysRemainder(Run(e, calls), c, Payments(e, calls));
  }

  lemma SettlementPaysRemainder(e: Escrow, c: EscrowCall, ps: seq<Payment>)
    requires SettlesNow(e, c)
    ensures Sum(ps + Paid(e, c)) == Sum(ps) + RemainingAmount(e)
  {
    hide Sum, RemainingAmount, ToBuyer;
    SumAppend(ps, Pays(e, c).value);
  }

  /** Some call of the run pays something although the escrow has been settled. */
  ghost predicate PaysOn(e: Escrow, calls: seq<EscrowCall>) {
    exists k :: 0 <= k < |calls| && HasSettled(e, calls[..k]) && PaysSomething(Run(e, calls[..k]), calls[k])
  }

  lemma PaysOnMore(e: Escrow, calls: seq<EscrowCall>, c: EscrowCall)
    ensures PaysOn(e, calls + [c]) <==> PaysOn(e, calls) || (HasSettled(e, calls) && PaysSomething(Run(e, calls), c))
  {
    hide Run, HasSettled, PaysSomething;
    var all := calls + [c];
    assert all[..|calls|] == calls && all[|calls|] == c;
    assert forall k :: 0 <= k < |calls| ==> all[..k] == calls[..k] && all[k] == calls[k];
  }

  lemma NeverPaysOn(e: Escrow)
    ensures !PaysOn(e, [])
  {}

  /** A run pays more than the total exactly if one of its calls finds the escrow settled and has something to pay. */
  lemma {:induction false} OverpaysIff(e: Escrow, calls: seq<EscrowCall>)
    requires Fresh(e)
    ensures e.total < Sum(Payments(e, calls)) <==> PaysOn(e, calls)
  {
    hide Run, Sum, Payments, Paid, HasSettled, SettlesNow, PaysSomething, PaysOn, Total;
    if calls == [] {
      NoneYet(e);
      NothingPaid();
      NeverPaysOn(e);
      PrefixWithinTotal(e.amounts, 0);
    } else {
      var before, c := calls[..|calls| - 1], calls[|calls| - 1];
      assert calls == before + [c];
      TermsStand(e, before);
      OverpaysIff(e, before);
      OneMore(e, before, c);
      PaidAmount(Run(e, before), c, Payments(e, before));
      NextCallOverpaysIff(e, before, c);
      PaysOnMore(e, before, c);
    }
  }

  /** A refund does not stop the release of milestones, which then pays a second time. */
  lemma ReleaseAfterRefund(e: Escrow)
    requires e == Escrow(10, [4, 6], Funded, 0)
    ensures Opened(10, [4, 6]) == Ok(e)
    ensures Sum(Payments(e, [Refund, Release(0)])) == 14
  {
    assert [4, 6][..1] == [4] && [4][..0] == [] && e.amounts[..0] == [];
    var refunded := e.(status := Refunded);
    assert Passed(e) == [] && Paid(e, Refund) == [Refunding(10)] && Step(e, Refund) == refunded;
    assert Paid(refunded, Release(0)) == [Milestone(0, 4)];
    PaymentsOfTwo(e, Refund, Release(0));
    SumAppend([], Refunding(10));
    SumAppend([Refunding(10)], Milestone(0, 4));
    assert [] + [Refunding(10)] == [Refunding(10)];
  }

  lemma {:induction false} NoneYet(e: Escrow)
    ensures Payments(e, []) == [] && Run(e, []) == e
  {}

  lemma {:induction false} PaymentsOfTwo(e: Escrow, c: EscrowCall, d: EscrowCall)
    ensures Payments(e, [c, d]) == Paid(e, c) + Paid(Step(e, c), d)
  {
    hide Paid, Step, Run, Payments;
    NoneYet(e);
    OneMore(e, [], c);
    assert [] + [c] == [c] && [] + Paid(e, c) == Paid(e, c);
    OneMore(e, [c], d);
    assert [c] + [d] == [c, d];
  }
}
