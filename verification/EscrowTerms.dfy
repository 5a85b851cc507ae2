/** Which calls on an escrow are accepted, and how a dispute ends. */
module EscrowTerms {
  import opened Wrappers
  import opened EscrowModel

  predicate IsPercent(percent: real, n: int) {
    0 <= n <= 100 && percent == n as real
  }

  /** The next milestone may be released in any status, a dispute raised while nothing is settled, a raised one resolved in
      whole per cent, and a refund made unless it was made or all is complete. */
  lemma AcceptedIff(e: Escrow, c: EscrowCall)
    ensures Accepts(e, c) <==>
      match c
      case Release(index) => index == e.completed < |e.amounts|
      case Dispute => e.status !in {Disputed, Complete, Refunded}
      case Resolve(percent) => e.status == Disputed && exists n: int :: IsPercent(percent, n)
      case Refund => e.status !in {Refunded, Complete}
  {
    if c.Resolve? {
      if n: int :| IsPercent(c.buyerPercent, n) {
        assert c.buyerPercent.Floor == n;
      }
      if Accepts(e, c) {
        assert IsPercent(c.buyerPercent, c.buyerPercent.Floor);
      }
    }
  }

  /** A release that is refused names the reason: no such milestone, paid already, or earlier ones first. */
  lemma ReleaseRefusals(e: Escrow, index: int)
    requires e.completed <= |e.amounts|
    ensures Guard(e, Release(index)) == Some(InvalidIndex) <==> |e.amounts| <= index
    ensures Guard(e, Release(index)) == Some(AlreadyReleased) <==> index < e.completed
    ensures Guard(e, Release(index)) == Some(PreviousFirst) <==> e.completed < index < |e.amounts|
  {}

  /** A resolution of n per cent pays the buyer the n-th part of a hundred of a remainder that is not negative, rounded down,
      and the manufacturer the rest. The escrow is refunded exactly for a hundred per cent, when the buyer gets everything,
      complete exactly for none, when the manufacturer does, and stays disputed otherwise. */
  lemma ResolutionEnds(e: Escrow, n: int)
    requires e.status == Disputed && 0 <= n <= 100 && 0 <= RemainingAmount(e)
    ensures Accepts(e, Resolve(n as real)) && |Paid(e, Resolve(n as real))| == 1
    ensures var p, later, rest := Paid(e, Resolve(n as real))[0], Step(e, Resolve(n as real)), RemainingAmount(e);
      && p.Split? && p.toBuyer + p.toManufacturer == rest && 100 * p.toBuyer <= rest * n < 100 * p.toBuyer + 100
      && later.status == (if n == 100 then Refunded else if n == 0 then Complete else Disputed)
      && later == e.(status := later.status)
      && (later.status == Refunded ==> p.toBuyer == rest) && (later.status == Complete ==> p.toManufacturer == rest)
  {
    assert (n as real).Floor == n;
    hide RemainingAmount;
    var rest := RemainingAmount(e);
    assert 0 <= rest * n;
  }

  /** A refund pays the whole remainder and refunds; a dispute pays nothing. */
  lemma RefundAndDispute(e: Escrow)
    ensures Accepts(e, Refund) ==> Paid(e, Refund) == [Refunding(RemainingAmount(e))] && Step(e, Refund) == e.(status := Refunded)
    ensures Accepts(e, Dispute) ==> Paid(e, Dispute) == [] && Step(e, Dispute) == e.(status := Disputed)
  {
    hide RemainingAmount;
  }

  /** An accepted release pays the next milestone, and the status tells whether it was the last, the first or the second. */
  lemma ReleaseMovesOn(e: Escrow, index: int)
    requires Accepts(e, Release(index))
    ensures var later, n := Step(e, Release(index)), |e.amounts|;
      && 0 <= index < n && Paid(e, Release(index)) == [Milestone(index, e.amounts[index])]
      && later == e.(completed := index + 1, status := later.status)
      && later.status == (if index == n - 1 then Complete else if index == 0 then Milestone1 else if index == 1 then Milestone2 else e.status)
  {}
}
