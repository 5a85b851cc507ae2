/** The escrow service with the records it updates in place; every method is tied to the escrow model. */
module EscrowService {
  import opened Wrappers
  import opened EscrowModel

  class POEscrow {
    const totalAmount: int
    const milestoneAmounts: seq<int>
    var status: EscrowStatus
    var milestonesCompleted: nat

    constructor (e: Escrow)
      ensures View() == e
    {
      totalAmount, milestoneAmounts, status, milestonesCompleted := e.total, e.amounts, e.status, e.completed;
    }

    function View(): Escrow
      reads this
    {
      Escrow(totalAmount, milestoneAmounts, status, milestonesCompleted)
    }

    /** What the slice and reduce of the code compute. */
    function Released(): int
      reads this
    {
      ReleasedAmount(View())
    }
  }

  class ManufacturingEscrow {
    var pendingEscrows: map<string, POEscrow>
    /** The escrows as values. */
    ghost var model: map<string, Escrow>

    /** Records and values agree, and every escrow is one made here, after some run of calls. */
    ghost predicate Valid()
      reads this, pendingEscrows.Values
    {
      Records() && Made()
    }

    ghost predicate Made()
      reads this`model
    {
      forall id :: id in model ==> FromRun(model[id])
    }

    ghost predicate Records()
      reads this, pendingEscrows.Values
    {
      && pendingEscrows.Keys == model.Keys
      && (forall id :: id in pendingEscrows ==> pendingEscrows[id].View() == model[id])
      && (forall i, j :: i in pendingEscrows && j in pendingEscrows && i != j ==> pendingEscrows[i] != pendingEscrows[j])
    }

    constructor ()
      ensures Valid() && model == map[] && pendingEscrows == map[]
    {
      pendingEscrows, model := map[], map[];
    }

    /** The records are those of the model but for one, which has taken the effect of a call. */
    ghost predicate Changed(id: string, e: Escrow)
      reads this, pendingEscrows.Values
    {
      && pendingEscrows.Keys == model.Keys
      && (forall i :: i in pendingEscrows ==> pendingEscrows[i].View() == if i == id then e else model[i])
      && (forall i, j :: i in pendingEscrows && j in pendingEscrows && i != j ==> pendingEscrows[i] != pendingEscrows[j])
    }

    ghost method Commit(id: string, c: EscrowCall)
      requires Made() && Refusal(model, id, c) == None && Changed(id, Effect(model[id], c))
      modifies this`model
      ensures Valid() && model == After(old(model), id, c)
    {
      hide POEscrow.View, Effect, Guard, FromRun;
      AfterFromRun(model, id, c);
      model := After(model, id, c);
    }

    /** The id is the one drawn for the new escrow. */
    method CreateEscrow(totalAmount: int, milestoneAmounts: seq<int>, escrowId: string) returns (r: Result<string, EscrowError>)
      requires Valid()
      modifies this
      ensures Valid()
      ensures forall e :: e in pendingEscrows.Values ==> e in old(pendingEscrows.Values) || fresh(e)
      ensures match Opened(totalAmount, milestoneAmounts)
              case Ok(e) => r == Ok(escrowId) && model == old(model)[escrowId := e]
              case Err(error) => r == Err(error) && model == old(model) && pendingEscrows == old(pendingEscrows)
    {
      hide POEscrow.View, FromRun, Total;
      var milestoneSum := Total(milestoneAmounts);
      if milestoneSum > totalAmount {
        return Err(MilestonesExceedTotal);
      }
      OpenedFromRun(totalAmount, milestoneAmounts);
      ghost var was := pendingEscrows;
      var escrow := new POEscrow(Escrow(totalAmount, milestoneAmounts, Funded, 0));
      pendingEscrows := pendingEscrows[escrowId := escrow];
      model := model[escrowId := Escrow(totalAmount, milestoneAmounts, Funded, 0)];
      forall e | e in pendingEscrows.Values ensures e in was.Values || fresh(e) {
        var k :| k in pendingEscrows && pendingEscrows[k] == e;
        assert k != escrowId ==> was[k] in was.Values;
      }
      r := Ok(escrowId);
    }

    method ReleaseMilestone(escrowId: string, milestoneIndex: int) returns (r: Result<int, EscrowError>)
      requires Valid()
      modifies this`model, pendingEscrows.Values
      ensures Valid() && model == After(old(model), escrowId, Release(milestoneIndex))
      ensures match Refusal(old(model), escrowId, Release(milestoneIndex))
              case Some(error) => r == Err(error)
              case None => r == Ok(old(model)[escrowId].amounts[milestoneIndex])
    {
      hide Made;
      if escrowId !in pendingEscrows {
        return Err(EscrowNotFound);
      }
      var escrow := pendingEscrows[escrowId];
      assert escrow.View() == model[escrowId];
      if milestoneIndex >= |escrow.milestoneAmounts| {
        return Err(InvalidIndex);
      }
      if milestoneIndex < escrow.milestonesCompleted {
        return Err(AlreadyReleased);
      }
      if milestoneIndex > escrow.milestonesCompleted {
        return Err(PreviousFirst);
      }
      var amount := escrow.milestoneAmounts[milestoneIndex];
      escrow.milestonesCompleted := escrow.milestonesCompleted + 1;
      if escrow.milestonesCompleted == |escrow.milestoneAmounts| {
        escrow.status := Complete;
      } else if escrow.milestonesCompleted == 1 {
        escrow.status := Milestone1;
      } else if escrow.milestonesCompleted == 2 {
        escrow.status := Milestone2;
      }
      Commit(escrowId, Release(milestoneIndex));
      r := Ok(amount);
    }

    method RaiseDispute(escrowId: string) returns (r: Option<EscrowError>)
      requires Valid()
      modifies this`model, pendingEscrows.Values
      ensures Valid() && model == After(old(model), escrowId, Dispute)
      ensures r == Refusal(old(model), escrowId, Dispute)
    {
      if escrowId !in pendingEscrows {
        return Some(EscrowNotFound);
      }
      var escrow := pendingEscrows[escrowId];
      assert escrow.View() == model[escrowId];
      if escrow.status == Disputed {
        return Some(AlreadyDisputed);
      }
      if escrow.status == Complete || escrow.status == Refunded {
        return Some(AlreadySettled);
      }
      escrow.status := Disputed;
      Commit(escrowId, Dispute);
      r := None;
    }

    /** Answers the buyer's and the manufacturer's part. */
    method ResolveDispute(escrowId: string, buyerPercent: real) returns (r: Result<(int, int), EscrowError>)
      requires Valid()
      modifies this`model, pendingEscrows.Values
      ensures Valid() && model == After(old(model), escrowId, Resolve(buyerPercent))
      ensures match Refusal(old(model), escrowId, Resolve(buyerPercent))
              case Some(error) => r == Err(error)
              case None => r.Ok? && Pays(old(model)[escrowId], Resolve(buyerPercent)) == Some(Split(r.value.0, r.value.1))
    {
      hide TruncatedDiv, ReleasedAmount, IsWhole, Made;
      if escrowId !in pendingEscrows {
        return Err(EscrowNotFound);
      }
      var escrow := pendingEscrows[escrowId];
      assert escrow.View() == model[escrowId];
      if escrow.status != Disputed {
        return Err(NotDisputed);
      }
      if buyerPercent < 0.0 || buyerPercent > 100.0 {
        return Err(PercentOutOfRange);
      }
      if !IsWhole(buyerPercent) {
        return Err(PercentNotWhole);
      }
      var remainingAmount := escrow.totalAmount - escrow.Released();
      var buyerAmount := TruncatedDiv(remainingAmount * buyerPercent.Floor, 100);
      var manufacturerAmount := remainingAmount - buyerAmount;
      if buyerPercent == 100.0 {
        escrow.status := Refunded;
      } else if buyerPercent == 0.0 {
        escrow.status := Complete;
      }
      Commit(escrowId, Resolve(buyerPercent));
      r := Ok((buyerAmount, manufacturerAmount));
    }

    method RefundBuyer(escrowId: string) returns (r: Result<int, EscrowError>)
      requires Valid()
      modifies this`model, pendingEscrows.Values
      ensures Valid() && model == After(old(model), escrowId, Refund)
      ensures match Refusal(old(model), escrowId, Refund)
              case Some(error) => r == Err(error)
              case None => r.Ok? && Pays(old(model)[escrowId], Refund) == Some(Refunding(r.value))
    {
      hide ReleasedAmount, Made;
      if escrowId !in pendingEscrows {
        return Err(EscrowNotFound);
      }
      var escrow := pendingEscrows[escrowId];
      assert escrow.View() == model[escrowId];
      if escrow.status == Refunded {
        return Err(AlreadyRefunded);
      }
      if escrow.status == Complete {
        return Err(AlreadyComplete);
      }
      var refundAmount := escrow.totalAmount - escrow.Released();
      escrow.status := Refunded;
      Commit(escrowId, Refund);
      r := Ok(refundAmount);
    }

    /** An escrow without negative amounts never owes more than its total nor less than nothing, and its status tells
        what has been released. */
    lemma EveryEscrowIsSound(id: string)
      requires Valid() && id in model
      ensures model[id].completed <= |model[id].amounts| && StatusFits(model[id])
      ensures NonNegative(model[id].amounts) ==> 0 <= RemainingAmount(model[id]) <= model[id].total
    {
      FromRunIsSound(model[id]);
    }

    method GetReleasedAmount(escrowId: string) returns (amount: int)
      requires Valid()
      ensures amount == if escrowId in model then ReleasedAmount(model[escrowId]) else 0
    {
      if escrowId !in pendingEscrows {
        return 0;
      }
      amount := pendingEscrows[escrowId].Released();
    }

    method GetRemainingAmount(escrowId: string) returns (amount: int)
      requires Valid()
      ensures amount == if escrowId in model then RemainingAmount(model[escrowId]) else 0
    {
      if escrowId !in pendingEscrows {
        return 0;
      }
      var released := GetReleasedAmount(escrowId);
      assert pendingEscrows[escrowId].View() == model[escrowId];
      amount := pendingEscrows[escrowId].totalAmount - released;
    }
  }
}
