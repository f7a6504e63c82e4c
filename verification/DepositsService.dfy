/** DepositsService, statement by statement. */
module DepositsService {
  import opened Base
  import opened State
  import opened Store
  import AccountsService
  import Deposits

  method Create(tx: Database, user: UserId, amount: int, purpose: Purpose)
    modifies tx
    ensures tx.State() == Deposits.Create(old(tx.State()), user, amount, purpose)
    ensures Inv(old(tx.State())) ==> Inv(tx.State())
  {
    hide Inv;
    if Inv(tx.State()) {
      Deposits.CreateKeepsInv(tx.State(), user, amount, purpose);
    }
    var status := if purpose.P2P? then WaitingAssignment else RequestStatus.Pending;
    var remaining := if purpose.P2P? then Some(amount) else None;
    tx.deposits := tx.deposits[tx.nextId := DepositRequest(user, amount, purpose, status, remaining, 0, 0, None)];
    tx.nextId := tx.nextId + 1;
  }

  method ApproveBody(tx: Database, id: Id) returns (r: Outcome)
    modifies tx
    ensures Wrote(tx.State(), Deposits.Approve(old(tx.State()), id), r)
  {
    hide Accounts.ApplyTransaction;
    if id !in tx.deposits {
      return Failed(NotFound);
    }
    var deposit := tx.deposits[id];
    if deposit.tx.Some? {
      return Done;
    }
    if !deposit.status.Pending? && !deposit.status.Approved? {
      return Failed(BadStatus);
    }
    var a := Acct(deposit.user, IRR);
    var _ := AccountsService.GetOrCreateAccount(tx, a);
    var applied, posted := AccountsService.ApplyTransaction(tx, a, Plus(deposit.amount), Ref.Deposit(id), None);
    :- applied;
    tx.deposits := tx.deposits[id := deposit.(status := RequestStatus.Approved, tx := Some(posted))];
    return Done;
  }

  method Approve(tx: Database, id: Id) returns (r: Outcome)
    modifies tx
    ensures Committed(old(tx.State()), tx.State(), Deposits.Approve(old(tx.State()), id), r)
    ensures Inv(old(tx.State())) ==> Inv(tx.State())
  {
    hide Deposits.Approve, Inv;
    var before := tx.State();
    r := ApproveBody(tx, id);
    if r.Failed? {
      tx.Restore(before);
    } else if Inv(before) {
      Deposits.ApproveKeepsInv(before, id);
    }
  }

  method Reject(tx: Database, id: Id) returns (r: Outcome)
    modifies tx
    ensures Committed(old(tx.State()), tx.State(), Deposits.Reject(old(tx.State()), id), r)
    ensures Inv(old(tx.State())) ==> Inv(tx.State())
  {
    hide Inv;
    if Inv(tx.State()) && Deposits.Reject(tx.State(), id).Ok? {
      Deposits.RejectKeepsInv(tx.State(), id);
    }
    if id !in tx.deposits {
      return Failed(NotFound);
    }
    var deposit := tx.deposits[id];
    if !deposit.status.Pending? {
      return Failed(BadStatus);
    }
    tx.deposits := tx.deposits[id := deposit.(status := RequestStatus.Rejected)];
    return Done;
  }

  method CancelBody(tx: Database, id: Id) returns (r: Outcome)
    modifies tx
    ensures Wrote(tx.State(), Deposits.Cancel(old(tx.State()), id), r)
  {
    hide Accounts.ApplyTransaction;
    if id !in tx.deposits {
      return Failed(NotFound);
    }
    var deposit := tx.deposits[id];
    if deposit.status.Cancelled? || deposit.status.Reversed? {
      return Done;
    }
    if deposit.status.Pending? || deposit.status.Rejected? {
      tx.deposits := tx.deposits[id := deposit.(status := RequestStatus.Cancelled)];
      return Done;
    }
    if deposit.status.Approved? {
      if deposit.tx.Some? && deposit.tx.value < |tx.ledger| {
        var applied, _ := AccountsService.ApplyTransaction(tx, tx.ledger[deposit.tx.value].acct, Minus(deposit.amount),
                                                           Ref.Deposit(id), None);
        :- applied;
      }
      tx.deposits := tx.deposits[id := deposit.(status := RequestStatus.Reversed)];
    }
    return Done;
  }

  method Cancel(tx: Database, id: Id) returns (r: Outcome)
    modifies tx
    ensures Committed(old(tx.State()), tx.State(), Deposits.Cancel(old(tx.State()), id), r)
    ensures Inv(old(tx.State())) ==> Inv(tx.State())
  {
    hide Deposits.Cancel, Inv;
    var before := tx.State();
    r := CancelBody(tx, id);
    if r.Failed? {
      tx.Restore(before);
    } else if Inv(before) {
      Deposits.CancelKeepsInv(before, id);
    }
  }
}
