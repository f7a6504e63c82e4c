/** WithdrawalsService, statement by statement: each transaction does what its function in `Withdrawals` says. */
module WithdrawalsService {
  import opened Base
  import opened Policy
  import opened Accounts
  import opened Limits
  import opened State
  import opened Store
  import AccountsService
  import LimitsService
  import Withdrawals

  method Insert(tx: Database, row: Withdrawal, key: Option<RequestKey>) returns (id: Id)
    modifies tx`nextId, tx`withdrawals, tx`requests
    ensures id == old(tx.nextId)
    ensures tx.State() == old(tx.State()).(nextId := id + 1, withdrawals := old(tx.withdrawals)[id := row],
                                           requests := Indexed(old(tx.requests), key, id))
  {
    id := tx.nextId;
    tx.nextId := id + 1;
    tx.withdrawals := tx.withdrawals[id := row];
    tx.requests := Indexed(tx.requests, key, id);
  }

  lemma OpenAlready(w: Wallet, a: Acct)
    requires a in w.accounts
    ensures GetOrCreate(w, a) == w && Row(w, a) == w.accounts[a]
  {
  }

  method New(tx: Database, user: UserId, amount: int, purpose: Purpose, key: Option<nat>, destinationOk: bool,
             at: Stamp, policies: Policies)
    returns (r: Outcome, id: Id)
    requires amount > 0 && Acct(user, IRR) in tx.accounts
    modifies tx
    ensures id == old(tx.nextId)
    ensures WroteIndexed(tx.State(),
                         Withdrawals.Make(old(tx.State()), user, amount, purpose, destinationOk, at, policies),
                         Indexed(old(tx.requests), Withdrawals.KeyOf(user, key), id), r)
  {
    hide Accounts.ReserveFunds, Limits.ReserveBoth, UsableCapacity, Indexed, Row, GetOrCreate;
    id := tx.nextId;
    OpenAlready(tx.Books(), Acct(user, IRR));
    if UsableCapacity(tx.accounts[Acct(user, IRR)]) < amount {
      return Failed(BadRequest), id;
    }
    if purpose.P2P? && !destinationOk {
      return Failed(BadRequest), id;
    }
    var status := if purpose.P2P? then WaitingAssignment else RequestStatus.Pending;
    id := Insert(tx, Withdrawal(user, amount, purpose, status, 0, 0, None, at), Withdrawals.KeyOf(user, key));
    :- LimitsService.ReserveBoth(tx, user, WithdrawIrr, NotionalIrr, All, at, amount, Withdraw(id), policies);
    r := AccountsService.ReserveFunds(tx, Acct(user, IRR), Withdraw(id), amount);
  }

  lemma MakeOpens(db: Db, user: UserId, amount: int, purpose: Purpose, destinationOk: bool, at: Stamp,
                  policies: Policies)
    ensures Withdrawals.Make(db.(wallet := Accounts.GetOrCreate(db.wallet, Acct(user, IRR))), user, amount, purpose,
                             destinationOk, at, policies)
         == Withdrawals.Make(db, user, amount, purpose, destinationOk, at, policies)
  {
    hide Accounts.ReserveFunds, Limits.ReserveBoth, UsableCapacity;
  }

  method CreateBody(tx: Database, user: UserId, amount: int, purpose: Purpose, key: Option<nat>, destinationOk: bool,
                    at: Stamp, policies: Policies) returns (r: Outcome, id: Id)
    modifies tx
    ensures WroteNew(tx.State(),
                     Withdrawals.Create(old(tx.State()), user, amount, purpose, key, destinationOk, at, policies), r,
                     id)
  {
    hide Accounts.GetOrCreate, Withdrawals.Make;
    if amount <= 0 {
      return Failed(BadRequest), 0;
    }
    MakeOpens(tx.State(), user, amount, purpose, destinationOk, at, policies);
    var _ := AccountsService.GetOrCreateAccount(tx, Acct(user, IRR));
    if key.Some? && WithdrawalKey(user, key.value) in tx.requests {
      return Done, tx.requests[WithdrawalKey(user, key.value)];
    }
    ghost var begun := tx.State();
    r, id := New(tx, user, amount, purpose, key, destinationOk, at, policies);
    if r.Done? {
      Withdrawals.MakeAdds(begun, user, amount, purpose, destinationOk, at, policies);
    }
  }

  /** A request repeated under its key returns the one made before. */
  method Create(tx: Database, user: UserId, amount: int, purpose: Purpose, key: Option<nat>, destinationOk: bool,
                at: Stamp, policies: Policies) returns (r: Outcome, id: Id)
    modifies tx
    ensures CommittedNew(old(tx.State()), tx.State(),
                         Withdrawals.Create(old(tx.State()), user, amount, purpose, key, destinationOk, at, policies),
                         r, id)
    ensures Inv(old(tx.State())) ==> Inv(tx.State())
  {
    hide Withdrawals.Create, Inv;
    var before := tx.State();
    r, id := CreateBody(tx, user, amount, purpose, key, destinationOk, at, policies);
    if r.Failed? {
      tx.Restore(before);
    } else if Inv(before) {
      Withdrawals.CreateKeepsInv(before, user, amount, purpose, key, destinationOk, at, policies);
    }
  }

  method ApproveBody(tx: Database, id: Id) returns (r: Outcome)
    modifies tx
    ensures Wrote(tx.State(), Withdrawals.Approve(old(tx.State()), id), r)
  {
    hide Accounts.ConsumeFunds, Accounts.ApplyTransaction, Limits.Consume, UsableCapacity;
    if id !in tx.withdrawals {
      return Failed(NotFound);
    }
    var withdraw := tx.withdrawals[id];
    if withdraw.tx.Some? {
      return Done;
    }
    if !withdraw.status.Pending? && !withdraw.status.Approved? {
      return Failed(BadStatus);
    }
    var a := Acct(withdraw.user, IRR);
    ghost var before := tx.Books();
    var _ := AccountsService.GetOrCreateAccount(tx, a);
    AccountsService.ConsumeOpens(before, a, Withdraw(id));
    :- AccountsService.ConsumeFunds(tx, a, Withdraw(id));
    var account := AccountsService.GetOrCreateAccount(tx, a);
    if UsableCapacity(account) < withdraw.amount {
      return Failed(InsufficientCredit);
    }
    var applied, posted := AccountsService.ApplyTransaction(tx, a, Minus(withdraw.amount), Withdraw(id), None);
    :- applied;
    LimitsService.Consume(tx, Withdraw(id));
    tx.withdrawals := tx.withdrawals[id := withdraw.(status := RequestStatus.Approved, tx := Some(posted))];
    return Done;
  }

  method Approve(tx: Database, id: Id) returns (r: Outcome)
    modifies tx
    ensures Committed(old(tx.State()), tx.State(), Withdrawals.Approve(old(tx.State()), id), r)
    ensures Inv(old(tx.State())) ==> Inv(tx.State())
  {
    hide Withdrawals.Approve, Inv;
    var before := tx.State();
    r := ApproveBody(tx, id);
    if r.Failed? {
      tx.Restore(before);
    } else if Inv(before) {
      Withdrawals.ApproveKeepsInv(before, id);
    }
  }

  method RejectBody(tx: Database, id: Id) returns (r: Outcome)
    modifies tx
    ensures Wrote(tx.State(), Withdrawals.Reject(old(tx.State()), id), r)
  {
    hide Accounts.ReleaseFunds, Limits.Release;
    if id !in tx.withdrawals {
      return Failed(NotFound);
    }
    var withdraw := tx.withdrawals[id];
    if withdraw.status.Rejected? {
      return Done;
    }
    if withdraw.tx.Some? || !withdraw.status.Pending? {
      return Failed(BadStatus);
    }
    LimitsService.Release(tx, Withdraw(id));
    :- AccountsService.ReleaseFunds(tx, Acct(withdraw.user, IRR), Withdraw(id));
    tx.withdrawals := tx.withdrawals[id := withdraw.(status := RequestStatus.Rejected)];
    return Done;
  }

  method Reject(tx: Database, id: Id) returns (r: Outcome)
    modifies tx
    ensures Committed(old(tx.State()), tx.State(), Withdrawals.Reject(old(tx.State()), id), r)
    ensures Inv(old(tx.State())) ==> Inv(tx.State())
  {
    hide Withdrawals.Reject, Inv;
    var before := tx.State();
    r := RejectBody(tx, id);
    if r.Failed? {
      tx.Restore(before);
    } else if Inv(before) {
      Withdrawals.RejectKeepsInv(before, id);
    }
  }

  method CancelBody(tx: Database, id: Id) returns (r: Outcome)
    modifies tx
    ensures Wrote(tx.State(), Withdrawals.Cancel(old(tx.State()), id), r)
  {
    hide Accounts.ReleaseFunds, Limits.Release;
    if id !in tx.withdrawals {
      return Failed(NotFound);
    }
    var withdraw := tx.withdrawals[id];
    if withdraw.status.Cancelled? || withdraw.status.Reversed? {
      return Done;
    }
    if withdraw.tx.Some? || withdraw.status.Approved? {
      return Failed(BadStatus);
    }
    if !withdraw.status.Pending? && !withdraw.status.Rejected? {
      return Done;
    }
    LimitsService.Release(tx, Withdraw(id));
    :- AccountsService.ReleaseFunds(tx, Acct(withdraw.user, IRR), Withdraw(id));
    tx.withdrawals := tx.withdrawals[id := withdraw.(status := RequestStatus.Cancelled)];
    return Done;
  }

  method Cancel(tx: Database, id: Id) returns (r: Outcome)
    modifies tx
    ensures Committed(old(tx.State()), tx.State(), Withdrawals.Cancel(old(tx.State()), id), r)
    ensures Inv(old(tx.State())) ==> Inv(tx.State())
  {
    hide Withdrawals.Cancel, Inv;
    var before := tx.State();
    r := CancelBody(tx, id);
    if r.Failed? {
      tx.Restore(before);
    } else if Inv(before) {
      Withdrawals.CancelKeepsInv(before, id);
    }
  }
}
