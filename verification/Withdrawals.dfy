/** WithdrawalsService. */
module Withdrawals {
  import opened Base
  import opened Sums
  import opened Policy
  import opened Accounts
  import opened Limits
  import opened State
  import opened Frames

  function Account(r: Withdrawal): Acct {
    Acct(r.user, IRR)
  }

  /** A new request. `destinationOk`: a payout destination was given and resolves. */
  function Make(db: Db, user: UserId, amount: int, purpose: Purpose, destinationOk: bool, at: Stamp,
                policies: Policies): Result<Db>
  {
    var (id, a) := (db.nextId, Acct(user, IRR));
    var w := GetOrCreate(db.wallet, a);
    if amount <= 0 || UsableCapacity(Row(w, a)) < amount || (purpose.P2P? && !destinationOk) then
      Err(BadRequest)
    else
      var quota :- ReserveBoth(db.quota, user, WithdrawIrr, NotionalIrr, All, at, amount, Withdraw(id), policies);
      var wallet :- ReserveFunds(w, a, Withdraw(id), amount);
      var status := if purpose.P2P? then WaitingAssignment else RequestStatus.Pending;
      Ok(db.(wallet := wallet, quota := quota, nextId := id + 1,
             withdrawals := db.withdrawals[id := Withdrawal(user, amount, purpose, status, 0, 0, None, at)]))
  }

  function KeyOf(user: UserId, key: Option<nat>): Option<RequestKey> {
    if key.Some? then Some(WithdrawalKey(user, key.value)) else None
  }

  /** Returns the request made, or the one made before under the same key; the account is opened in either case. */
  function Create(db: Db, user: UserId, amount: int, purpose: Purpose, key: Option<nat>, destinationOk: bool, at: Stamp,
                  policies: Policies): Result<(Db, Id)>
  {
    var k := KeyOf(user, key);
    if amount <= 0 then Err(BadRequest)
    else if Found(db, k) then Ok((db.(wallet := GetOrCreate(db.wallet, Acct(user, IRR))), db.requests[k.value]))
    else
      var db1 :- Make(db, user, amount, purpose, destinationOk, at, policies);
      Ok((Stored(db1, k, db.nextId), db.nextId))
  }

  function Approve(db: Db, id: Id): Result<Db> {
    if id !in db.withdrawals then Err(NotFound) else
      var r := db.withdrawals[id];
      if r.tx.Some? then
        Ok(db)
      else if !r.status.Pending? && !r.status.Approved? then
        Err(BadStatus)
      else
        var a := Account(r);
        var w1 :- ConsumeFunds(db.wallet, a, Withdraw(id));
        if UsableCapacity(Row(w1, a)) < r.amount then
          Err(InsufficientCredit)
        else
          var w2 :- ApplyTransaction(w1, a, Minus(r.amount), Withdraw(id), None);
          Ok(db.(wallet := w2, quota := Consume(db.quota, Withdraw(id)),
                 withdrawals := db.withdrawals[id := r.(status := RequestStatus.Approved, tx := Some(|w1.ledger|))]))
  }

  /** What rejecting and cancelling a request have in common. */
  function Drop(db: Db, id: Id, status: RequestStatus): Result<Db>
    requires id in db.withdrawals
  {
    var r := db.withdrawals[id];
    var wallet :- ReleaseFunds(db.wallet, Account(r), Withdraw(id));
    Ok(db.(wallet := wallet, quota := Release(db.quota, Withdraw(id)),
           withdrawals := db.withdrawals[id := r.(status := status)]))
  }

  function Reject(db: Db, id: Id): (r: Result<Db>)
    ensures r.Ok? ==> Decides(db, r.value, Withdraw(id))
  {
    if id !in db.withdrawals then
      Err(NotFound)
    else if db.withdrawals[id].status.Rejected? then
      Ok(db)
    else if db.withdrawals[id].tx.Some? || !db.withdrawals[id].status.Pending? then
      Err(BadStatus)
    else
      Drop(db, id, RequestStatus.Rejected)
  }

  function Cancel(db: Db, id: Id): (r: Result<Db>)
    ensures r.Ok? ==> Decides(db, r.value, Withdraw(id))
  {
    if id !in db.withdrawals then Err(NotFound) else
      var r := db.withdrawals[id];
      if r.status.Cancelled? || r.status.Reversed? then
        Ok(db)
      else if r.tx.Some? || r.status.Approved? then
        Err(BadStatus)
      else if !r.status.Pending? && !r.status.Rejected? then
        Ok(db)
      else
        Drop(db, id, RequestStatus.Cancelled)
  }

  // ---------------------------------------------------------------- lemmas

  lemma ApproveWrites(db: Db, id: Id)
    requires Approve(db, id).Ok?
    ensures var db' := Approve(db, id).value;
            db' == db || db' == db.(wallet := db'.wallet, quota := Consume(db.quota, Withdraw(id)),
                                    withdrawals := db'.withdrawals)
  {
    hide ConsumeFunds, ApplyTransaction, Consume, Row, UsableCapacity;
  }

  lemma ApproveDecides(db: Db, id: Id)
    requires Approve(db, id).Ok?
    ensures Decides(db, Approve(db, id).value, Withdraw(id))
  {
    hide Approve, Consume, Release;
    ApproveWrites(db, id);
  }

  lemma MakeAdds(db: Db, user: UserId, amount: int, purpose: Purpose, destinationOk: bool, at: Stamp,
                 policies: Policies)
    requires Make(db, user, amount, purpose, destinationOk, at, policies).Ok?
    ensures Adds(db, Make(db, user, amount, purpose, destinationOk, at, policies).value)
    ensures Make(db, user, amount, purpose, destinationOk, at, policies).value.remittances == db.remittances
  {
    hide ReserveBoth, ReserveFunds, GetOrCreate, Row, UsableCapacity;
  }

  lemma CreateAside(db: Db, user: UserId, amount: int, purpose: Purpose, key: Option<nat>, destinationOk: bool,
                    at: Stamp, policies: Policies)
    requires Create(db, user, amount, purpose, key, destinationOk, at, policies).Ok?
    ensures var db' := Create(db, user, amount, purpose, key, destinationOk, at, policies).value.0;
            Aside(db, db') && RemittancesAside(db, db')
  {
    hide Make, GetOrCreate;
    if !Found(db, KeyOf(user, key)) {
      MakeAdds(db, user, amount, purpose, destinationOk, at, policies);
    }
  }

  /** Only direct requests are ever pending, and a pending one has its funds and its volume reserved. */
  lemma PendingKnown(db: Db, id: Id)
    requires Inv(db) && id in db.withdrawals
    requires var r := db.withdrawals[id]; r.status.Pending? || r.status.Approved? || r.status.Rejected?
    ensures var r := db.withdrawals[id];
            && WithdrawalSound(r) && r.purpose.Direct?
            && ViewOf(db, Withdraw(id)) == WithdrawalView(r)
    ensures var r := db.withdrawals[id];
            && HoldsOf(db.wallet.holds, Withdraw(id)) == map[Account(r) := Hold(r.amount, WithdrawalFate(r))]
            && LimitsOf(db.quota.limits, Withdraw(id)) ==
               Both(r.user, WithdrawIrr, NotionalIrr, All, r.created, Hold(r.amount, WithdrawalFate(r)))
            && (!r.status.Approved? ==> MovesOf(db.wallet.ledger, Withdraw(id)) == [])
  {
    hide HoldsOf, LimitsOf, MovesOf, Total, Sound, QuotaSound;
    assert Explained(db, Withdraw(id));
    assert WithdrawalTotals(id, db.withdrawals[id], db.allocations);
  }

  /** Approving a pending withdrawal never fails. */
  lemma ApproveSucceeds(db: Db, id: Id)
    requires Inv(db) && id in db.withdrawals && db.withdrawals[id].status.Pending?
    ensures Approve(db, id).Ok?
    ensures var (db', ref, r) := (Approve(db, id).value, Withdraw(id), db.withdrawals[id]);
            && Effect(db.wallet, db'.wallet, ref, map[Account(r) := Hold(r.amount, Consumed)],
                      [MoveOf(Account(r), Minus(r.amount))])
            && (forall j | |db.wallet.ledger| <= j < |db'.wallet.ledger| :: db'.wallet.ledger[j].reversalOf.None?)
            && db' == db.(wallet := db'.wallet, quota := Consume(db.quota, ref),
                          withdrawals := db.withdrawals[id :=
                                                        r.(status := RequestStatus.Approved,
                                                           tx := Some(|db.wallet.ledger|))])
  {
    hide Inv, Effect, Sound, QuotaSound, Explained, IdsSound, RowsSound, TotalsSound, LinksSound, ReversalsSound,
         HoldsOf, LimitsOf, MovesOf, ViewOf, Both, Row, ConsumeFunds, Consume;
    Known(db, Withdraw(id));
    PendingKnown(db, id);
    var r := db.withdrawals[id];
    ReservationPays(db.wallet, Account(r), Withdraw(id), r.amount);
  }

  lemma Shown(db: Db, id: Id)
    requires id in db.withdrawals && db.withdrawals[id].assignedTotal == 0
    requires db.withdrawals[id].purpose.P2P? ==> !db.withdrawals[id].status.Approved?
    requires var (r, h) := (db.withdrawals[id], Hold(db.withdrawals[id].amount, WithdrawalFate(db.withdrawals[id])));
             && HoldsOf(db.wallet.holds, Withdraw(id)) == map[Account(r) := h]
             && LimitsOf(db.quota.limits, Withdraw(id)) == Both(r.user, WithdrawIrr, NotionalIrr, All, r.created, h)
             && MovesOf(db.wallet.ledger, Withdraw(id)) ==
                if r.status.Approved? then [MoveOf(Account(r), Minus(r.amount))] else []
    ensures Explained(db, Withdraw(id))
  {
    hide HoldsOf, LimitsOf, MovesOf, Both;
  }

  lemma ApproveKeepsInv(db: Db, id: Id)
    requires Inv(db) && Approve(db, id).Ok?
    ensures Inv(Approve(db, id).value)
    ensures OnlyOn(db, Approve(db, id).value, Withdraw(id))
  {
    hide Inv, Sound, QuotaSound, IdsSound, RowsSound, TotalsSound, LinksSound, ReversalsSound, Agree, Explained,
         HoldsOf, LimitsOf, MovesOf, Both, Issued, Adjusted, Consume, Release, Row, ConsumeFunds, ApplyTransaction,
         UsableCapacity;
    var (db', ref) := (Approve(db, id).value, Withdraw(id));
    if db' != db {
      PendingKnown(db, id);
      ApproveSucceeds(db, id);
      hide Approve;
      Known(db, ref);
      var (r, r') := (db.withdrawals[id], db'.withdrawals[id]);
      SettleBoth(db.quota, ref, r.user, WithdrawIrr, NotionalIrr, All, r.created, r.amount);
      Shown(db', id);
      WithdrawalRow(db, db', id, r');
      IssuedAfterWithdrawal(db, db', id, r');
      ReversalsKept(db.wallet.ledger, db'.wallet.ledger, db.trades, db'.trades);
      OneRequest(db, db', ref, map[Account(r) := Hold(r.amount, Consumed)],
                 LimitsOf(db'.quota.limits, ref), [MoveOf(Account(r), Minus(r.amount))]);
    }
  }

  /** Dropping a pending request releases all it reserved; dropping a rejected one finds it released. */
  lemma DropSucceeds(db: Db, id: Id, status: RequestStatus)
    requires Inv(db) && id in db.withdrawals &&
             (db.withdrawals[id].status.Pending? || db.withdrawals[id].status.Rejected?)
    ensures Drop(db, id, status).Ok?
    ensures var (db', ref, r) := (Drop(db, id, status).value, Withdraw(id), db.withdrawals[id]);
            && Effect(db.wallet, db'.wallet, ref, map[Account(r) := Hold(r.amount, Released)], [])
            && db'.wallet.ledger == db.wallet.ledger
            && db' == db.(wallet := db'.wallet, quota := Release(db.quota, ref),
                          withdrawals := db.withdrawals[id := r.(status := status)])
  {
    hide Inv, Effect, Sound, QuotaSound, Explained, IdsSound, RowsSound, TotalsSound, LinksSound, ReversalsSound,
         HoldsOf, LimitsOf, MovesOf, ViewOf, Both, Row, ReleaseFunds, Release;
    Known(db, Withdraw(id));
    PendingKnown(db, id);
    var r := db.withdrawals[id];
    if r.status.Pending? {
      ReleaseHeld(db.wallet, Account(r), Withdraw(id), r.amount);
    } else {
      ReleaseAgain(db.wallet, Account(r), Withdraw(id), r.amount);
    }
  }

  lemma DropKeepsInv(db: Db, id: Id, status: RequestStatus)
    requires Inv(db) && id in db.withdrawals &&
             (db.withdrawals[id].status.Pending? || db.withdrawals[id].status.Rejected?)
    requires status.Rejected? || status.Cancelled?
    ensures Drop(db, id, status).Ok? && Inv(Drop(db, id, status).value)
    ensures OnlyOn(db, Drop(db, id, status).value, Withdraw(id))
  {
    hide Inv, Sound, QuotaSound, IdsSound, RowsSound, TotalsSound, LinksSound, ReversalsSound, Agree, Explained,
         HoldsOf, LimitsOf, MovesOf, Both, Issued, Adjusted, Consume, Release, Row, ReleaseFunds, Net, Drop;
    var ref := Withdraw(id);
    DropSucceeds(db, id, status);
    PendingKnown(db, id);
    Known(db, ref);
    var (db', r) := (Drop(db, id, status).value, db.withdrawals[id]);
    if r.status.Pending? {
      SettleBoth(db.quota, ref, r.user, WithdrawIrr, NotionalIrr, All, r.created, r.amount);
    } else {
      ReleasedBoth(db.quota, ref, r.user, WithdrawIrr, NotionalIrr, All, r.created, r.amount);
    }
    NetNil();
    Shown(db', id);
    WithdrawalRow(db, db', id, db'.withdrawals[id]);
    IssuedAfterWithdrawal(db, db', id, db'.withdrawals[id]);
    ReversalsKept(db.wallet.ledger, db'.wallet.ledger, db.trades, db'.trades);
    OneRequest(db, db', ref, map[Account(r) := Hold(r.amount, Released)], LimitsOf(db'.quota.limits, ref), []);
  }

  lemma RejectKeepsInv(db: Db, id: Id)
    requires Inv(db) && Reject(db, id).Ok?
    ensures Inv(Reject(db, id).value)
    ensures OnlyOn(db, Reject(db, id).value, Withdraw(id))
  {
    hide Inv, Drop;
    if Reject(db, id).value != db {
      DropKeepsInv(db, id, RequestStatus.Rejected);
    }
  }

  lemma CancelKeepsInv(db: Db, id: Id)
    requires Inv(db) && Cancel(db, id).Ok?
    ensures Inv(Cancel(db, id).value)
    ensures OnlyOn(db, Cancel(db, id).value, Withdraw(id))
  {
    hide Inv, Drop;
    if Cancel(db, id).value != db {
      DropKeepsInv(db, id, RequestStatus.Cancelled);
    }
  }

  lemma MakeKeepsInv(db: Db, user: UserId, amount: int, purpose: Purpose, destinationOk: bool, at: Stamp,
                     policies: Policies)
    requires Inv(db) && Make(db, user, amount, purpose, destinationOk, at, policies).Ok?
    ensures Inv(Make(db, user, amount, purpose, destinationOk, at, policies).value)
    ensures OnlyOn(db, Make(db, user, amount, purpose, destinationOk, at, policies).value, Withdraw(db.nextId))
  {
    hide Inv, Sound, QuotaSound, IdsSound, RowsSound, TotalsSound, LinksSound, ReversalsSound, Agree, Explained,
         HoldsOf, LimitsOf, MovesOf, Both, Issued, Adjusted, ReserveBoth, Row, UsableCapacity, Net;
    var (db', id, a) := (Make(db, user, amount, purpose, destinationOk, at, policies).value, db.nextId,
                         Acct(user, IRR));
    var ref := Withdraw(id);
    assert ReserveFunds(GetOrCreate(db.wallet, a), a, ref, amount) == ReserveFunds(db.wallet, a, ref, amount);
    hide ReserveFunds, GetOrCreate;
    Known(db, ref);
    FreshReference(db, ref);
    ReserveFresh(db.wallet, a, ref, amount);
    ReserveBothFresh(db.quota, user, WithdrawIrr, NotionalIrr, All, at, amount, ref, policies);
    NetNil();
    Shown(db', id);
    FreshWithdrawal(db, db', db'.withdrawals[id]);
    IssuedAfterWithdrawal(db, db', id, db'.withdrawals[id]);
    ReversalsKept(db.wallet.ledger, db'.wallet.ledger, db.trades, db'.trades);
    assert id !in db.withdrawals by {
      IdUnused(db);
    }
    OneRequest(db, db', ref, map[a := Hold(amount, Reserved)], LimitsOf(db'.quota.limits, ref), []);
  }

  /** What a new request takes, and that its amount is then held on the account: the reservation itself never fails. */
  lemma MakeSucceedsIff(db: Db, user: UserId, amount: int, purpose: Purpose, destinationOk: bool, at: Stamp,
                        policies: Policies)
    requires Inv(db)
    ensures var (a, r) := (Acct(user, IRR), Make(db, user, amount, purpose, destinationOk, at, policies));
            && (r.Ok? <==>
                  && amount > 0 && UsableCapacity(Row(db.wallet, a)) >= amount && (purpose.P2P? ==> destinationOk)
                  && BothAllow(db.quota, user, WithdrawIrr, NotionalIrr, All, at, amount, policies))
            && (r.Ok? ==> HoldsOf(r.value.wallet.holds, Withdraw(db.nextId)) == map[a := Hold(amount, Reserved)])
  {
    hide Inv, Sound, QuotaSound, IdsSound, RowsSound, TotalsSound, LinksSound, ReversalsSound, Explained, HoldsOf,
         LimitsOf, MovesOf, ReserveBoth, BothAllow, UsableCapacity;
    var (ref, a) := (Withdraw(db.nextId), Acct(user, IRR));
    Known(db, ref);
    FreshReference(db, ref);
    ReserveBothIff(db.quota, user, WithdrawIrr, NotionalIrr, All, at, amount, ref, policies);
    ReserveIff(db.wallet, a, ref, amount);
    assert ReserveFunds(GetOrCreate(db.wallet, a), a, ref, amount) == ReserveFunds(db.wallet, a, ref, amount);
    assert Row(GetOrCreate(db.wallet, a), a) == Row(db.wallet, a);
    hide ReserveFunds, GetOrCreate, Row;
    if Make(db, user, amount, purpose, destinationOk, at, policies).Ok? {
      ReserveFresh(db.wallet, a, ref, amount);
      EffectSound(db.wallet, ReserveFunds(db.wallet, a, ref, amount).value, ref, map[a := Hold(amount, Reserved)], []);
    }
  }

  lemma CreateKeepsInv(db: Db, user: UserId, amount: int, purpose: Purpose, key: Option<nat>, destinationOk: bool,
                       at: Stamp, policies: Policies)
    requires Inv(db) && Create(db, user, amount, purpose, key, destinationOk, at, policies).Ok?
    ensures Inv(Create(db, user, amount, purpose, key, destinationOk, at, policies).value.0)
    ensures OnlyOn(db, Create(db, user, amount, purpose, key, destinationOk, at, policies).value.0, Withdraw(db.nextId))
  {
    hide Inv, HoldsOf, LimitsOf, MovesOf, Make, OnlyOn, GetOrCreate, Stored;
    if Found(db, KeyOf(user, key)) {
      OpenKeepsInv(db, Acct(user, IRR));
      OnlyFromSame(db, db.(wallet := GetOrCreate(db.wallet, Acct(user, IRR))), Withdraw(db.nextId));
    } else {
      MakeKeepsInv(db, user, amount, purpose, destinationOk, at, policies);
      StoredKeepsInv(db, Make(db, user, amount, purpose, destinationOk, at, policies).value, Withdraw(db.nextId),
                     KeyOf(user, key), db.nextId);
    }
  }

  /** A withdrawal is accepted exactly when its amount is positive and it repeats an earlier one, or the account can
      spare it, the limits allow it, and a destination is there if it is to be paid by others. The amount of a new one
      is then held on the account: the reservation itself never fails. One that repeats an earlier one returns that one
      and reserves nothing. */
  lemma CreateSucceedsIff(db: Db, user: UserId, amount: int, purpose: Purpose, key: Option<nat>, destinationOk: bool,
                          at: Stamp, policies: Policies)
    requires Inv(db)
    ensures var (a, k, r) := (Acct(user, IRR), KeyOf(user, key),
                              Create(db, user, amount, purpose, key, destinationOk, at, policies));
            && (r.Ok? <==>
                  && amount > 0
                  && (|| Found(db, k)
                      || (&& UsableCapacity(Row(db.wallet, a)) >= amount && (purpose.P2P? ==> destinationOk)
                          && BothAllow(db.quota, user, WithdrawIrr, NotionalIrr, All, at, amount, policies))))
            && (r.Ok? && Found(db, k) ==>
                r.value.1 == db.requests[k.value] && r.value.0 == db.(wallet := GetOrCreate(db.wallet, a)))
            && (r.Ok? && !Found(db, k) ==>
                  && r.value.1 == db.nextId && r.value.0.requests == Stored(db, k, db.nextId).requests
                  && HoldsOf(r.value.0.wallet.holds, Withdraw(db.nextId)) == map[a := Hold(amount, Reserved)])
  {
    hide Inv, HoldsOf, Make, BothAllow, UsableCapacity, GetOrCreate, Row;
    MakeSucceedsIff(db, user, amount, purpose, destinationOk, at, policies);
    if Make(db, user, amount, purpose, destinationOk, at, policies).Ok? {
      MakeAdds(db, user, amount, purpose, destinationOk, at, policies);
    }
  }

}
