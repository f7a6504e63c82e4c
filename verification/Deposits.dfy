/** DepositsService. */
module Deposits {
  import opened Base
  import opened Sums
  import opened Accounts
  import opened Limits
  import opened State
  import opened Frames

  function Account(d: DepositRequest): Acct {
    Acct(d.user, IRR)
  }

  function Create(db: Db, user: UserId, amount: int, purpose: Purpose): (db': Db)
    ensures Aside(db, db') && RemittancesAside(db, db') && db'.quota == db.quota && db'.requests == db.requests
  {
    var status := if purpose.P2P? then WaitingAssignment else RequestStatus.Pending;
    var remaining := if purpose.P2P? then Some(amount) else None;
    db.(deposits := db.deposits[db.nextId := DepositRequest(user, amount, purpose, status, remaining, 0, 0, None)],
        nextId := db.nextId + 1)
  }

  function Approve(db: Db, id: Id): (r: Result<Db>)
    ensures r.Ok? ==> Decides(db, r.value, Ref.Deposit(id))
  {
    if id !in db.deposits then Err(NotFound) else
      var d := db.deposits[id];
      if d.tx.Some? then
        Ok(db)
      else if !d.status.Pending? && !d.status.Approved? then
        Err(BadStatus)
      else
        var w := GetOrCreate(db.wallet, Account(d));
        var wallet :- ApplyTransaction(w, Account(d), Plus(d.amount), Ref.Deposit(id), None);
        Ok(db.(wallet := wallet,
               deposits := db.deposits[id := d.(status := RequestStatus.Approved, tx := Some(|w.ledger|))]))
  }

  function SetStatus(db: Db, id: Id, status: RequestStatus): Db
    requires id in db.deposits
  {
    db.(deposits := db.deposits[id := db.deposits[id].(status := status)])
  }

  function Reject(db: Db, id: Id): (r: Result<Db>)
    ensures r.Ok? ==> Decides(db, r.value, Ref.Deposit(id))
  {
    if id !in db.deposits then Err(NotFound)
    else if !db.deposits[id].status.Pending? then Err(BadStatus)
    else Ok(SetStatus(db, id, RequestStatus.Rejected))
  }

  function Cancel(db: Db, id: Id): (r: Result<Db>)
    ensures r.Ok? ==> Decides(db, r.value, Ref.Deposit(id))
  {
    if id !in db.deposits then Err(NotFound) else
      var d := db.deposits[id];
      if d.status.Pending? || d.status.Rejected? then
        Ok(SetStatus(db, id, RequestStatus.Cancelled))
      else if d.status.Approved? then
        if d.tx.Some? && d.tx.value < |db.wallet.ledger| then
          var a := db.wallet.ledger[d.tx.value].acct;
          var wallet :- ApplyTransaction(db.wallet, a, Minus(d.amount), Ref.Deposit(id), None);
          Ok(SetStatus(db.(wallet := wallet), id, RequestStatus.Reversed))
        else
          Ok(SetStatus(db, id, RequestStatus.Reversed))
      else
        Ok(db)
  }

  // ---------------------------------------------------------------- lemmas

  /** Only direct deposits leave the P2P statuses. */
  lemma DirectKnown(db: Db, id: Id)
    requires Inv(db) && id in db.deposits
    requires var d := db.deposits[id]; d.status.Pending? || d.status.Approved? || d.status.Rejected?
    ensures var d := db.deposits[id];
            && DepositSound(d, db.wallet.ledger) && d.purpose.Direct?
            && HoldsOf(db.wallet.holds, Ref.Deposit(id)) == map[] && LimitsOf(db.quota.limits, Ref.Deposit(id)) == map[]
            && MovesOf(db.wallet.ledger, Ref.Deposit(id)) == DepositView(d).moves
  {
    hide HoldsOf, LimitsOf, MovesOf, Total, Sound, QuotaSound, DepositView;
    assert Explained(db, Ref.Deposit(id));
    assert DepositTotals(id, db.deposits[id], db.allocations);
    EmptyHolds(db, id);
  }

  lemma EmptyHolds(db: Db, id: Id)
    requires id in db.deposits && Explained(db, Ref.Deposit(id))
    ensures HoldsOf(db.wallet.holds, Ref.Deposit(id)) == map[] && LimitsOf(db.quota.limits, Ref.Deposit(id)) == map[]
  {
    hide HoldsOf, LimitsOf, MovesOf;
  }

  lemma Shown(db: Db, id: Id)
    requires id in db.deposits
    requires HoldsOf(db.wallet.holds, Ref.Deposit(id)) == map[] && LimitsOf(db.quota.limits, Ref.Deposit(id)) == map[]
    requires MovesOf(db.wallet.ledger, Ref.Deposit(id)) == DepositView(db.deposits[id]).moves
    ensures Explained(db, Ref.Deposit(id))
  {
    hide HoldsOf, LimitsOf, MovesOf;
  }

  lemma CreateKeepsInv(db: Db, user: UserId, amount: int, purpose: Purpose)
    requires Inv(db)
    ensures Inv(Create(db, user, amount, purpose))
    ensures OnlyOn(db, Create(db, user, amount, purpose), Ref.Deposit(db.nextId))
  {
    hide Inv, Sound, QuotaSound, IdsSound, RowsSound, TotalsSound, LinksSound, ReversalsSound, Agree, Explained,
         HoldsOf, LimitsOf, MovesOf, Issued, Net, Effect, Adjusted;
    var (db', id) := (Create(db, user, amount, purpose), db.nextId);
    var ref := Ref.Deposit(id);
    Known(db, ref);
    FreshReference(db, ref);
    IdUnused(db);
    Shown(db', id);
    FreshDeposit(db, db', db'.deposits[id]);
    IssuedAfterDeposit(db, db', id, db'.deposits[id]);
    NothingPosted(db.wallet, ref);
    NetNil();
    SameQuota(db.quota, ref);
    OneRequest(db, db', ref, map[], map[], []);
  }

  lemma ApproveBooks(db: Db, id: Id)
    requires Inv(db) && Approve(db, id).Ok? && Approve(db, id).value != db
    ensures id in db.deposits &&
            (db.deposits[id].status.Pending? || db.deposits[id].status.Approved? || db.deposits[id].status.Rejected?)
    ensures var (db', ref, d) := (Approve(db, id).value, Ref.Deposit(id), db.deposits[id]);
            && d.purpose.Direct? && d.status.Pending?
            && Effect(db.wallet, db'.wallet, ref, map[], [MoveOf(Account(d), Plus(d.amount))])
            && Forward(db.wallet.ledger, db'.wallet.ledger)
            && db' == db.(wallet := db'.wallet,
                          deposits := db.deposits[id :=
                                                  d.(status := RequestStatus.Approved, tx := Some(|db.wallet.ledger|))])
            && LimitsOf(db.quota.limits, ref) == map[] && MovesOf(db.wallet.ledger, ref) == []
            && DepositSound(db'.deposits[id], db'.wallet.ledger)
  {
    hide Inv, Sound, QuotaSound, IdsSound, RowsSound, TotalsSound, LinksSound, ReversalsSound, Explained, Effect,
         HoldsOf, LimitsOf, MovesOf, Row, ApplyTransaction;
    DirectKnown(db, id);
    Known(db, Ref.Deposit(id));
    var d := db.deposits[id];
    OpenAndApply(db.wallet, Account(d), Plus(d.amount), Ref.Deposit(id));
    assert GetOrCreate(db.wallet, Account(d)).ledger == db.wallet.ledger;
  }

  /** An accepted approval posts the amount once, and never again. */
  lemma ApproveKeepsInv(db: Db, id: Id)
    requires Inv(db) && Approve(db, id).Ok?
    ensures Inv(Approve(db, id).value)
    ensures OnlyOn(db, Approve(db, id).value, Ref.Deposit(id))
  {
    hide Inv, Sound, QuotaSound, IdsSound, RowsSound, TotalsSound, LinksSound, ReversalsSound, Agree, Explained, Net,
         Approve, HoldsOf, LimitsOf, MovesOf, Issued, Adjusted;
    var (db', ref) := (Approve(db, id).value, Ref.Deposit(id));
    if db' != db {
      ApproveBooks(db, id);
      Known(db, ref);
      var d := db.deposits[id];
      NetOfOne(MoveOf(Account(d), Plus(d.amount)));
      Shown(db', id);
      DepositRow(db, db', id, db'.deposits[id]);
      IssuedAfterDeposit(db, db', id, db'.deposits[id]);
      SameQuota(db.quota, ref);
      ReversalsKept(db.wallet.ledger, db'.wallet.ledger, db.trades, db'.trades);
      OneRequest(db, db', ref, map[], map[], [MoveOf(Account(d), Plus(d.amount))]);
    }
  }

  lemma StatusKeepsInv(db: Db, id: Id, status: RequestStatus)
    requires Inv(db) && id in db.deposits && (db.deposits[id].status.Pending? || db.deposits[id].status.Rejected?)
    requires status.Rejected? || status.Cancelled?
    ensures Inv(SetStatus(db, id, status))
    ensures OnlyOn(db, SetStatus(db, id, status), Ref.Deposit(id))
  {
    hide Inv, Sound, QuotaSound, IdsSound, RowsSound, TotalsSound, LinksSound, ReversalsSound, Agree, Explained,
         HoldsOf, LimitsOf, MovesOf, Issued, Adjusted, Net, Effect;
    var (db', ref) := (SetStatus(db, id, status), Ref.Deposit(id));
    DirectKnown(db, id);
    Known(db, ref);
    Shown(db', id);
    DepositRow(db, db', id, db'.deposits[id]);
    IssuedAfterDeposit(db, db', id, db'.deposits[id]);
    NothingPosted(db.wallet, ref);
    NetNil();
    SameQuota(db.quota, ref);
    OneRequest(db, db', ref, map[], map[], []);
  }

  lemma RejectKeepsInv(db: Db, id: Id)
    requires Inv(db) && Reject(db, id).Ok?
    ensures Inv(Reject(db, id).value)
    ensures OnlyOn(db, Reject(db, id).value, Ref.Deposit(id))
  {
    hide Inv, SetStatus;
    StatusKeepsInv(db, id, RequestStatus.Rejected);
  }

  /** Cancelling an approved deposit takes the amount back; it fails only if the account cannot give it. */
  lemma ReverseKeepsInv(db: Db, id: Id)
    requires Inv(db) && id in db.deposits && db.deposits[id].status.Approved?
    ensures var d := db.deposits[id];
            Cancel(db, id).Ok? <==> UsableCapacity(Row(db.wallet, Account(d))) >= d.amount
    ensures Cancel(db, id).Ok? ==> Inv(Cancel(db, id).value)
    ensures Cancel(db, id).Ok? ==> OnlyOn(db, Cancel(db, id).value, Ref.Deposit(id))
  {
    hide Inv, Sound, QuotaSound, IdsSound, RowsSound, TotalsSound, LinksSound, ReversalsSound, Agree, Explained,
         HoldsOf, LimitsOf, MovesOf, Issued, Adjusted;
    var ref := Ref.Deposit(id);
    DirectKnown(db, id);
    Known(db, ref);
    var d := db.deposits[id];
    PostedOpen(db.wallet, d.tx.value);
    assert MovesOf(db.wallet.ledger, ref) == [MoveOf(Account(d), Plus(d.amount))];
    assert !Taken(db.wallet.ledger, ref, Account(d), Minus(d.amount).EntrySide());
    if Cancel(db, id).Ok? {
      var db' := Cancel(db, id).value;
      ApplyEffect(db.wallet, Account(d), Minus(d.amount), ref, None);
      hide ApplyTransaction, Row, UsableCapacity;
      Shown(db', id);
      DepositRow(db, db', id, db'.deposits[id]);
      IssuedAfterDeposit(db, db', id, db'.deposits[id]);
      SameQuota(db.quota, ref);
      ReversalsKept(db.wallet.ledger, db'.wallet.ledger, db.trades, db'.trades);
      OneRequest(db, db', ref, map[], map[], [MoveOf(Account(d), Minus(d.amount))]);
    }
  }

  lemma CancelKeepsInv(db: Db, id: Id)
    requires Inv(db) && Cancel(db, id).Ok?
    ensures Inv(Cancel(db, id).value)
    ensures OnlyOn(db, Cancel(db, id).value, Ref.Deposit(id))
  {
    hide Inv, SetStatus, ApplyTransaction;
    var d := db.deposits[id];
    if d.status.Pending? || d.status.Rejected? {
      StatusKeepsInv(db, id, RequestStatus.Cancelled);
    } else if d.status.Approved? {
      ReverseKeepsInv(db, id);
    }
  }
}
