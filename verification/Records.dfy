/** What the row of a request says stays what was asked for, and its status only moves on: over every step, and over
    every run. */
module Records {
  import opened Base
  import opened Policy
  import opened Accounts
  import opened Limits
  import opened State
  import opened Frames
  import opened Machine
  import Withdrawals
  import Deposits
  import Trades
  import Custody
  import Remittances
  import P2P
  import P2PInvariant
  import P2PProtocol
  import Files
  import Runs

  // ---------------------------------------------------------------- what may become of one row

  /** A direct withdrawal is decided once; one that was rejected can still be cancelled. */
  predicate WithdrawalMoves(s: RequestStatus, t: RequestStatus) {
    || s == t
    || (s.Pending? && (t.Approved? || t.Rejected? || t.Cancelled?))
    || (s.Rejected? && t.Cancelled?)
  }

  predicate WithdrawalFollows(r: Withdrawal, r': Withdrawal) {
    && r' == r.(status := r'.status, assignedTotal := r'.assignedTotal, settledTotal := r'.settledTotal, tx := r'.tx)
    && (r.purpose.Direct? ==> WithdrawalMoves(r.status, r'.status))
    && (r.tx.Some? ==> r'.tx == r.tx)
  }

  /** So is a direct deposit; one that was approved can still be reversed. */
  predicate DepositMoves(s: RequestStatus, t: RequestStatus) {
    || WithdrawalMoves(s, t)
    || ((s.Pending? || s.Approved?) && t.Reversed?)
  }

  predicate DepositFollows(d: DepositRequest, d': DepositRequest) {
    && d' == d.(status := d'.status, remaining := d'.remaining, assignedTotal := d'.assignedTotal,
                settledTotal := d'.settledTotal, tx := d'.tx)
    && (d.purpose.Direct? ==> DepositMoves(d.status, d'.status))
    && (d.tx.Some? ==> d'.tx == d.tx)
  }

  /** A trade that was approved can only be cancelled by a reversal, one that was reversed stays so. */
  predicate TradeFollows(t: TradeRow, t': TradeRow) {
    && t' == t.(status := t'.status, reversed := t'.reversed)
    && (t.status.Rejected? ==> t'.status.Rejected?)
    && (t.status.CancelledByAdmin? ==> t' == t)
    && (t.status.Approved? ==> t'.status.Approved? || (t'.status.CancelledByAdmin? && t'.reversed))
  }

  predicate MovementFollows(m: Movement, m': Movement) {
    m' == m.(status := m'.status) && (!m.status.Pending? ==> m' == m)
  }

  /** What is not pending any more never is again, and will not be posted if it was not. */
  predicate RemittanceFollows(r: RemittanceRow, r': RemittanceRow) {
    && r' == r.(status := r'.status, posted := r'.posted)
    && (r.posted ==> r'.posted)
    && (!r.status.Pending? ==> !r'.status.Pending? && r'.posted == r.posted)
    && (r.status.Partial? || r.status.Completed? ==> r'.status.Partial? || r'.status.Completed?)
  }

  predicate AllocationFollows(al: Allocation, al': Allocation) {
    && al' == al.(status := al'.status, proofSubmitted := al'.proofSubmitted,
                  receiverConfirmed := al'.receiverConfirmed,
                  adminVerified := al'.adminVerified, debitTx := al'.debitTx, creditTx := al'.creditTx)
    && (al.debitTx.Some? ==> al'.debitTx == al.debitTx) && (al.creditTx.Some? ==> al'.creditTx == al.creditTx)
  }

  // ---------------------------------------------------------------- what becomes of the tables

  ghost predicate WithdrawalsFollow(m: map<Id, Withdrawal>, m': map<Id, Withdrawal>) {
    forall id <- m :: id in m' && WithdrawalFollows(m[id], m'[id])
  }

  ghost predicate DepositsFollow(m: map<Id, DepositRequest>, m': map<Id, DepositRequest>) {
    forall id <- m :: id in m' && DepositFollows(m[id], m'[id])
  }

  ghost predicate TradesFollow(m: map<Id, TradeRow>, m': map<Id, TradeRow>) {
    forall id <- m :: id in m' && TradeFollows(m[id], m'[id])
  }

  ghost predicate MovementsFollow(m: map<Id, Movement>, m': map<Id, Movement>) {
    forall id <- m :: id in m' && MovementFollows(m[id], m'[id])
  }

  ghost predicate RemittancesFollow(m: map<Id, RemittanceRow>, m': map<Id, RemittanceRow>) {
    forall id <- m :: id in m' && RemittanceFollows(m[id], m'[id])
  }

  ghost predicate AllocationsFollow(m: map<Id, Allocation>, m': map<Id, Allocation>) {
    forall id <- m :: id in m' && AllocationFollows(m[id], m'[id])
  }

  /** No row is lost, none says anything else than it did, and each only moves on. */
  ghost predicate Follows(db: Db, db': Db) {
    && WithdrawalsFollow(db.withdrawals, db'.withdrawals)
    && DepositsFollow(db.deposits, db'.deposits)
    && TradesFollow(db.trades, db'.trades)
    && MovementsFollow(db.movements, db'.movements)
    && RemittancesFollow(db.remittances, db'.remittances)
    && AllocationsFollow(db.allocations, db'.allocations)
  }

  lemma FollowsItself(db: Db)
    ensures Follows(db, db)
  {
  }

  lemma FollowsOn(db: Db, db1: Db, db2: Db)
    requires Follows(db, db1) && Follows(db1, db2)
    ensures Follows(db, db2)
  {
    WithdrawalsOn(db.withdrawals, db1.withdrawals, db2.withdrawals);
    DepositsOn(db.deposits, db1.deposits, db2.deposits);
    TradesOn(db.trades, db1.trades, db2.trades);
    MovementsOn(db.movements, db1.movements, db2.movements);
    RemittancesOn(db.remittances, db1.remittances, db2.remittances);
    AllocationsOn(db.allocations, db1.allocations, db2.allocations);
    hide WithdrawalsFollow, DepositsFollow, TradesFollow, MovementsFollow, RemittancesFollow, AllocationsFollow;
  }

  lemma WithdrawalsOn(m: map<Id, Withdrawal>, m1: map<Id, Withdrawal>, m2: map<Id, Withdrawal>)
    requires WithdrawalsFollow(m, m1) && WithdrawalsFollow(m1, m2)
    ensures WithdrawalsFollow(m, m2)
  {
  }

  lemma DepositsOn(m: map<Id, DepositRequest>, m1: map<Id, DepositRequest>, m2: map<Id, DepositRequest>)
    requires DepositsFollow(m, m1) && DepositsFollow(m1, m2)
    ensures DepositsFollow(m, m2)
  {
  }

  lemma TradesOn(m: map<Id, TradeRow>, m1: map<Id, TradeRow>, m2: map<Id, TradeRow>)
    requires TradesFollow(m, m1) && TradesFollow(m1, m2)
    ensures TradesFollow(m, m2)
  {
  }

  lemma MovementsOn(m: map<Id, Movement>, m1: map<Id, Movement>, m2: map<Id, Movement>)
    requires MovementsFollow(m, m1) && MovementsFollow(m1, m2)
    ensures MovementsFollow(m, m2)
  {
  }

  lemma RemittancesOn(m: map<Id, RemittanceRow>, m1: map<Id, RemittanceRow>, m2: map<Id, RemittanceRow>)
    requires RemittancesFollow(m, m1) && RemittancesFollow(m1, m2)
    ensures RemittancesFollow(m, m2)
  {
  }

  lemma AllocationsOn(m: map<Id, Allocation>, m1: map<Id, Allocation>, m2: map<Id, Allocation>)
    requires AllocationsFollow(m, m1) && AllocationsFollow(m1, m2)
    ensures AllocationsFollow(m, m2)
  {
  }

  // ---------------------------------------------------------------- one table is written

  predicate Beside(db: Db, db': Db) {
    && db'.trades == db.trades && db'.movements == db.movements && db'.remittances == db.remittances
    && db'.allocations == db.allocations
  }

  /** A withdrawal is written, or a new one is made. */
  lemma OneWithdrawal(db: Db, db': Db, id: Id)
    requires Beside(db, db') && db'.deposits == db.deposits
    requires id in db'.withdrawals && db'.withdrawals == db.withdrawals[id := db'.withdrawals[id]]
    requires id in db.withdrawals ==> WithdrawalFollows(db.withdrawals[id], db'.withdrawals[id])
    ensures Follows(db, db')
  {
  }

  lemma OneDeposit(db: Db, db': Db, id: Id)
    requires Beside(db, db') && db'.withdrawals == db.withdrawals
    requires id in db'.deposits && db'.deposits == db.deposits[id := db'.deposits[id]]
    requires id in db.deposits ==> DepositFollows(db.deposits[id], db'.deposits[id])
    ensures Follows(db, db')
  {
  }

  predicate Paid(db: Db, db': Db) {
    db'.withdrawals == db.withdrawals && db'.deposits == db.deposits && db'.allocations == db.allocations
  }

  lemma OneTrade(db: Db, db': Db, id: Id)
    requires Paid(db, db') && db'.movements == db.movements && db'.remittances == db.remittances
    requires id in db'.trades && db'.trades == db.trades[id := db'.trades[id]]
    requires id in db.trades ==> TradeFollows(db.trades[id], db'.trades[id])
    ensures Follows(db, db')
  {
  }

  lemma OneMovement(db: Db, db': Db, id: Id)
    requires Paid(db, db') && db'.trades == db.trades && db'.remittances == db.remittances
    requires id in db'.movements && db'.movements == db.movements[id := db'.movements[id]]
    requires id in db.movements ==> MovementFollows(db.movements[id], db'.movements[id])
    ensures Follows(db, db')
  {
  }

  lemma OneRemittance(db: Db, db': Db, id: Id)
    requires Paid(db, db') && db'.trades == db.trades && db'.movements == db.movements
    requires id in db'.remittances && db'.remittances == db.remittances[id := db'.remittances[id]]
    requires id in db.remittances ==> RemittanceFollows(db.remittances[id], db'.remittances[id])
    ensures Follows(db, db')
  {
  }

  // ---------------------------------------------------------------- withdrawals

  lemma WithdrawalRow(db: Db, id: Id)
    requires Inv(db) && id in db.withdrawals
    ensures WithdrawalSound(db.withdrawals[id])
  {
    hide Sound, QuotaSound, IdsSound, Explained, TotalsSound, LinksSound, ReversalsSound, Conserved, WithdrawalSound,
         DepositsSound, AllocationsSound, TradesSound, MovementsSound, ProofsSound;
  }

  /** Approving leaves a withdrawal approved, rejecting rejected, and cancelling cancelled, where there is anything to
      cancel. */
  lemma WithdrawalApproved(db: Db, id: Id)
    requires Inv(db) && Withdrawals.Approve(db, id).Ok?
    ensures var db' := Withdrawals.Approve(db, id).value;
            id in db'.withdrawals && db'.withdrawals[id].status.Approved? && Follows(db, db')
  {
    hide Inv, ConsumeFunds, ApplyTransaction, Consume, Row, UsableCapacity, Follows;
    var db' := Withdrawals.Approve(db, id).value;
    WithdrawalRow(db, id);
    FollowsItself(db);
    if db' != db {
      OneWithdrawal(db, db', id);
    }
  }

  lemma WithdrawalRejected(db: Db, id: Id)
    requires Withdrawals.Reject(db, id).Ok?
    ensures var db' := Withdrawals.Reject(db, id).value;
            id in db'.withdrawals && db'.withdrawals[id].status.Rejected? && Follows(db, db')
  {
    hide ReleaseFunds, Release, Follows, Decides;
    var db' := Withdrawals.Reject(db, id).value;
    FollowsItself(db);
    if db' != db {
      OneWithdrawal(db, db', id);
    }
  }

  lemma WithdrawalCancelled(db: Db, id: Id)
    requires Withdrawals.Cancel(db, id).Ok?
    ensures var db' := Withdrawals.Cancel(db, id).value;
            && id in db.withdrawals && id in db'.withdrawals && Follows(db, db')
            && var s := db.withdrawals[id].status;
               db'.withdrawals[id].status == if s.Pending? || s.Rejected? then RequestStatus.Cancelled else s
  {
    hide ReleaseFunds, Release, Follows, Decides;
    var db' := Withdrawals.Cancel(db, id).value;
    FollowsItself(db);
    if db' != db {
      OneWithdrawal(db, db', id);
    }
  }

  // ---------------------------------------------------------------- deposits

  lemma DepositRow(db: Db, id: Id)
    requires Inv(db) && id in db.deposits
    ensures DepositSound(db.deposits[id], db.wallet.ledger)
  {
    hide Sound, QuotaSound, IdsSound, Explained, TotalsSound, LinksSound, ReversalsSound, Conserved, DepositSound,
         WithdrawalsSound, AllocationsSound, TradesSound, MovementsSound, ProofsSound;
  }

  lemma DepositApproved(db: Db, id: Id)
    requires Inv(db) && Deposits.Approve(db, id).Ok?
    ensures var db' := Deposits.Approve(db, id).value;
            && id in db.deposits && id in db'.deposits && Follows(db, db')
            && db'.deposits[id].status == if db.deposits[id].status.Reversed? then Reversed else RequestStatus.Approved
  {
    hide Inv, GetOrCreate, ApplyTransaction, Follows, Decides;
    var db' := Deposits.Approve(db, id).value;
    DepositRow(db, id);
    FollowsItself(db);
    if db' != db {
      OneDeposit(db, db', id);
    }
  }

  lemma DepositRejected(db: Db, id: Id)
    requires Deposits.Reject(db, id).Ok?
    ensures var db' := Deposits.Reject(db, id).value;
            id in db'.deposits && db'.deposits[id].status.Rejected? && Follows(db, db')
  {
    hide Follows, Decides;
    OneDeposit(db, Deposits.Reject(db, id).value, id);
  }

  function DepositAfterCancel(s: RequestStatus): RequestStatus {
    if s.Pending? || s.Rejected? then RequestStatus.Cancelled else if s.Approved? then Reversed else s
  }

  lemma DepositCancelWrites(db: Db, id: Id) returns (w: Wallet)
    requires Deposits.Cancel(db, id).Ok?
    ensures id in db.deposits
    ensures var after := DepositAfterCancel(db.deposits[id].status);
            Deposits.Cancel(db, id) ==
              if after == db.deposits[id].status then Ok(db)
              else Ok(Deposits.SetStatus(db.(wallet := w), id, after))
    ensures db.wallet.ledger <= w.ledger
  {
    hide ApplyTransaction, Decides, Deposits.SetStatus;
    w := db.wallet;
    var d := db.deposits[id];
    assert db.(wallet := db.wallet) == db;
    if d.status.Approved? && d.tx.Some? && d.tx.value < |db.wallet.ledger| {
      w := ApplyTransaction(db.wallet, db.wallet.ledger[d.tx.value].acct, Minus(d.amount), Ref.Deposit(id), None).value;
      ApplyAppends(db.wallet, db.wallet.ledger[d.tx.value].acct, Minus(d.amount), Ref.Deposit(id));
    }
  }

  lemma ApplyAppends(w: Wallet, a: Acct, delta: Signed, ref: Ref)
    requires ApplyTransaction(w, a, delta, ref, None).Ok?
    ensures ApplyTransaction(w, a, delta, ref, None).value.ledger ==
              w.ledger + [Posting(a, delta.value, delta.EntrySide(), ref, None)]
  {
  }

  lemma DepositCancelled(db: Db, id: Id)
    requires Deposits.Cancel(db, id).Ok?
    ensures var db' := Deposits.Cancel(db, id).value;
            && id in db.deposits && id in db'.deposits && Follows(db, db')
            && var s := db.deposits[id].status;
               db'.deposits[id].status == if s.Pending? || s.Rejected? then RequestStatus.Cancelled
                                          else if s.Approved? then Reversed else s
  {
    hide Deposits.Cancel, Follows;
    var w := DepositCancelWrites(db, id);
    FollowsItself(db);
    if DepositAfterCancel(db.deposits[id].status) != db.deposits[id].status {
      OneDeposit(db, Deposits.SetStatus(db.(wallet := w), id, DepositAfterCancel(db.deposits[id].status)), id);
    }
  }

  // ---------------------------------------------------------------- trades

  lemma TradeRowKnown(db: Db, id: Id)
    requires Inv(db) && id in db.trades
    ensures TradeSound(db.trades[id])
  {
    hide Sound, QuotaSound, IdsSound, Explained, TotalsSound, LinksSound, ReversalsSound, Conserved, TradeSound,
         WithdrawalsSound, AllocationsSound, DepositsSound, MovementsSound, ProofsSound;
  }

  /** Approving a pending trade leaves it approved, and any other one as it is. */
  lemma TradeApproved(db: Db, id: Id)
    requires Trades.Approve(db, id).Ok?
    ensures var db' := Trades.Approve(db, id).value;
            && id in db.trades && id in db'.trades && Follows(db, db')
            && var s := db.trades[id].status; db'.trades[id].status == if s.Pending? then TradeStatus.Approved else s
  {
    hide ConsumeFunds, OpenAll, PostAll, Consume, Row, UsableCapacity, Follows, Decides, TradeLegs,
         Trades.TradeAccounts;
    var db' := Trades.Approve(db, id).value;
    FollowsItself(db);
    if db' != db {
      OneTrade(db, db', id);
    }
  }

  lemma TradeRejected(db: Db, id: Id)
    requires Trades.Reject(db, id).Ok?
    ensures var db' := Trades.Reject(db, id).value;
            id in db'.trades && db'.trades[id].status.Rejected? && Follows(db, db')
  {
    hide ReleaseFunds, Release, Follows, Decides, TradeAccount;
    var db' := Trades.Reject(db, id).value;
    FollowsItself(db);
    if db' != db {
      OneTrade(db, db', id);
    }
  }

  lemma TradeCancelled(db: Db, id: Id)
    requires Trades.Cancel(db, id).Ok?
    ensures var db' := Trades.Cancel(db, id).value;
            id in db.trades && id in db'.trades && db'.trades[id].status.CancelledByAdmin? && Follows(db, db')
            && db'.trades[id].reversed == db.trades[id].reversed
  {
    hide ReleaseFunds, Release, Follows, Decides, TradeAccount;
    var db' := Trades.Cancel(db, id).value;
    FollowsItself(db);
    if db' != db {
      OneTrade(db, db', id);
    }
  }

  lemma TradeReversed(db: Db, id: Id)
    requires Inv(db) && Trades.Reverse(db, id).Ok?
    ensures var db' := Trades.Reverse(db, id).value;
            && id in db'.trades && db'.trades[id].status.CancelledByAdmin? && db'.trades[id].reversed &&
               Follows(db, db')
  {
    hide Inv, Trades.ReverseAll, Trades.PostingsOf, Follows, Decides;
    var db' := Trades.Reverse(db, id).value;
    TradeRowKnown(db, id);
    FollowsItself(db);
    if db' != db {
      OneTrade(db, db', id);
    }
  }

  // ---------------------------------------------------------------- custody

  lemma MovementApproved(db: Db, id: Id)
    requires Custody.Approve(db, id).Ok?
    ensures var db' := Custody.Approve(db, id).value;
            id in db'.movements && db'.movements[id].status.Approved? && Follows(db, db')
  {
    hide Custody.ConsumeIfOut, OpenAll, PostAll, Consume, Custody.MovementLegs, Follows, Decides;
    var db' := Custody.Approve(db, id).value;
    FollowsItself(db);
    if db' != db {
      OneMovement(db, db', id);
    }
  }

  lemma MovementRejected(db: Db, id: Id)
    requires Custody.Reject(db, id).Ok?
    ensures var db' := Custody.Reject(db, id).value;
            id in db'.movements && db'.movements[id].status.Rejected? && Follows(db, db')
  {
    hide Custody.ReleaseIfOut, Release, Follows, Decides;
    var db' := Custody.Reject(db, id).value;
    FollowsItself(db);
    if db' != db {
      OneMovement(db, db', id);
    }
  }

  /** Cancelling leaves a rejected movement rejected. */
  lemma MovementCancelled(db: Db, id: Id)
    requires Custody.Cancel(db, id).Ok?
    ensures var db' := Custody.Cancel(db, id).value;
            && id in db.movements && id in db'.movements && Follows(db, db')
            && db'.movements[id].status == if db.movements[id].status.Rejected? then MovementStatus.Rejected
                                           else MovementStatus.Cancelled
  {
    hide Custody.ReleaseIfOut, Release, Follows, Decides;
    var db' := Custody.Cancel(db, id).value;
    FollowsItself(db);
    if db' != db {
      OneMovement(db, db', id);
    }
  }

  // ---------------------------------------------------------------- remittances

  /** Approving a pending remittance leaves it completed and posted; a completed one stays as it is. */
  lemma RemittanceApproved(db: Db, id: Id)
    requires Remittances.Approve(db, id).Ok?
    ensures var db' := Remittances.Approve(db, id).value;
            && id in db.remittances && id in db'.remittances && Follows(db, db')
            && db'.remittances[id].status.Completed? &&
               (db.remittances[id].status.Pending? ==> db'.remittances[id].posted)
  {
    hide ConsumeFunds, OpenAll, PostAll, Consume, Remittances.Legs, Follows, Decides;
    var db' := Remittances.Approve(db, id).value;
    FollowsItself(db);
    if db' != db {
      OneRemittance(db, db', id);
    }
  }

  lemma RemittanceRejected(db: Db, id: Id)
    requires Remittances.Reject(db, id).Ok?
    ensures var db' := Remittances.Reject(db, id).value;
            id in db'.remittances && db'.remittances[id].status.Cancelled? && Follows(db, db')
  {
    hide ReleaseFunds, Release, Follows, Decides;
    var db' := Remittances.Reject(db, id).value;
    FollowsItself(db);
    if db' != db {
      OneRemittance(db, db', id);
    }
  }

  /** A user cancels what the user has sent, and nothing else. */
  lemma CancelledBySender(db: Db, id: Id, user: UserId)
    ensures id in db.remittances && db.remittances[id].sender != user ==>
            Remittances.CancelByUser(db, id, user) == Err(NotFound)
    ensures Remittances.CancelByUser(db, id, user).Ok? ==>
              id in db.remittances && db.remittances[id].sender == user
              && Remittances.CancelByUser(db, id, user) == Remittances.Reject(db, id)
  {
    hide Remittances.Reject, Decides;
  }

  // ---------------------------------------------------------------- new requests, in the words of the request

  lemma NewWithdrawal(db: Db, user: UserId, amount: int, purpose: Purpose, key: Option<nat>, ok: bool, at: Stamp,
                      policies: Policies)
    requires IdsSound(db) && Withdrawals.Create(db, user, amount, purpose, key, ok, at, policies).Ok?
    ensures var (db', id) := Withdrawals.Create(db, user, amount, purpose, key, ok, at, policies).value;
            && Follows(db, db')
            && (!Found(db, Withdrawals.KeyOf(user, key)) ==>
                  && id == db.nextId && id in db'.withdrawals
                  && db'.withdrawals[id] ==
                       Withdrawal(user, amount, purpose,
                                  if purpose.P2P? then WaitingAssignment else RequestStatus.Pending, 0, 0, None, at))
  {
    hide ReserveBoth, ReserveFunds, GetOrCreate, UsableCapacity, Row, Follows;
    var db' := Withdrawals.Create(db, user, amount, purpose, key, ok, at, policies).value.0;
    IdUnused(db);
    if Found(db, Withdrawals.KeyOf(user, key)) {
      WalletFollows(db, db');
    } else {
      OneWithdrawal(db, db', db.nextId);
    }
  }

  lemma WalletFollows(db: Db, db': Db)
    requires db' == db.(wallet := db'.wallet)
    ensures Follows(db, db')
  {
  }

  lemma NewDeposit(db: Db, user: UserId, amount: int, purpose: Purpose)
    requires IdsSound(db)
    ensures var db' := Deposits.Create(db, user, amount, purpose);
            && Follows(db, db') && db.nextId in db'.deposits
            && var d := db'.deposits[db.nextId];
               && d.user == user && d.amount == amount && d.purpose == purpose
               && d.assignedTotal == 0 && d.settledTotal == 0 && d.tx.None?
               && (if purpose.P2P? then d.status.WaitingAssignment? && d.remaining == Some(amount)
                   else d.status.Pending? && d.remaining.None?)
  {
    hide Follows, Aside, RemittancesAside;
    IdUnused(db);
    OneDeposit(db, Deposits.Create(db, user, amount, purpose), db.nextId);
  }

  lemma NewTrade(db: Db, client: UserId, instr: Instrument, side: TradeSide, quantity: int, price: int,
                 metric: Option<Metric>, product: Id, key: Option<nat>, quote: Id, at: Stamp, policies: Policies)
    requires IdsSound(db)
    requires Trades.Create(db, client, instr, side, quantity, price, metric, product, key, quote, at, policies).Ok?
    ensures var (db', id) :=
              Trades.Create(db, client, instr, side, quantity, price, metric, product, key, quote, at, policies).value;
            && Follows(db, db')
            && (!Found(db, Trades.KeyOf(client, key)) && QuoteKey(client, quote) !in db.requests ==>
                  && id == db.nextId && id in db'.trades
                  && db'.trades[id] == TradeRow(client, instr, side, quantity, quantity * price, metric, product,
                                                TradeStatus.Pending, false, at))
  {
    hide Trades.ReserveLimits, ReserveFunds, Follows;
    var db' :=
      Trades.Create(db, client, instr, side, quantity, price, metric, product, key, quote, at, policies).value.0;
    IdUnused(db);
    if Found(db, Trades.KeyOf(client, key)) || QuoteKey(client, quote) in db.requests {
      FollowsItself(db);
    } else {
      OneTrade(db, db', db.nextId);
    }
  }

  lemma NewMovement(db: Db, user: UserId, kind: MovementKind, weight: int, ayar: int, key: Option<nat>, at: Stamp,
                    policies: Policies)
    requires IdsSound(db) && Custody.Request(db, user, kind, weight, ayar, key, at, policies).Ok?
    ensures var (db', id) := Custody.Request(db, user, kind, weight, ayar, key, at, policies).value;
            && Follows(db, db')
            && (!Found(db, Custody.KeyOf(user, key)) ==>
                  && id == db.nextId && id in db'.movements
                  && var m := db'.movements[id];
                     && m.user == user && m.kind == kind && m.created == at && m.status.Pending?
                     && Custody.Nearest(m.equiv, weight, ayar))
  {
    hide ReserveBoth, Custody.ReserveIfOut, Custody.ToEquiv750, Follows, Aside, RemittancesAside, Custody.Nearest;
    var db' := Custody.Request(db, user, kind, weight, ayar, key, at, policies).value.0;
    IdUnused(db);
    Custody.EquivNearest(weight, ayar);
    if Found(db, Custody.KeyOf(user, key)) {
      FollowsItself(db);
    } else {
      OneMovement(db, db', db.nextId);
    }
  }

  lemma NewRemittance(db: Db, sender: UserId, receiver: UserId, instr: Instrument, amount: int, key: Option<nat>,
                      at: Stamp, policies: Policies)
    requires IdsSound(db) && Remittances.Create(db, sender, receiver, instr, amount, key, at, policies).Ok?
    ensures var (db', id) := Remittances.Create(db, sender, receiver, instr, amount, key, at, policies).value;
            && Follows(db, db')
            && (!Found(db, Remittances.KeyOf(sender, key)) ==>
                  && id == db.nextId && id in db'.remittances
                  && db'.remittances[id] ==
                       RemittanceRow(sender, receiver, None, instr, amount, RemittanceStatus.Pending, false, false, at))
  {
    hide ReserveBoth, ReserveFunds, Follows, Aside;
    var db' := Remittances.Create(db, sender, receiver, instr, amount, key, at, policies).value.0;
    IdUnused(db);
    if Found(db, Remittances.KeyOf(sender, key)) {
      FollowsItself(db);
    } else {
      OneRemittance(db, db', db.nextId);
    }
  }

  // ---------------------------------------------------------------- the P2P service

  /** What a P2P transaction writes of its two requests. */
  ghost predicate RequestsFollow(db: Db, db': Db) {
    && WithdrawalsFollow(db.withdrawals, db'.withdrawals) && DepositsFollow(db.deposits, db'.deposits)
    && db'.trades == db.trades && db'.movements == db.movements && db'.remittances == db.remittances
  }

  lemma RequestsSame(db: Db, db': Db)
    requires db' == db.(allocations := db'.allocations, assignments := db'.assignments, proofs := db'.proofs)
    ensures RequestsFollow(db, db')
  {
  }

  lemma RequestsOn(db: Db, db1: Db, db2: Db)
    requires RequestsFollow(db, db1) && RequestsFollow(db1, db2)
    ensures RequestsFollow(db, db2)
  {
    hide WithdrawalsFollow, DepositsFollow;
    WithdrawalsOn(db.withdrawals, db1.withdrawals, db2.withdrawals);
    DepositsOn(db.deposits, db1.deposits, db2.deposits);
  }

  lemma TotalsFollow(db: Db, db': Db, w: Id, d: Id)
    requires w in db.withdrawals && db.withdrawals[w].purpose.P2P? && d in db.deposits && db.deposits[d].purpose.P2P?
    requires w in db'.withdrawals && db'.withdrawals == db.withdrawals[w := db'.withdrawals[w]]
    requires d in db'.deposits && db'.deposits == db.deposits[d := db'.deposits[d]]
    requires db'.trades == db.trades && db'.movements == db.movements && db'.remittances == db.remittances
    requires var (r, r') := (db.withdrawals[w], db'.withdrawals[w]);
             r' == r.(status := r'.status, assignedTotal := r'.assignedTotal, settledTotal := r'.settledTotal)
    requires var (p, p') := (db.deposits[d], db'.deposits[d]);
             p' == p.(status := p'.status, remaining := p'.remaining, assignedTotal := p'.assignedTotal,
                      settledTotal := p'.settledTotal)
    ensures RequestsFollow(db, db')
  {
  }

  lemma AssignOneFollows(db: Db, w: Id, item: P2P.Item, expiresAt: int)
    requires w in db.withdrawals && db.withdrawals[w].purpose.P2P? && P2P.AssignOne(db, w, item, expiresAt).Ok?
    ensures var db' := P2P.AssignOne(db, w, item, expiresAt).value;
            RequestsFollow(db, db') && w in db'.withdrawals && db'.withdrawals[w].purpose.P2P?
  {
    hide SplitHold, Split, DeriveStatus, RequestsFollow;
    TotalsFollow(db, P2P.AssignOne(db, w, item, expiresAt).value, w, item.deposit);
  }

  lemma {:induction false} AssignAllFollows(db: Db, w: Id, items: seq<P2P.Item>, expiresAt: int)
    requires w in db.withdrawals && db.withdrawals[w].purpose.P2P? && P2P.AssignAll(db, w, items, expiresAt).Ok?
    ensures var db' := P2P.AssignAll(db, w, items, expiresAt).value;
            RequestsFollow(db, db') && w in db'.withdrawals && db'.withdrawals[w].purpose.P2P?
  {
    hide P2P.AssignOne, RequestsFollow, Stays, RemittancesAside;
    if items == [] {
      RequestsSame(db, db);
    } else {
      var (front, last) := (items[..|items| - 1], items[|items| - 1]);
      var db1 := P2P.AssignAll(db, w, front, expiresAt).value;
      AssignAllFollows(db, w, front, expiresAt);
      AssignOneFollows(db1, w, last, expiresAt);
      RequestsOn(db, db1, P2P.AssignAll(db, w, items, expiresAt).value);
    }
  }

  lemma AssignFollows(db: Db, w: Id, items: seq<P2P.Item>, key: Option<nat>, ok: bool, expiresAt: int)
    requires P2P.Assign(db, w, items, key, ok, expiresAt).Ok?
    ensures RequestsFollow(db, P2P.Assign(db, w, items, key, ok, expiresAt).value.0)
  {
    hide P2P.AssignAll, RequestsFollow, Stays, RemittancesAside, P2P.Sum;
    var db' := P2P.Assign(db, w, items, key, ok, expiresAt).value.0;
    RequestsSame(db, db);
    if !P2PInvariant.Replays(db, w, key) {
      var db1 := P2P.AssignAll(db, w, items, expiresAt).value;
      AssignAllFollows(db, w, items, expiresAt);
      RequestsSame(db1, db');
      RequestsOn(db, db1, db');
    }
  }

  lemma PartiesAreP2P(db: Db, id: Id)
    requires Inv(db) && id in db.allocations
    ensures var al := db.allocations[id];
            && al.withdrawal in db.withdrawals && db.withdrawals[al.withdrawal].purpose.P2P?
            && al.deposit in db.deposits && db.deposits[al.deposit].purpose.P2P?
  {
    hide Inv, Consistent;
    P2PProtocol.SoundAt(db, id);
  }

  lemma GiveBackFollows(db: Db, id: Id, status: AllocationStatus)
    requires Inv(db) && P2P.Loaded(db, id)
    ensures RequestsFollow(db, P2P.GiveBack(db, id, status))
  {
    hide Inv, MergeHold, Merge, DeriveStatus, RequestsFollow;
    PartiesAreP2P(db, id);
    TotalsFollow(db, P2P.GiveBack(db, id, status), db.allocations[id].withdrawal, db.allocations[id].deposit);
  }

  lemma FinalizeFollows(db: Db, id: Id, mode: P2P.Mode, now: int)
    requires Inv(db) && P2P.Finalize(db, id, mode, now).Ok?
    ensures RequestsFollow(db, P2P.Finalize(db, id, mode, now).value)
  {
    hide Inv, ConsumeFunds, OpenAll, PostAll, Consume, DeriveStatus, RequestsFollow, Stays, RemittancesAside, Decided,
         P2P.Finalizable;
    var db' := P2P.Finalize(db, id, mode, now).value;
    PartiesAreP2P(db, id);
    RequestsSame(db, db);
    if db' != db {
      TotalsFollow(db, db', db.allocations[id].withdrawal, db.allocations[id].deposit);
    }
  }

  lemma SubmitFollows(db: Db, id: Id, user: UserId, files: seq<Id>, found: bool, mine: bool, now: int)
    requires P2P.SubmitProof(db, id, user, files, found, mine, now).Ok?
    ensures RequestsFollow(db, P2P.SubmitProof(db, id, user, files, found, mine, now).value)
  {
    hide RequestsFollow, Stays, RemittancesAside, ProofsOf, P2P.ProofsFor;
    RequestsSame(db, P2P.SubmitProof(db, id, user, files, found, mine, now).value);
  }

  lemma ConfirmFollows(db: Db, id: Id, user: UserId, confirmed: bool, mode: P2P.Mode)
    requires P2P.ReceiverConfirm(db, id, user, confirmed, mode).Ok?
    ensures RequestsFollow(db, P2P.ReceiverConfirm(db, id, user, confirmed, mode).value)
  {
    hide RequestsFollow, Stays, RemittancesAside;
    RequestsSame(db, P2P.ReceiverConfirm(db, id, user, confirmed, mode).value);
  }

  lemma VerifyFollows(db: Db, id: Id, approved: bool)
    requires P2P.AdminVerify(db, id, approved).Ok?
    ensures RequestsFollow(db, P2P.AdminVerify(db, id, approved).value)
  {
    hide RequestsFollow, Stays, RemittancesAside;
    RequestsSame(db, P2P.AdminVerify(db, id, approved).value);
  }

  lemma CancelFollows(db: Db, id: Id)
    requires Inv(db)
    ensures P2P.Cancel(db, id).Ok? ==> RequestsFollow(db, P2P.Cancel(db, id).value)
    ensures RequestsFollow(db, P2P.ExpireOne(db, id))
  {
    hide Inv, RequestsFollow, Stays, RemittancesAside, P2P.GiveBack;
    RequestsSame(db, db);
    if P2P.Loaded(db, id) {
      GiveBackFollows(db, id, AllocationStatus.Cancelled);
      GiveBackFollows(db, id, AllocationStatus.Expired);
    }
  }

  lemma DeleteFollows(db: Db, file: Id, force: bool, found: bool, elsewhere: bool)
    requires Files.DeleteAsAdmin(db, file, force, found, elsewhere).Ok?
    ensures RequestsFollow(db, Files.DeleteAsAdmin(db, file, force, found, elsewhere).value)
  {
    hide RequestsFollow, Stays, RemittancesAside, Files.WithoutFile, Files.Attached;
    RequestsSame(db, Files.DeleteAsAdmin(db, file, force, found, elsewhere).value);
  }

  lemma P2PFollows(mode: P2P.Mode, db: Db, e: Event)
    requires Inv(db) && P2PStep(e.step) && Next(mode, db, e).Ok?
    ensures RequestsFollow(db, Next(mode, db, e).value)
  {
    hide Inv, RequestsFollow, P2P.Assign, P2P.SubmitProof, P2P.ReceiverConfirm, P2P.AdminVerify, P2P.Finalize,
         P2P.Cancel, P2P.ExpireOne, Files.DeleteAsAdmin, Stays, RemittancesAside, Decided;
    match e.step {
      case Assign(id, items, key, ok, expiresAt) => AssignFollows(db, id, items, key, ok, expiresAt);
      case SubmitProof(id, user, files, found, mine, now) => SubmitFollows(db, id, user, files, found, mine, now);
      case ReceiverConfirm(id, user, yes) => ConfirmFollows(db, id, user, yes, mode);
      case AdminVerify(id, yes) => VerifyFollows(db, id, yes);
      case Finalize(id, now) => FinalizeFollows(db, id, mode, now);
      case CancelAllocation(id) => CancelFollows(db, id);
      case ExpireAllocation(id) => CancelFollows(db, id);
      case DeleteFile(file, force, found, elsewhere) => DeleteFollows(db, file, force, found, elsewhere);
    }
  }

  /** What is settled keeps its row, so the postings it names too. */
  lemma AllocationOn(db: Db, db': Db, mode: P2P.Mode, id: Id)
    requires Inv(db) && id in db.allocations && id in db'.allocations
    requires P2PProtocol.Evolved(db.allocations[id], db'.allocations[id], mode)
    ensures AllocationFollows(db.allocations[id], db'.allocations[id])
  {
    hide Inv, Consistent, P2PProtocol.CanBecome, P2PProtocol.Evidence;
    P2PProtocol.SoundAt(db, id);
  }

  lemma AllocationsKept(db: Db, db': Db, mode: P2P.Mode)
    requires Inv(db) && P2PProtocol.Evolves(db, db', mode)
    ensures AllocationsFollow(db.allocations, db'.allocations)
  {
    hide Inv, P2PProtocol.Evolved, AllocationFollows;
    forall id <- db.allocations ensures AllocationFollows(db.allocations[id], db'.allocations[id]) {
      AllocationOn(db, db', mode, id);
    }
  }

  // ---------------------------------------------------------------- groups

  /** A settlement only writes the status of its sources, and never back to pending. */
  lemma SettledFollows(rows: map<Id, RemittanceRow>, links: seq<Link>, inputs: seq<Link>)
    ensures RemittancesFollow(rows, Remittances.SettledRows(rows, links, inputs))
  {
    hide LinkedInto;
  }

  lemma {:induction false} LegRowsAdd(rows: map<Id, RemittanceRow>, sender: UserId, legs: seq<Remittances.LegInput>,
                                      first: Id, at: Stamp)
    requires forall id <- rows :: id < first
    ensures RemittancesFollow(rows, Remittances.LegRows(rows, sender, legs, first, at))
  {
    if legs != [] {
      LegRowsAdd(rows, sender, legs[..|legs| - 1], first, at);
    }
  }

  lemma GroupFollows(db: Db, sender: UserId, legs: seq<Remittances.LegInput>, at: Stamp)
    requires IdsSound(db) && Remittances.CreateGroup(db, sender, legs, at).Ok?
    ensures Follows(db, Remittances.CreateGroup(db, sender, legs, at).value)
  {
    hide Remittances.PostLegs, OpenAll, Remittances.GroupAccounts, Remittances.Inputs, Remittances.LegRows, LinkedInto,
         Remittances.SettleAll, Remittances.Affordable, Remittances.SettledRows, RemittancesFollow, Aside;
    var rows := Remittances.LegRows(db.remittances, sender, legs, db.nextId, at);
    var inputs := Remittances.Inputs(legs, db.nextId);
    Remittances.SettleAllIff(rows, db.links, inputs);
    LegRowsAdd(db.remittances, sender, legs, db.nextId, at);
    SettledFollows(rows, db.links, inputs);
    RemittancesOn(db.remittances, rows, Remittances.SettledRows(rows, db.links, inputs));
  }

  // ---------------------------------------------------------------- every step, every run

  lemma NewFollows(mode: P2P.Mode, db: Db, e: Event)
    requires IdsSound(db) && (Creates(e.step) || e.step.CreateDeposit? || e.step.CreateGroup?) && Next(mode, db, e).Ok?
    ensures Follows(db, Next(mode, db, e).value)
  {
    hide Follows, Withdrawals.Create, Deposits.Create, Trades.Create, Custody.Request, Remittances.Create,
         Remittances.CreateGroup, GetOrCreate, Stays, RemittancesAside, Aside, IdsSound, Custody.Nearest;
    match e.step {
      case CreateWithdrawal(user, amount, purpose, key, ok) =>
        NewWithdrawal(db, user, amount, purpose, key, ok, e.at, e.policies);
      case CreateDeposit(user, amount, purpose) => NewDeposit(db, user, amount, purpose);
      case CreateTrade(user, instr, side, quantity, price, metric, product, key, quote) =>
        NewTrade(db, user, instr, side, quantity, price, metric, product, key, quote, e.at, e.policies);
      case RequestMovement(user, kind, weight, ayar, key) =>
        NewMovement(db, user, kind, weight, ayar, key, e.at, e.policies);
      case CreateRemittance(user, receiver, instr, amount, key) =>
        NewRemittance(db, user, receiver, instr, amount, key, e.at, e.policies);
      case CreateGroup(user, legs) => GroupFollows(db, user, legs, e.at);
    }
  }

  lemma WithdrawalFollowsOn(mode: P2P.Mode, db: Db, e: Event)
    requires Inv(db) && (e.step.ApproveWithdrawal? || e.step.RejectWithdrawal? || e.step.CancelWithdrawal?)
    requires Next(mode, db, e).Ok?
    ensures Follows(db, Next(mode, db, e).value)
  {
    hide Inv, Follows, Withdrawals.Approve, Withdrawals.Reject, Withdrawals.Cancel, Decides;
    match e.step {
      case ApproveWithdrawal(id) => WithdrawalApproved(db, id);
      case RejectWithdrawal(id) => WithdrawalRejected(db, id);
      case CancelWithdrawal(id) => WithdrawalCancelled(db, id);
    }
  }

  lemma DepositFollowsOn(mode: P2P.Mode, db: Db, e: Event)
    requires Inv(db) && (e.step.ApproveDeposit? || e.step.RejectDeposit? || e.step.CancelDeposit?)
    requires Next(mode, db, e).Ok?
    ensures Follows(db, Next(mode, db, e).value)
  {
    hide Inv, Follows, Deposits.Approve, Deposits.Reject, Deposits.Cancel, Decides;
    match e.step {
      case ApproveDeposit(id) => DepositApproved(db, id);
      case RejectDeposit(id) => DepositRejected(db, id);
      case CancelDeposit(id) => DepositCancelled(db, id);
    }
  }

  lemma TradeFollowsOn(mode: P2P.Mode, db: Db, e: Event)
    requires Inv(db) && (e.step.ApproveTrade? || e.step.RejectTrade? || e.step.CancelTrade? || e.step.ReverseTrade?)
    requires Next(mode, db, e).Ok?
    ensures Follows(db, Next(mode, db, e).value)
  {
    hide Inv, Follows, Trades.Approve, Trades.Reject, Trades.Cancel, Trades.Reverse, Decides;
    match e.step {
      case ApproveTrade(id) => TradeApproved(db, id);
      case RejectTrade(id) => TradeRejected(db, id);
      case CancelTrade(id) => TradeCancelled(db, id);
      case ReverseTrade(id) => TradeReversed(db, id);
    }
  }

  lemma MovementFollowsOn(mode: P2P.Mode, db: Db, e: Event)
    requires (e.step.ApproveMovement? || e.step.RejectMovement? || e.step.CancelMovement?) && Next(mode, db, e).Ok?
    ensures Follows(db, Next(mode, db, e).value)
  {
    hide Follows, Custody.Approve, Custody.Reject, Custody.Cancel, Decides;
    match e.step {
      case ApproveMovement(id) => MovementApproved(db, id);
      case RejectMovement(id) => MovementRejected(db, id);
      case CancelMovement(id) => MovementCancelled(db, id);
    }
  }

  lemma RemittanceFollowsOn(mode: P2P.Mode, db: Db, e: Event)
    requires e.step.ApproveRemittance? || e.step.RejectRemittance? || e.step.CancelRemittance?
    requires Next(mode, db, e).Ok?
    ensures Follows(db, Next(mode, db, e).value)
  {
    hide Follows, Remittances.Approve, Remittances.Reject, Remittances.CancelByUser, Decides;
    match e.step {
      case ApproveRemittance(id) => RemittanceApproved(db, id);
      case RejectRemittance(id) => RemittanceRejected(db, id);
      case CancelRemittance(id, user) =>
        CancelledBySender(db, id, user);
        RemittanceRejected(db, id);
    }
  }

  lemma SystemFollows(mode: P2P.Mode, db: Db, e: Event)
    requires (e.step.OpenAccount? || e.step.Adjust?) && Next(mode, db, e).Ok?
    ensures Follows(db, Next(mode, db, e).value)
  {
    hide Follows, GetOrCreate, Machine.Adjustment;
    if e.step.Adjust? {
      AdjustmentWrites(db, Acct(e.step.user, e.step.instr), e.step.delta, e.step.refId);
    }
    WalletFollows(db, Next(mode, db, e).value);
  }

  lemma OtherFollows(mode: P2P.Mode, db: Db, e: Event)
    requires Inv(db) && !P2PStep(e.step) && Next(mode, db, e).Ok?
    ensures Follows(db, Next(mode, db, e).value)
  {
    hide Inv, Follows, Next, IdsSound, Sound, QuotaSound, RowsSound, TotalsSound, LinksSound, ReversalsSound, Explained;
    var step := e.step;
    if Creates(step) || step.CreateDeposit? || step.CreateGroup? {
      Known(db, Withdraw(0));
      NewFollows(mode, db, e);
    } else if step.ApproveWithdrawal? || step.RejectWithdrawal? || step.CancelWithdrawal? {
      WithdrawalFollowsOn(mode, db, e);
    } else if step.ApproveDeposit? || step.RejectDeposit? || step.CancelDeposit? {
      DepositFollowsOn(mode, db, e);
    } else if step.ApproveTrade? || step.RejectTrade? || step.CancelTrade? || step.ReverseTrade? {
      TradeFollowsOn(mode, db, e);
    } else if step.ApproveMovement? || step.RejectMovement? || step.CancelMovement? {
      MovementFollowsOn(mode, db, e);
    } else if step.OpenAccount? || step.Adjust? {
      SystemFollows(mode, db, e);
    } else {
      RemittanceFollowsOn(mode, db, e);
    }
  }

  lemma BothFollow(db: Db, db': Db)
    requires RequestsFollow(db, db') && AllocationsFollow(db.allocations, db'.allocations)
    ensures Follows(db, db')
  {
    hide WithdrawalsFollow, DepositsFollow, AllocationsFollow;
    assert TradesFollow(db.trades, db'.trades) && MovementsFollow(db.movements, db'.movements)
      && RemittancesFollow(db.remittances, db'.remittances);
  }

  /** No step of any service loses a row, changes what one says, or takes a decision back. */
  lemma StepFollows(mode: P2P.Mode, db: Db, e: Event)
    requires Inv(db)
    ensures Follows(db, After(mode, db, e))
  {
    hide Inv, Follows, Next, RequestsFollow, P2PProtocol.Evolves, P2PProtocol.ProtocolSound, P2PProtocol.NoneMarked,
         AllocationsFollow, Stays;
    FollowsItself(db);
    if Next(mode, db, e).Ok? {
      if P2PStep(e.step) {
        P2PFollows(mode, db, e);
        P2PProtocol.InvGivesProtocol(db);
        StepEvolves(mode, db, e);
        AllocationsKept(db, After(mode, db, e), mode);
        BothFollow(db, After(mode, db, e));
      } else {
        OtherFollows(mode, db, e);
      }
    }
  }

  /** Nor does any run. */
  lemma {:induction false} RunFollows(mode: P2P.Mode, db: Db, events: seq<Event>)
    requires Inv(db) && AllAdmissible(events)
    ensures Follows(db, Run(mode, db, events)) && Inv(Run(mode, db, events))
  {
    hide Inv, Follows, After, Admissible;
    FollowsItself(db);
    Runs.RunSound(mode, db, events);
    if events != [] {
      var db1 := Run(mode, db, events[..|events| - 1]);
      Runs.Front(events);
      RunFollows(mode, db, events[..|events| - 1]);
      StepFollows(mode, db1, events[|events| - 1]);
      FollowsOn(db, db1, Run(mode, db, events));
    }
  }
}
