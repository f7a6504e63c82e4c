/** The ledger only grows, so a request that names its posting names it for good. */
module Receipts {
  import opened Base
  import opened Policy
  import opened Accounts
  import opened Limits
  import opened State
  import opened Frames
  import opened Machine
  import Withdrawals
  import Deposits
  import Trades
  import Custody
  import Remittances
  import P2P
  import P2PInvariant
  import P2PProtocol
  import Files
  import Records

  // ---------------------------------------------------------------- what posts

  lemma SameLedger(w: Wallet, a: Acct, ref: Ref, amount: int)
    ensures GetOrCreate(w, a).ledger == w.ledger
    ensures ReserveFunds(w, a, ref, amount).Ok? ==> ReserveFunds(w, a, ref, amount).value.ledger == w.ledger
    ensures ReleaseFunds(w, a, ref).Ok? ==> ReleaseFunds(w, a, ref).value.ledger == w.ledger
    ensures ConsumeFunds(w, a, ref).Ok? ==> ConsumeFunds(w, a, ref).value.ledger == w.ledger
  {
  }

  lemma {:induction false} OpenAllLedger(w: Wallet, accounts: seq<Acct>)
    ensures OpenAll(w, accounts).ledger == w.ledger
    decreases |accounts|
  {
    if accounts != [] {
      OpenAllLedger(GetOrCreate(w, accounts[0]), accounts[1..]);
    }
  }

  lemma {:induction false} PostAllGrows(w: Wallet, legs: seq<(Acct, Signed)>, ref: Ref)
    requires PostAll(w, legs, ref).Ok?
    ensures w.ledger <= PostAll(w, legs, ref).value.ledger
    decreases |legs|
  {
    if legs != [] {
      PostAllGrows(ApplyTransaction(w, legs[0].0, legs[0].1, ref, None).value, legs[1..], ref);
    }
  }

  lemma {:induction false} ReverseAllGrows(w: Wallet, todo: seq<nat>, ref: Ref)
    requires forall k | 0 <= k < |todo| :: todo[k] < |w.ledger|
    requires Trades.ReverseAll(w, todo, ref).Ok?
    ensures w.ledger <= Trades.ReverseAll(w, todo, ref).value.ledger
    decreases |todo|
  {
    if todo != [] {
      var j := todo[0];
      if Trades.HasReversal(w.ledger, j) {
        ReverseAllGrows(w, todo[1..], ref);
      } else {
        ReverseAllGrows(ApplyTransaction(w, w.ledger[j].acct, Minus(w.ledger[j].delta), ref, Some(j)).value, todo[1..],
                        ref);
      }
    }
  }

  lemma {:induction false} PostLegsGrows(w: Wallet, sender: UserId, legs: seq<Remittances.LegInput>, first: Id,
                                         at: Stamp)
    requires Remittances.PostLegs(w, sender, legs, first, at).Ok?
    ensures w.ledger <= Remittances.PostLegs(w, sender, legs, first, at).value.ledger
  {
    hide PostAll, OpenAll, Remittances.Legs;
    if legs != [] {
      var last := |legs| - 1;
      PostLegsGrows(w, sender, legs[..last], first, at);
      var w1 := Remittances.PostLegs(w, sender, legs[..last], first, at).value;
      var r := Remittances.LegRow(sender, legs[last], at);
      var accounts := [Remittances.Sender(r), Remittances.Receiver(r)];
      OpenAllLedger(w1, accounts);
      PostAllGrows(OpenAll(w1, accounts), Remittances.Legs(r), Ref.Remittance(first + last));
    }
  }

  // ---------------------------------------------------------------- every step, every run

  /** What was posted is still there, in its place. */
  predicate Grows(db: Db, db': Db) {
    db.wallet.ledger <= db'.wallet.ledger
  }

  lemma NewWithdrawalGrows(db: Db, user: UserId, amount: int, purpose: Purpose, key: Option<nat>, ok: bool, at: Stamp,
                           policies: Policies)
    requires Withdrawals.Create(db, user, amount, purpose, key, ok, at, policies).Ok?
    ensures Grows(db, Withdrawals.Create(db, user, amount, purpose, key, ok, at, policies).value.0)
  {
    hide ReserveBoth, ReserveFunds, GetOrCreate, UsableCapacity, Row;
    SameLedger(db.wallet, Acct(user, IRR), Withdraw(db.nextId), amount);
    SameLedger(GetOrCreate(db.wallet, Acct(user, IRR)), Acct(user, IRR), Withdraw(db.nextId), amount);
  }

  lemma WithdrawalApproval(db: Db, id: Id) returns (w: Wallet)
    requires Withdrawals.Approve(db, id).Ok?
    ensures id in db.withdrawals
    ensures var r := db.withdrawals[id];
            if r.tx.Some? then Withdrawals.Approve(db, id) == Ok(db)
            else && w.ledger == db.wallet.ledger + [Posting(Acct(r.user, IRR), -r.amount, Minus(r.amount).EntrySide(),
                                                            Withdraw(id), None)]
                 && Withdrawals.Approve(db, id) ==
                      Ok(db.(wallet := w, quota := Consume(db.quota, Withdraw(id)),
                             withdrawals := db.withdrawals[id :=
                               r.(status := RequestStatus.Approved, tx := Some(|db.wallet.ledger|))]))
  {
    hide ConsumeFunds, Consume, Row, UsableCapacity;
    w := db.wallet;
    var r := db.withdrawals[id];
    if r.tx.None? {
      SameLedger(db.wallet, Acct(r.user, IRR), Withdraw(id), 0);
      var w1 := ConsumeFunds(db.wallet, Acct(r.user, IRR), Withdraw(id)).value;
      w := ApplyTransaction(w1, Acct(r.user, IRR), Minus(r.amount), Withdraw(id), None).value;
    }
  }

  lemma WithdrawalDropGrows(db: Db, id: Id, status: RequestStatus)
    requires id in db.withdrawals && Withdrawals.Drop(db, id, status).Ok?
    ensures Grows(db, Withdrawals.Drop(db, id, status).value)
  {
    hide ReleaseFunds, Release;
    SameLedger(db.wallet, Withdrawals.Account(db.withdrawals[id]), Withdraw(id), 0);
  }

  lemma WithdrawalRejectGrows(db: Db, id: Id)
    requires Withdrawals.Reject(db, id).Ok?
    ensures Grows(db, Withdrawals.Reject(db, id).value)
  {
    hide Withdrawals.Drop, Decides;
    if Withdrawals.Drop(db, id, RequestStatus.Rejected).Ok? {
      WithdrawalDropGrows(db, id, RequestStatus.Rejected);
    }
  }

  lemma WithdrawalCancelGrows(db: Db, id: Id)
    requires Withdrawals.Cancel(db, id).Ok?
    ensures Grows(db, Withdrawals.Cancel(db, id).value)
  {
    hide Withdrawals.Drop, Decides;
    if Withdrawals.Drop(db, id, RequestStatus.Cancelled).Ok? {
      WithdrawalDropGrows(db, id, RequestStatus.Cancelled);
    }
  }

  lemma DepositApproval(db: Db, id: Id) returns (w: Wallet)
    requires Deposits.Approve(db, id).Ok?
    ensures id in db.deposits
    ensures var d := db.deposits[id];
            if d.tx.Some? then Deposits.Approve(db, id) == Ok(db)
            else && w.ledger == db.wallet.ledger + [Posting(Acct(d.user, IRR), d.amount, Plus(d.amount).EntrySide(),
                                                            Ref.Deposit(id), None)]
                 && Deposits.Approve(db, id) ==
                      Ok(db.(wallet := w,
                             deposits := db.deposits[id :=
                               d.(status := RequestStatus.Approved, tx := Some(|db.wallet.ledger|))]))
  {
    hide GetOrCreate, Decides;
    w := db.wallet;
    var d := db.deposits[id];
    if d.tx.None? {
      SameLedger(db.wallet, Acct(d.user, IRR), Ref.Deposit(id), 0);
      w := ApplyTransaction(GetOrCreate(db.wallet, Acct(d.user, IRR)), Acct(d.user, IRR), Plus(d.amount),
                            Ref.Deposit(id), None).value;
    }
  }

  lemma DepositCancelGrows(db: Db, id: Id)
    requires Deposits.Cancel(db, id).Ok?
    ensures Grows(db, Deposits.Cancel(db, id).value)
  {
    hide Deposits.Cancel;
    var w := Records.DepositCancelWrites(db, id);
  }

  lemma NewTradeGrows(db: Db, client: UserId, instr: Instrument, side: TradeSide, quantity: int, price: int,
                      metric: Option<Metric>, product: Id, key: Option<nat>, quote: Id, at: Stamp, policies: Policies)
    requires Trades.Create(db, client, instr, side, quantity, price, metric, product, key, quote, at, policies).Ok?
    ensures Grows(db, Trades.Create(db, client, instr, side, quantity, price, metric, product, key, quote, at,
                                    policies).value.0)
  {
    hide Trades.ReserveLimits, ReserveFunds, TradeAccount, TradeAmount;
    var t := TradeRow(client, instr, side, quantity, quantity * price, metric, product, TradeStatus.Pending, false, at);
    SameLedger(db.wallet, TradeAccount(t), Ref.Trade(db.nextId), TradeAmount(t));
  }

  lemma TradeApprovalGrows(db: Db, id: Id)
    requires Trades.Approve(db, id).Ok?
    ensures Grows(db, Trades.Approve(db, id).value)
  {
    hide ConsumeFunds, OpenAll, PostAll, Consume, Row, UsableCapacity, Decides, TradeLegs, Trades.TradeAccounts,
         TradeAccount, TradeAmount;
    var (t, ref) := (db.trades[id], Ref.Trade(id));
    if t.status.Pending? {
      SameLedger(db.wallet, TradeAccount(t), ref, 0);
      var w1 := ConsumeFunds(db.wallet, TradeAccount(t), ref).value;
      OpenAllLedger(w1, Trades.TradeAccounts(t));
      PostAllGrows(OpenAll(w1, Trades.TradeAccounts(t)), TradeLegs(t), ref);
    }
  }

  lemma TradeDropGrows(db: Db, id: Id, status: TradeStatus)
    requires id in db.trades && Trades.Drop(db, id, status).Ok?
    ensures Grows(db, Trades.Drop(db, id, status).value)
  {
    hide ReleaseFunds, Release, TradeAccount;
    SameLedger(db.wallet, TradeAccount(db.trades[id]), Ref.Trade(id), 0);
  }

  lemma TradeRejectGrows(db: Db, id: Id)
    requires Trades.Reject(db, id).Ok?
    ensures Grows(db, Trades.Reject(db, id).value)
  {
    hide Trades.Drop, Decides;
    if Trades.Drop(db, id, TradeStatus.Rejected).Ok? {
      TradeDropGrows(db, id, TradeStatus.Rejected);
    }
  }

  lemma TradeCancelGrows(db: Db, id: Id)
    requires Trades.Cancel(db, id).Ok?
    ensures Grows(db, Trades.Cancel(db, id).value)
  {
    hide Trades.Drop, Decides;
    if Trades.Drop(db, id, TradeStatus.CancelledByAdmin).Ok? {
      TradeDropGrows(db, id, TradeStatus.CancelledByAdmin);
    }
  }

  lemma TradeReverseGrows(db: Db, id: Id)
    requires Trades.Reverse(db, id).Ok?
    ensures Grows(db, Trades.Reverse(db, id).value)
  {
    hide Decides, Trades.PostingsOf, Trades.ReverseAll;
    var ref := Ref.Trade(id);
    Trades.PostingsInRange(db.wallet.ledger, ref);
    if !db.trades[id].reversed {
      ReverseAllGrows(db.wallet, Trades.PostingsOf(db.wallet.ledger, ref), ref);
    }
  }

  lemma NewMovementGrows(db: Db, user: UserId, kind: MovementKind, weight: int, ayar: int, key: Option<nat>, at: Stamp,
                         policies: Policies)
    requires Custody.Request(db, user, kind, weight, ayar, key, at, policies).Ok?
    ensures Grows(db, Custody.Request(db, user, kind, weight, ayar, key, at, policies).value.0)
  {
    hide ReserveBoth, ReserveFunds, Custody.ToEquiv750, Aside, RemittancesAside;
    SameLedger(db.wallet, Acct(user, GOLD), Ref.Custody(db.nextId), Custody.ToEquiv750(weight, ayar));
  }

  lemma MovementApprovalGrows(db: Db, id: Id)
    requires Custody.Approve(db, id).Ok?
    ensures Grows(db, Custody.Approve(db, id).value)
  {
    hide ConsumeFunds, OpenAll, PostAll, Consume, Decides, Custody.MovementLegs;
    var (m, ref) := (db.movements[id], Ref.Custody(id));
    if m.status.Pending? {
      SameLedger(db.wallet, Custody.UserGold(m), ref, 0);
      var w1 := Custody.ConsumeIfOut(db.wallet, m, ref).value;
      OpenAllLedger(w1, [Custody.UserGold(m), Custody.HOUSE_GOLD]);
      PostAllGrows(OpenAll(w1, [Custody.UserGold(m), Custody.HOUSE_GOLD]), Custody.MovementLegs(m), ref);
    }
  }

  lemma MovementDropGrows(db: Db, id: Id, status: MovementStatus)
    requires id in db.movements && Custody.Drop(db, id, status).Ok?
    ensures Grows(db, Custody.Drop(db, id, status).value)
  {
    hide ReleaseFunds, Release;
    SameLedger(db.wallet, Custody.UserGold(db.movements[id]), Ref.Custody(id), 0);
  }

  lemma MovementRejectGrows(db: Db, id: Id)
    requires Custody.Reject(db, id).Ok?
    ensures Grows(db, Custody.Reject(db, id).value)
  {
    hide Custody.Drop, Decides;
    if Custody.Reject(db, id).value != db {
      MovementDropGrows(db, id, MovementStatus.Rejected);
    }
  }

  lemma MovementCancelGrows(db: Db, id: Id)
    requires Custody.Cancel(db, id).Ok?
    ensures Grows(db, Custody.Cancel(db, id).value)
  {
    hide Custody.Drop, Decides;
    if Custody.Cancel(db, id).value != db {
      MovementDropGrows(db, id, MovementStatus.Cancelled);
    }
  }

  lemma NewRemittanceGrows(db: Db, sender: UserId, receiver: UserId, instr: Instrument, amount: int, key: Option<nat>,
                           at: Stamp, policies: Policies)
    requires Remittances.Create(db, sender, receiver, instr, amount, key, at, policies).Ok?
    ensures Grows(db, Remittances.Create(db, sender, receiver, instr, amount, key, at, policies).value.0)
  {
    hide ReserveBoth, ReserveFunds, Aside;
    SameLedger(db.wallet, Acct(sender, instr), Ref.Remittance(db.nextId), amount);
  }

  lemma RemittanceApprovalGrows(db: Db, id: Id)
    requires Remittances.Approve(db, id).Ok?
    ensures Grows(db, Remittances.Approve(db, id).value)
  {
    hide ConsumeFunds, OpenAll, PostAll, Consume, Decides, Remittances.Legs;
    var (r, ref) := (db.remittances[id], Ref.Remittance(id));
    if r.status.Pending? {
      SameLedger(db.wallet, Remittances.Sender(r), ref, 0);
      var w1 := ConsumeFunds(db.wallet, Remittances.Sender(r), ref).value;
      OpenAllLedger(w1, [Remittances.Sender(r), Remittances.Receiver(r)]);
      PostAllGrows(OpenAll(w1, [Remittances.Sender(r), Remittances.Receiver(r)]), Remittances.Legs(r), ref);
    }
  }

  lemma RemittanceRejectGrows(db: Db, id: Id)
    requires Remittances.Reject(db, id).Ok?
    ensures Grows(db, Remittances.Reject(db, id).value)
  {
    hide ReleaseFunds, Release, Decides;
    SameLedger(db.wallet, Remittances.Sender(db.remittances[id]), Ref.Remittance(id), 0);
  }

  lemma GroupGrows(db: Db, sender: UserId, legs: seq<Remittances.LegInput>, at: Stamp)
    requires Remittances.CreateGroup(db, sender, legs, at).Ok?
    ensures Grows(db, Remittances.CreateGroup(db, sender, legs, at).value)
  {
    hide Remittances.PostLegs, OpenAll, Remittances.GroupAccounts, Remittances.Inputs, Remittances.LegRows,
         Remittances.SettleAll, Remittances.Affordable, Aside;
    OpenAllLedger(db.wallet, Remittances.GroupAccounts(sender, legs));
    PostLegsGrows(OpenAll(db.wallet, Remittances.GroupAccounts(sender, legs)), sender, legs, db.nextId, at);
  }
  /** The debit, then the credit; and the allocation names both. */
  lemma Settlement(db: Db, id: Id, mode: P2P.Mode, now: int)
    requires P2P.Finalize(db, id, mode, now).Ok?
    ensures P2P.Loaded(db, id) && Grows(db, P2P.Finalize(db, id, mode, now).value)
    ensures P2P.Finalize(db, id, mode, now).value != db ==>
              var (al, ref) := (db.allocations[id], WithdrawAllocation(id));
              var (r, d) := (db.withdrawals[al.withdrawal], db.deposits[al.deposit]);
              var db' := P2P.Finalize(db, id, mode, now).value;
              && db'.wallet.ledger == db.wallet.ledger +
                   [Posting(Acct(r.user, IRR), -al.amount, Minus(al.amount).EntrySide(), ref, None),
                    Posting(Acct(d.user, IRR), al.amount, Plus(al.amount).EntrySide(), ref, None)]
              && id in db'.allocations
              && db'.allocations[id] == al.(status := AllocationStatus.Settled, debitTx := Some(|db.wallet.ledger|),
                                            creditTx := Some(|db.wallet.ledger| + 1))
  {
    hide ConsumeFunds, OpenAll, PostAll, Consume, DeriveStatus, P2P.Finalizable, Stays, RemittancesAside, Decided;
    var (al, ref) := (db.allocations[id], WithdrawAllocation(id));
    var (r, d) := (db.withdrawals[al.withdrawal], db.deposits[al.deposit]);
    if P2P.Finalize(db, id, mode, now).value != db {
      SameLedger(db.wallet, Acct(r.user, IRR), ref, 0);
      var w1 := ConsumeFunds(db.wallet, Acct(r.user, IRR), ref).value;
      OpenAllLedger(w1, [Acct(r.user, IRR), Acct(d.user, IRR)]);
      PostTwo(OpenAll(w1, [Acct(r.user, IRR), Acct(d.user, IRR)]), Acct(r.user, IRR), Acct(d.user, IRR), al.amount,
              ref);
    }
  }

  lemma PostTwo(w: Wallet, from: Acct, to: Acct, amount: int, ref: Ref)
    requires PostAll(w, TransferLegs(from, to, amount), ref).Ok?
    ensures PostAll(w, TransferLegs(from, to, amount), ref).value.ledger ==
              w.ledger + [Posting(from, -amount, Minus(amount).EntrySide(), ref, None),
                          Posting(to, amount, Plus(amount).EntrySide(), ref, None)]
  {
    hide ApplyTransaction;
    var legs := TransferLegs(from, to, amount);
    var w1 := ApplyTransaction(w, from, Minus(amount), ref, None).value;
    assert legs[1..] == [legs[1]] && legs[1..][1..] == [];
    assert PostAll(w1, legs[1..], ref).Ok?;
    var w2 := ApplyTransaction(w1, to, Plus(amount), ref, None).value;
    assert PostAll(w2, legs[1..][1..], ref) == Ok(w2);
    Records.ApplyAppends(w, from, Minus(amount), ref);
    Records.ApplyAppends(w1, to, Plus(amount), ref);
  }
  lemma {:induction false} AssignAllLedger(db: Db, w: Id, items: seq<P2P.Item>, expiresAt: int)
    requires w in db.withdrawals && P2P.AssignAll(db, w, items, expiresAt).Ok?
    ensures P2P.AssignAll(db, w, items, expiresAt).value.wallet.ledger == db.wallet.ledger
  {
    hide Split, DeriveStatus, Stays, RemittancesAside;
    if items != [] {
      AssignAllLedger(db, w, items[..|items| - 1], expiresAt);
    }
  }

  lemma AssignGrows(db: Db, w: Id, items: seq<P2P.Item>, key: Option<nat>, ok: bool, expiresAt: int)
    requires P2P.Assign(db, w, items, key, ok, expiresAt).Ok?
    ensures Grows(db, P2P.Assign(db, w, items, key, ok, expiresAt).value.0)
  {
    hide P2P.AssignAll, Stays, RemittancesAside, P2P.Sum;
    if !P2PInvariant.Replays(db, w, key) {
      AssignAllLedger(db, w, items, expiresAt);
    }
  }

  lemma GiveBackGrows(db: Db, id: Id)
    ensures P2P.Cancel(db, id).Ok? ==> Grows(db, P2P.Cancel(db, id).value)
    ensures Grows(db, P2P.ExpireOne(db, id))
  {
    hide Merge, DeriveStatus, Stays, RemittancesAside;
  }

  lemma DeleteGrows(db: Db, file: Id, force: bool, found: bool, elsewhere: bool)
    requires Files.DeleteAsAdmin(db, file, force, found, elsewhere).Ok?
    ensures Grows(db, Files.DeleteAsAdmin(db, file, force, found, elsewhere).value)
  {
    hide Stays, RemittancesAside, Files.WithoutFile, Files.Attached;
  }

  lemma RowGrows(db: Db, db': Db, id: Id)
    requires P2PProtocol.WritesRow(db, db', id)
    ensures Grows(db, db')
  {
  }

  lemma SubmitGrows(db: Db, id: Id, user: UserId, files: seq<Id>, found: bool, mine: bool, now: int)
    requires P2P.SubmitProof(db, id, user, files, found, mine, now).Ok?
    ensures Grows(db, P2P.SubmitProof(db, id, user, files, found, mine, now).value)
  {
    hide P2P.SubmitProof, P2PProtocol.WritesRow, Grows, Stays, RemittancesAside;
    P2PProtocol.SubmissionRecorded(db, id, user, files, found, mine, now);
    RowGrows(db, P2P.SubmitProof(db, id, user, files, found, mine, now).value, id);
  }

  lemma ConfirmGrows(db: Db, id: Id, user: UserId, confirmed: bool, mode: P2P.Mode)
    requires P2P.ReceiverConfirm(db, id, user, confirmed, mode).Ok?
    ensures Grows(db, P2P.ReceiverConfirm(db, id, user, confirmed, mode).value)
  {
    hide P2P.ReceiverConfirm, P2PProtocol.WritesRow, Grows, Stays, RemittancesAside;
    P2PProtocol.ReceiverAnswers(db, id, user, confirmed, mode);
    RowGrows(db, P2P.ReceiverConfirm(db, id, user, confirmed, mode).value, id);
  }

  lemma VerifyGrows(db: Db, id: Id, approved: bool)
    requires P2P.AdminVerify(db, id, approved).Ok?
    ensures Grows(db, P2P.AdminVerify(db, id, approved).value)
  {
    hide P2P.AdminVerify, P2PProtocol.WritesRow, Grows, Stays, RemittancesAside;
    P2PProtocol.AdminAnswers(db, id, approved);
    RowGrows(db, P2P.AdminVerify(db, id, approved).value, id);
  }

  lemma SettlementGrows(db: Db, id: Id, mode: P2P.Mode, now: int)
    requires P2P.Finalize(db, id, mode, now).Ok?
    ensures Grows(db, P2P.Finalize(db, id, mode, now).value)
  {
    hide P2P.Finalize;
    Settlement(db, id, mode, now);
  }

  lemma P2PGrows(mode: P2P.Mode, db: Db, e: Event)
    requires P2PStep(e.step) && Next(mode, db, e).Ok?
    ensures Grows(db, Next(mode, db, e).value)
  {
    hide P2P.Assign, P2P.SubmitProof, P2P.ReceiverConfirm, P2P.AdminVerify, P2P.Finalize, P2P.Cancel, P2P.ExpireOne,
         Files.DeleteAsAdmin, Stays, RemittancesAside, Decided, Grows;
    match e.step {
      case Assign(id, items, key, ok, expiresAt) => AssignGrows(db, id, items, key, ok, expiresAt);
      case SubmitProof(id, user, files, found, mine, now) => SubmitGrows(db, id, user, files, found, mine, now);
      case ReceiverConfirm(id, user, yes) => ConfirmGrows(db, id, user, yes, mode);
      case AdminVerify(id, yes) => VerifyGrows(db, id, yes);
      case Finalize(id, now) => SettlementGrows(db, id, mode, now);
      case CancelAllocation(id) => GiveBackGrows(db, id);
      case ExpireAllocation(id) => GiveBackGrows(db, id);
      case DeleteFile(file, force, found, elsewhere) => DeleteGrows(db, file, force, found, elsewhere);
    }
  }

  lemma NewGrows(mode: P2P.Mode, db: Db, e: Event)
    requires (Creates(e.step) || e.step.CreateDeposit? || e.step.CreateGroup?) && Next(mode, db, e).Ok?
    ensures Grows(db, Next(mode, db, e).value)
  {
    hide Withdrawals.Create, Trades.Create, Custody.Request, Remittances.Create, Remittances.CreateGroup, Stays,
         RemittancesAside, Aside, Grows;
    match e.step {
      case CreateWithdrawal(user, amount, purpose, key, ok) =>
        NewWithdrawalGrows(db, user, amount, purpose, key, ok, e.at, e.policies);
      case CreateDeposit(user, amount, purpose) => SameGrows(db, Next(mode, db, e).value);
      case CreateTrade(user, instr, side, quantity, price, metric, product, key, quote) =>
        NewTradeGrows(db, user, instr, side, quantity, price, metric, product, key, quote, e.at, e.policies);
      case RequestMovement(user, kind, weight, ayar, key) =>
        NewMovementGrows(db, user, kind, weight, ayar, key, e.at, e.policies);
      case CreateRemittance(user, receiver, instr, amount, key) =>
        NewRemittanceGrows(db, user, receiver, instr, amount, key, e.at, e.policies);
      case CreateGroup(user, legs) => GroupGrows(db, user, legs, e.at);
    }
  }

  lemma SameGrows(db: Db, db': Db)
    requires db'.wallet.ledger == db.wallet.ledger
    ensures Grows(db, db')
  {
  }

  lemma WithdrawalApprovalGrows(db: Db, id: Id)
    requires Withdrawals.Approve(db, id).Ok?
    ensures Grows(db, Withdrawals.Approve(db, id).value)
  {
    hide Withdrawals.Approve, Consume;
    var w := WithdrawalApproval(db, id);
  }

  lemma DepositApprovalGrows(db: Db, id: Id)
    requires Deposits.Approve(db, id).Ok?
    ensures Grows(db, Deposits.Approve(db, id).value)
  {
    hide Deposits.Approve, Decides;
    var w := DepositApproval(db, id);
  }

  lemma DepositRejectGrows(db: Db, id: Id)
    requires Deposits.Reject(db, id).Ok?
    ensures Grows(db, Deposits.Reject(db, id).value)
  {
    hide Decides;
  }

  lemma OpeningGrows(db: Db, a: Acct)
    ensures Grows(db, db.(wallet := GetOrCreate(db.wallet, a)))
  {
  }

  lemma CashGrows(mode: P2P.Mode, db: Db, e: Event)
    requires || e.step.ApproveWithdrawal? || e.step.RejectWithdrawal? || e.step.CancelWithdrawal?
             || e.step.ApproveDeposit? || e.step.RejectDeposit? || e.step.CancelDeposit?
             || e.step.OpenAccount? || e.step.Adjust?
    requires Next(mode, db, e).Ok?
    ensures Grows(db, Next(mode, db, e).value)
  {
    hide Withdrawals.Approve, Withdrawals.Reject, Withdrawals.Cancel, Deposits.Approve, Deposits.Reject,
         Deposits.Cancel, Decides, Grows, Machine.Adjustment, GetOrCreate;
    match e.step {
      case ApproveWithdrawal(id) => WithdrawalApprovalGrows(db, id);
      case RejectWithdrawal(id) => WithdrawalRejectGrows(db, id);
      case CancelWithdrawal(id) => WithdrawalCancelGrows(db, id);
      case ApproveDeposit(id) => DepositApprovalGrows(db, id);
      case RejectDeposit(id) => DepositRejectGrows(db, id);
      case CancelDeposit(id) => DepositCancelGrows(db, id);
      case OpenAccount(user, instr) => OpeningGrows(db, Acct(user, instr));
      case Adjust(user, instr, delta, refId) => AdjustmentGrows(db, Acct(user, instr), delta, refId);
    }
  }

  lemma GoodsGrows(mode: P2P.Mode, db: Db, e: Event)
    requires || e.step.ApproveTrade? || e.step.RejectTrade? || e.step.CancelTrade? || e.step.ReverseTrade?
             || e.step.ApproveMovement? || e.step.RejectMovement? || e.step.CancelMovement?
             || e.step.ApproveRemittance? || e.step.RejectRemittance? || e.step.CancelRemittance?
    requires Next(mode, db, e).Ok?
    ensures Grows(db, Next(mode, db, e).value)
  {
    hide Trades.Approve, Trades.Reject, Trades.Cancel, Trades.Reverse, Custody.Approve, Custody.Reject, Custody.Cancel,
         Remittances.Approve, Remittances.Reject, Decides, Grows;
    match e.step {
      case ApproveTrade(id) => TradeApprovalGrows(db, id);
      case RejectTrade(id) => TradeRejectGrows(db, id);
      case CancelTrade(id) => TradeCancelGrows(db, id);
      case ReverseTrade(id) => TradeReverseGrows(db, id);
      case ApproveMovement(id) => MovementApprovalGrows(db, id);
      case RejectMovement(id) => MovementRejectGrows(db, id);
      case CancelMovement(id) => MovementCancelGrows(db, id);
      case ApproveRemittance(id) => RemittanceApprovalGrows(db, id);
      case RejectRemittance(id) => RemittanceRejectGrows(db, id);
      case CancelRemittance(id, _) => RemittanceRejectGrows(db, id);
    }
  }

  lemma AdjustmentGrows(db: Db, a: Acct, delta: int, refId: Id)
    requires Machine.Adjustment(db, a, delta, refId).Ok?
    ensures Grows(db, Machine.Adjustment(db, a, delta, refId).value)
  {
    hide ApplyTransaction;
    Records.ApplyAppends(db.wallet, a, Plus(delta), Ref.Adjustment(refId));
  }

  /** No step of any service takes a posting back or changes one, whatever the state. */
  lemma StepGrows(mode: P2P.Mode, db: Db, e: Event)
    ensures Grows(db, After(mode, db, e))
  {
    hide Next, Grows;
    SameGrows(db, db);
    if Next(mode, db, e).Ok? {
      if P2PStep(e.step) {
        P2PGrows(mode, db, e);
      } else if Creates(e.step) || e.step.CreateDeposit? || e.step.CreateGroup? {
        NewGrows(mode, db, e);
      } else if || e.step.ApproveTrade? || e.step.RejectTrade? || e.step.CancelTrade? || e.step.ReverseTrade?
                || e.step.ApproveMovement? || e.step.RejectMovement? || e.step.CancelMovement?
                || e.step.ApproveRemittance? || e.step.RejectRemittance? || e.step.CancelRemittance? {
        GoodsGrows(mode, db, e);
      } else {
        CashGrows(mode, db, e);
      }
    }
  }

  /** So no run does: the ledger of every later state begins with this one's. */
  lemma {:induction false} RunGrows(mode: P2P.Mode, db: Db, events: seq<Event>)
    ensures Grows(db, Run(mode, db, events))
  {
    hide After;
    if events != [] {
      var db1 := Run(mode, db, events[..|events| - 1]);
      RunGrows(mode, db, events[..|events| - 1]);
      StepGrows(mode, db1, events[|events| - 1]);
    }
  }

  // ---------------------------------------------------------------- what a request names as its posting

  predicate PostedAt(db: Db, tx: Option<nat>, p: Posting) {
    tx.Some? && tx.value < |db.wallet.ledger| && db.wallet.ledger[tx.value] == p
  }

  /** An allocation that settles names its debit to the receiver of the payout and its credit to the payer, and does so
      for good. */
  lemma SettlementNamed(mode: P2P.Mode, db: Db, id: Id, now: int, events: seq<Event>)
    requires Inv(db) && AllAdmissible(events) && P2P.Finalize(db, id, mode, now).Ok?
    requires id in db.allocations && !db.allocations[id].status.Settled?
    ensures P2P.Loaded(db, id)
    ensures var (al, ref) := (db.allocations[id], WithdrawAllocation(id));
            var (receiver, payer) := (db.withdrawals[al.withdrawal].user, db.deposits[al.deposit].user);
            var later := Run(mode, P2P.Finalize(db, id, mode, now).value, events);
            && id in later.allocations
            && PostedAt(later, later.allocations[id].debitTx,
                        Posting(Acct(receiver, IRR), -al.amount, Debit, ref, None))
            && PostedAt(later, later.allocations[id].creditTx, Posting(Acct(payer, IRR), al.amount, Credit, ref, None))
  {
    hide Inv, Run, P2P.Finalize, P2PInvariant.P2POnly, Consistent;
    var db' := P2P.Finalize(db, id, mode, now).value;
    P2PProtocol.SoundAt(db, id);
    P2PInvariant.FinalizeSettles(db, id, mode, now);
    P2PInvariant.FinalizeKeepsInv(db, id, mode, now);
    Settlement(db, id, mode, now);
    Records.RunFollows(mode, db', events);
    RunGrows(mode, db', events);
  }

  /** So does a withdrawal that is approved. */
  lemma WithdrawalNamed(mode: P2P.Mode, db: Db, id: Id, events: seq<Event>)
    requires Inv(db) && AllAdmissible(events) && Withdrawals.Approve(db, id).Ok?
    requires id in db.withdrawals && db.withdrawals[id].tx.None?
    ensures var (r, later) := (db.withdrawals[id], Run(mode, Withdrawals.Approve(db, id).value, events));
            && id in later.withdrawals && later.withdrawals[id].status.Approved?
            && PostedAt(later, later.withdrawals[id].tx,
                        Posting(Acct(r.user, IRR), -r.amount, Debit, Withdraw(id), None))
  {
    hide Inv, Run, Withdrawals.Approve, OnlyOn, Consume;
    var db' := Withdrawals.Approve(db, id).value;
    Records.WithdrawalRow(db, id);
    Records.WithdrawalApproved(db, id);
    Withdrawals.ApproveKeepsInv(db, id);
    var w := WithdrawalApproval(db, id);
    Records.RunFollows(mode, db', events);
    Records.WithdrawalRow(db', id);
    RunGrows(mode, db', events);
  }

  /** And a deposit, also after it was reversed. */
  lemma DepositNamed(mode: P2P.Mode, db: Db, id: Id, events: seq<Event>)
    requires Inv(db) && AllAdmissible(events) && Deposits.Approve(db, id).Ok?
    requires id in db.deposits && db.deposits[id].tx.None?
    ensures var (d, later) := (db.deposits[id], Run(mode, Deposits.Approve(db, id).value, events));
            && id in later.deposits
            && PostedAt(later, later.deposits[id].tx,
                        Posting(Acct(d.user, IRR), d.amount,
                                if d.amount < 0 then Debit else Credit, Ref.Deposit(id), None))
  {
    hide Inv, Run, Deposits.Approve, OnlyOn, Decides;
    var db' := Deposits.Approve(db, id).value;
    Deposits.ApproveKeepsInv(db, id);
    var w := DepositApproval(db, id);
    Records.RunFollows(mode, db', events);
    RunGrows(mode, db', events);
  }
}
