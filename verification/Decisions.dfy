/** Which decisions each status of a request allows: when one is taken, when it changes nothing, when it is refused. */
module Decisions {
  import opened Base
  import opened Accounts
  import opened Limits
  import opened State
  import opened Frames
  import opened Machine
  import Withdrawals
  import Deposits
  import Trades
  import Custody
  import Remittances
  import P2P
  import P2PProtocol
  import Records

  /** A decision on something that is there is taken, or was taken already, or is refused for its status. */
  predicate Answers(db: Db, r: Result<Db>, taken: bool, already: bool) {
    && (taken ==> r.Ok?)
    && (already ==> r == Ok(db))
    && (!taken && !already ==> r == Err(BadStatus))
  }

  lemma WithdrawalStatus(db: Db, id: Id)
    requires Inv(db) && id in db.withdrawals
    ensures var r := db.withdrawals[id];
            && (r.status.Pending? || r.status.Approved? || r.status.Rejected? ==> r.purpose.Direct?)
            && (r.tx.Some? <==> r.status.Approved?)
  {
    hide Inv, ViewOf, WithdrawalView, HoldsOf, LimitsOf, Both;
    Records.WithdrawalRow(db, id);
    var r := db.withdrawals[id];
    if r.status.Pending? || r.status.Approved? || r.status.Rejected? {
      Withdrawals.PendingKnown(db, id);
    }
  }

  /** A withdrawal: pending ones are approved or rejected, and approving again, or rejecting again, changes nothing;
      cancelling is refused for approved ones only, and means something for pending and rejected ones. */
  lemma OnWithdrawal(db: Db, id: Id)
    requires Inv(db) && id in db.withdrawals
    ensures var s := db.withdrawals[id].status;
            && Answers(db, Withdrawals.Approve(db, id), s.Pending?, s.Approved?)
            && Answers(db, Withdrawals.Reject(db, id), s.Pending?, s.Rejected?)
            && Answers(db, Withdrawals.Cancel(db, id), s.Pending? || s.Rejected?,
                       !s.Pending? && !s.Rejected? && !s.Approved?)
  {
    hide Inv, Withdrawals.Drop, ConsumeFunds, ApplyTransaction, Consume, Effect, Decides;
    var s := db.withdrawals[id].status;
    WithdrawalStatus(db, id);
    if s.Pending? {
      Withdrawals.ApproveSucceeds(db, id);
      Withdrawals.DropSucceeds(db, id, RequestStatus.Rejected);
    }
    if s.Pending? || s.Rejected? {
      Withdrawals.DropSucceeds(db, id, RequestStatus.Cancelled);
    }
  }

  lemma DepositStatus(db: Db, id: Id)
    requires Inv(db) && id in db.deposits
    ensures var d := db.deposits[id]; d.tx.Some? <==> d.status.Approved? || d.status.Reversed?
  {
    hide Inv;
    Records.DepositRow(db, id);
    if db.deposits[id].status.Approved? || db.deposits[id].status.Reversed? {
      DecidedIsDirect(db, id);
    }
  }

  lemma DecidedIsDirect(db: Db, id: Id)
    requires Inv(db) && id in db.deposits && (db.deposits[id].status.Approved? || db.deposits[id].status.Reversed?)
    ensures db.deposits[id].purpose.Direct?
  {
    hide Sound, QuotaSound, Explained, RowsSound, LinksSound, ReversalsSound, IdsSound, Conserved, WithdrawalsTotal;
    assert DepositTotals(id, db.deposits[id], db.allocations);
  }

  /** Nothing keeps a deposit from being of less than nothing, so approving one takes an account that can bear it. */
  lemma DepositApprovable(db: Db, id: Id)
    requires Inv(db) && id in db.deposits && db.deposits[id].status.Pending?
    ensures var (d, a) := (db.deposits[id], Acct(db.deposits[id].user, IRR));
            Deposits.Approve(db, id).Ok? <==> UsableCapacity(Row(db.wallet, a)) + d.amount >= 0
  {
    hide Inv, HoldsOf, LimitsOf, MovesOf, Decides, DepositSound;
    DepositStatus(db, id);
    Deposits.DirectKnown(db, id);
    assert !Taken(db.wallet.ledger, Ref.Deposit(id), Acct(db.deposits[id].user, IRR),
                  Plus(db.deposits[id].amount).EntrySide());
  }

  /** A deposit: pending ones are approved if their account can bear it, or rejected; rejecting again is refused;
      approved ones are reversed if their account can give the amount back. */
  lemma OnDeposit(db: Db, id: Id)
    requires Inv(db) && id in db.deposits
    ensures var (d, s) := (db.deposits[id], db.deposits[id].status);
            var usable := UsableCapacity(Row(db.wallet, Acct(d.user, IRR)));
            && (s.Pending? ==> (Deposits.Approve(db, id).Ok? <==> usable + d.amount >= 0))
            && (!s.Pending? ==> Answers(db, Deposits.Approve(db, id), false, s.Approved? || s.Reversed?))
            && Answers(db, Deposits.Reject(db, id), s.Pending?, false)
            && (s.Approved? ==> (Deposits.Cancel(db, id).Ok? <==> usable >= d.amount))
            && (!s.Approved? ==> Answers(db, Deposits.Cancel(db, id), s.Pending? || s.Rejected?,
                                         !s.Pending? && !s.Rejected?))
  {
    hide Inv, ApplyTransaction, GetOrCreate, Decides, OnlyOn, UsableCapacity, Row, Deposits.SetStatus;
    var s := db.deposits[id].status;
    DepositStatus(db, id);
    if s.Pending? {
      DepositApprovable(db, id);
    }
    if s.Approved? {
      Deposits.ReverseKeepsInv(db, id);
    }
  }

  /** Letting go of a pending trade never fails. */
  lemma TradeDropped(db: Db, id: Id, status: TradeStatus)
    requires Inv(db) && id in db.trades && db.trades[id].status.Pending?
    ensures Trades.Drop(db, id, status).Ok?
  {
    hide Inv, Sound, QuotaSound, RowsSound, TotalsSound, LinksSound, ReversalsSound, IdsSound, Explained, HoldsOf,
         LimitsOf, MovesOf, TradeQuotas, TradeMoves, Release, ReleaseFunds, Effect;
    Known(db, Ref.Trade(id));
    Trades.TradeKnown(db, id);
    ReleaseHeld(db.wallet, TradeAccount(db.trades[id]), Ref.Trade(id), TradeAmount(db.trades[id]));
  }

  /** A trade: pending ones are approved if the house can give its side, or rejected, or cancelled; approving anything
      else changes nothing; only approved ones are reversed. */
  lemma OnTrade(db: Db, id: Id)
    requires Inv(db) && id in db.trades
    ensures var (t, s) := (db.trades[id], db.trades[id].status);
            && (s.Pending? ==> (Trades.Approve(db, id).Ok? <==> Trades.HouseCanGive(db.wallet, t)))
            && (!s.Pending? ==> Trades.Approve(db, id) == Ok(db))
            && Answers(db, Trades.Reject(db, id), s.Pending?, s.Rejected?)
            && Answers(db, Trades.Cancel(db, id), s.Pending?, s.CancelledByAdmin?)
            && (!s.Approved? ==> Answers(db, Trades.Reverse(db, id), false, t.reversed))
  {
    hide Inv, ConsumeFunds, OpenAll, PostAll, Consume, ReleaseFunds, Release, Trades.HouseCanGive, Trades.ReverseAll,
         Trades.PostingsOf, Decides, HoldsOf, LimitsOf, MovesOf, TradeQuotas, TradeMoves, TradeLegs;
    var s := db.trades[id].status;
    if s.Pending? {
      Trades.ApproveSucceedsIff(db, id);
      TradeDropped(db, id, TradeStatus.Rejected);
      TradeDropped(db, id, TradeStatus.CancelledByAdmin);
    }
    Trades.TradeKnown(db, id);
  }

  /** A movement: pending ones are approved, in if the house has the gold, or rejected, or cancelled; cancelling a
      rejected one changes nothing. */
  lemma OnMovement(db: Db, id: Id)
    requires Inv(db) && id in db.movements
    ensures var (m, s) := (db.movements[id], db.movements[id].status);
            && (s.Pending? ==> (Custody.Approve(db, id).Ok? <==>
                  m.kind.Out? || m.user == HOUSE || UsableCapacity(Row(db.wallet, Acct(HOUSE, GOLD))) >= m.equiv))
            && (!s.Pending? ==> Answers(db, Custody.Approve(db, id), false, s.Approved?))
            && Answers(db, Custody.Reject(db, id), s.Pending?, s.Rejected?)
            && Answers(db, Custody.Cancel(db, id), s.Pending?, s.Cancelled? || s.Rejected?)
  {
    hide Inv, OpenAll, PostAll, Consume, Custody.ReleaseIfOut, Custody.ConsumeIfOut, Release, Decides, OnlyOn,
         UsableCapacity, Row;
    if db.movements[id].status.Pending? {
      Custody.ApproveSucceedsIff(db, id);
      Custody.DropKeepsInv(db, id, MovementStatus.Rejected);
      Custody.DropKeepsInv(db, id, MovementStatus.Cancelled);
    }
  }

  /** A remittance: pending ones are approved, which never fails, or rejected; its sender may cancel it where it may be
      rejected, and to anybody else there is no such remittance. */
  lemma OnRemittance(db: Db, id: Id, user: UserId)
    requires Inv(db) && id in db.remittances
    ensures var (r, s) := (db.remittances[id], db.remittances[id].status);
            && Answers(db, Remittances.Approve(db, id), s.Pending?, s.Completed?)
            && Answers(db, Remittances.Reject(db, id), s.Pending?, s.Cancelled?)
            && (user == r.sender ==> Answers(db, Remittances.CancelByUser(db, id, user), s.Pending?, s.Cancelled?))
            && (user != r.sender ==> Remittances.CancelByUser(db, id, user) == Err(NotFound))
  {
    hide Inv, ConsumeFunds, OpenAll, PostAll, Consume, ReleaseFunds, Release, Decides, OnlyOn, SameHeld,
         Remittances.Legs;
    if db.remittances[id].status.Pending? {
      Remittances.ApproveKeepsInv(db, id);
      Remittances.RejectKeepsInv(db, id);
    }
  }

  /** Nothing is decided on what is not there. */
  lemma OnNothing(db: Db, id: Id, user: UserId)
    ensures id !in db.withdrawals ==>
              Withdrawals.Approve(db, id) == Withdrawals.Reject(db, id) == Withdrawals.Cancel(db, id) == Err(NotFound)
    ensures id !in db.deposits ==>
              Deposits.Approve(db, id) == Deposits.Reject(db, id) == Deposits.Cancel(db, id) == Err(NotFound)
    ensures id !in db.trades ==>
              Trades.Approve(db, id) == Trades.Reject(db, id) == Trades.Cancel(db, id) == Trades.Reverse(db, id) ==
              Err(NotFound)
    ensures id !in db.movements ==>
              Custody.Approve(db, id) == Custody.Reject(db, id) == Custody.Cancel(db, id) == Err(NotFound)
    ensures id !in db.remittances ==>
              Remittances.Approve(db, id) == Remittances.Reject(db, id) == Remittances.CancelByUser(db, id, user) ==
              Err(NotFound)
  {
    hide ConsumeFunds, ReleaseFunds, ApplyTransaction, OpenAll, PostAll, Consume, Release, Decides;
  }

  /** Whoever may take a step that is not everybody's: the sender of a remittance, the payer and the receiver of an
      allocation. */
  predicate IsParty(db: Db, step: Step) {
    && (step.CancelRemittance? ==> step.id in db.remittances && db.remittances[step.id].sender == step.user)
    && (step.SubmitProof? ==>
          P2P.Loaded(db, step.id) && db.deposits[db.allocations[step.id].deposit].user == step.user)
    && (step.ReceiverConfirm? ==>
          P2P.Loaded(db, step.id) && db.withdrawals[db.allocations[step.id].withdrawal].user == step.user)
  }

  /** Taken by anybody else, such a step changes nothing. */
  lemma OthersChangeNothing(mode: P2P.Mode, db: Db, e: Event)
    requires !IsParty(db, e.step)
    ensures After(mode, db, e) == db
  {
    hide Remittances.Reject, Decides, Stays, RemittancesAside;
    if e.step.CancelRemittance? {
      Records.CancelledBySender(db, e.step.id, e.step.user);
    } else if P2P.Loaded(db, e.step.id) {
      hide P2P.SubmitProof, P2P.ReceiverConfirm;
      if e.step.SubmitProof? {
        P2PProtocol.SubmitAccepted(db, e.step.id, e.step.user, e.step.files, e.step.filesFound, e.step.filesOwned,
                                   e.step.now);
      } else {
        P2PProtocol.ConfirmAccepted(db, e.step.id, e.step.user, e.step.confirmed, mode);
      }
    }
  }
}
