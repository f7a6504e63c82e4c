/** The platform as one state machine: every transaction body is a step, and what every run of steps keeps. */
module Machine {
  import opened Base
  import opened Policy
  import opened Accounts
  import opened Limits
  import opened State
  import opened Frames
  import Withdrawals
  import Deposits
  import Trades
  import Custody
  import Remittances
  import P2P
  import P2PInvariant
  import P2PProtocol
  import Files

  datatype Step =
    | CreateWithdrawal(user: UserId, amount: int, purpose: Purpose, key: Option<nat>, destinationOk: bool)
    | ApproveWithdrawal(id: Id)
    | RejectWithdrawal(id: Id)
    | CancelWithdrawal(id: Id)
    | CreateDeposit(user: UserId, amount: int, purpose: Purpose)
    | ApproveDeposit(id: Id)
    | RejectDeposit(id: Id)
    | CancelDeposit(id: Id)
    | CreateTrade(user: UserId, instr: Instrument, side: TradeSide, quantity: int, price: int, metric: Option<Metric>,
                  product: Id,
                  key: Option<nat>, quote: Id)
    | ApproveTrade(id: Id)
    | RejectTrade(id: Id)
    | CancelTrade(id: Id)
    | ReverseTrade(id: Id)
    | RequestMovement(user: UserId, kind: MovementKind, weight: int, ayar: int, key: Option<nat>)
    | ApproveMovement(id: Id)
    | RejectMovement(id: Id)
    | CancelMovement(id: Id)
    | CreateRemittance(user: UserId, receiver: UserId, instr: Instrument, amount: int, key: Option<nat>)
    | ApproveRemittance(id: Id)
    | RejectRemittance(id: Id)
    | CancelRemittance(id: Id, user: UserId)
    | CreateGroup(user: UserId, legs: seq<Remittances.LegInput>)
    | Assign(id: Id, items: seq<P2P.Item>, key: Option<nat>, destinationOk: bool, expiresAt: int)
    | SubmitProof(id: Id, user: UserId, files: seq<Id>, filesFound: bool, filesOwned: bool, now: int)
    | ReceiverConfirm(id: Id, user: UserId, confirmed: bool)
    | AdminVerify(id: Id, approved: bool)
    | Finalize(id: Id, now: int)
    | CancelAllocation(id: Id)
    | ExpireAllocation(id: Id)
    | DeleteFile(file: Id, force: bool, found: bool, elsewhere: bool)
    | OpenAccount(user: UserId, instr: Instrument)
    | Adjust(user: UserId, instr: Instrument, delta: int, refId: Id)

  /** A step, with the day and month it is charged to and the limits that the rules resolve to at that time. */
  datatype Event = Event(step: Step, at: Stamp, policies: Policies)

  /** An adjustment by an administrator, of an account opened before. */
  function Adjustment(db: Db, a: Acct, delta: int, refId: Id): Result<Db> {
    var wallet :- ApplyTransaction(db.wallet, a, Plus(delta), Ref.Adjustment(refId), None);
    Ok(db.(wallet := wallet))
  }

  function Next(mode: P2P.Mode, db: Db, e: Event): Result<Db> {
    match e.step
    case CreateWithdrawal(user, amount, purpose, key, ok) =>
      var r :- Withdrawals.Create(db, user, amount, purpose, key, ok, e.at, e.policies); Ok(r.0)
    case ApproveWithdrawal(id) => Withdrawals.Approve(db, id)
    case RejectWithdrawal(id) => Withdrawals.Reject(db, id)
    case CancelWithdrawal(id) => Withdrawals.Cancel(db, id)
    case CreateDeposit(user, amount, purpose) => Ok(Deposits.Create(db, user, amount, purpose))
    case ApproveDeposit(id) => Deposits.Approve(db, id)
    case RejectDeposit(id) => Deposits.Reject(db, id)
    case CancelDeposit(id) => Deposits.Cancel(db, id)
    case CreateTrade(user, instr, side, quantity, price, metric, product, key, quote) =>
      var r :- Trades.Create(db, user, instr, side, quantity, price, metric, product, key, quote, e.at, e.policies);
          Ok(r.0)
    case ApproveTrade(id) => Trades.Approve(db, id)
    case RejectTrade(id) => Trades.Reject(db, id)
    case CancelTrade(id) => Trades.Cancel(db, id)
    case ReverseTrade(id) => Trades.Reverse(db, id)
    case RequestMovement(user, kind, weight, ayar, key) =>
      var r :- Custody.Request(db, user, kind, weight, ayar, key, e.at, e.policies); Ok(r.0)
    case ApproveMovement(id) => Custody.Approve(db, id)
    case RejectMovement(id) => Custody.Reject(db, id)
    case CancelMovement(id) => Custody.Cancel(db, id)
    case CreateRemittance(user, receiver, instr, amount, key) =>
      var r :- Remittances.Create(db, user, receiver, instr, amount, key, e.at, e.policies); Ok(r.0)
    case ApproveRemittance(id) => Remittances.Approve(db, id)
    case RejectRemittance(id) => Remittances.Reject(db, id)
    case CancelRemittance(id, user) => Remittances.CancelByUser(db, id, user)
    case CreateGroup(user, legs) => Remittances.CreateGroup(db, user, legs, e.at)
    case Assign(id, items, key, ok, expiresAt) =>
      var r :- P2P.Assign(db, id, items, key, ok, expiresAt); Ok(r.0)
    case SubmitProof(id, user, files, found, owned, now) => P2P.SubmitProof(db, id, user, files, found, owned, now)
    case ReceiverConfirm(id, user, confirmed) => P2P.ReceiverConfirm(db, id, user, confirmed, mode)
    case AdminVerify(id, approved) => P2P.AdminVerify(db, id, approved)
    case Finalize(id, now) => P2P.Finalize(db, id, mode, now)
    case CancelAllocation(id) => P2P.Cancel(db, id)
    case ExpireAllocation(id) => Ok(P2P.ExpireOne(db, id))
    case DeleteFile(file, force, found, elsewhere) => Files.DeleteAsAdmin(db, file, force, found, elsewhere)
    case OpenAccount(user, instr) => Ok(db.(wallet := GetOrCreate(db.wallet, Acct(user, instr))))
    case Adjust(user, instr, delta, refId) => Adjustment(db, Acct(user, instr), delta, refId)
  }

  /** A step that throws is rolled back. */
  function After(mode: P2P.Mode, db: Db, e: Event): Db {
    var r := Next(mode, db, e);
    if r.Ok? then r.value else db
  }

  function Run(mode: P2P.Mode, db: Db, events: seq<Event>): Db {
    if events == [] then db else After(mode, Run(mode, db, events[..|events| - 1]), events[|events| - 1])
  }

  /** Nothing keeps a custody request from naming a fineness below zero; one that does is the only step that can
      break the invariant. */
  predicate Admissible(step: Step) {
    step.RequestMovement? ==> step.weight * step.ayar > -375
  }

  predicate AllAdmissible(events: seq<Event>) {
    forall e <- events :: Admissible(e.step)
  }

  // ---------------------------------------------------------------- one step

  lemma AdjustKeepsInv(db: Db, a: Acct, delta: int, refId: Id)
    requires Inv(db) && Adjustment(db, a, delta, refId).Ok?
    ensures Inv(Adjustment(db, a, delta, refId).value) &&
            OnlyOn(db, Adjustment(db, a, delta, refId).value, Ref.Adjustment(refId))
  {
    hide Inv, Sound, QuotaSound, IdsSound, RowsSound, TotalsSound, LinksSound, ReversalsSound, Explained,
         ApplyTransaction, HoldsOf;
    var ref := Ref.Adjustment(refId);
    ApplyEffect(db.wallet, a, Plus(delta), ref, None) by {
      Known(db, ref);
    }
    var w' := ApplyTransaction(db.wallet, a, Plus(delta), ref, None).value;
    WalletStepKeepsInv(db, Adjustment(db, a, delta, refId).value, ref,
                       [Move(a, Plus(delta).value, Plus(delta).EntrySide())]);
  }

  // ---------------------------------------------------------------- what needs no invariant

  /** A step on allocations, or on the files attached to them. */
  predicate P2PStep(step: Step) {
    || step.Assign? || step.SubmitProof? || step.ReceiverConfirm? || step.AdminVerify? || step.Finalize? ||
       step.CancelAllocation?
    || step.ExpireAllocation? || step.DeleteFile?
  }

  predicate RemittanceStep(step: Step) {
    step.CreateRemittance? || step.ApproveRemittance? || step.RejectRemittance? || step.CancelRemittance? ||
    step.CreateGroup?
  }

  /** The reference that a step of one of the other services works on. */
  function RefOf(db: Db, step: Step): Ref
    requires !P2PStep(step) && !step.CreateGroup?
  {
    match step
    case CreateWithdrawal(_, _, _, _, _) => Withdraw(db.nextId)
    case ApproveWithdrawal(id) => Withdraw(id)
    case RejectWithdrawal(id) => Withdraw(id)
    case CancelWithdrawal(id) => Withdraw(id)
    case CreateDeposit(_, _, _) => Ref.Deposit(db.nextId)
    case ApproveDeposit(id) => Ref.Deposit(id)
    case RejectDeposit(id) => Ref.Deposit(id)
    case CancelDeposit(id) => Ref.Deposit(id)
    case CreateTrade(_, _, _, _, _, _, _, _, _) => Ref.Trade(db.nextId)
    case ApproveTrade(id) => Ref.Trade(id)
    case RejectTrade(id) => Ref.Trade(id)
    case CancelTrade(id) => Ref.Trade(id)
    case ReverseTrade(id) => Ref.Trade(id)
    case RequestMovement(_, _, _, _, _) => Ref.Custody(db.nextId)
    case ApproveMovement(id) => Ref.Custody(id)
    case RejectMovement(id) => Ref.Custody(id)
    case CancelMovement(id) => Ref.Custody(id)
    case CreateRemittance(_, _, _, _, _) => Ref.Remittance(db.nextId)
    case ApproveRemittance(id) => Ref.Remittance(id)
    case RejectRemittance(id) => Ref.Remittance(id)
    case CancelRemittance(id, _) => Ref.Remittance(id)
    case OpenAccount(_, _) => Ref.Adjustment(0)
    case Adjust(_, _, _, refId) => Ref.Adjustment(refId)
  }

  predicate Creates(step: Step) {
    step.CreateWithdrawal? || step.CreateTrade? || step.RequestMovement? || step.CreateRemittance?
  }

  /** Decisions, deposits made, accounts opened and adjustments leave the tables of the other requests alone. */
  lemma StepDecides(mode: P2P.Mode, db: Db, e: Event)
    requires !P2PStep(e.step) && !e.step.CreateGroup? && !Creates(e.step) && !e.step.CreateDeposit? &&
             Next(mode, db, e).Ok?
    ensures Decides(db, Next(mode, db, e).value, RefOf(db, e.step))
  {
    hide Decides, Withdrawals.Approve, Withdrawals.Reject, Withdrawals.Cancel, Deposits.Approve, Deposits.Reject,
         Deposits.Cancel, Trades.Approve, Trades.Reject, Trades.Cancel, Trades.Reverse, Custody.Approve, Custody.Reject,
         Custody.Cancel, Remittances.Approve, Remittances.Reject, Remittances.CancelByUser, GetOrCreate, Adjustment;
    match e.step {
      case ApproveWithdrawal(id) => Withdrawals.ApproveDecides(db, id);
      case OpenAccount(user, instr) =>
        WalletDecides(db, db.(wallet := GetOrCreate(db.wallet, Acct(user, instr))), Ref.Adjustment(0));
      case Adjust(user, instr, delta, refId) =>
        AdjustmentWrites(db, Acct(user, instr), delta, refId);
        WalletDecides(db, Adjustment(db, Acct(user, instr), delta, refId).value, Ref.Adjustment(refId));
      case _ =>
    }
  }

  lemma AdjustmentWrites(db: Db, a: Acct, delta: int, refId: Id)
    requires Adjustment(db, a, delta, refId).Ok?
    ensures var db' := Adjustment(db, a, delta, refId).value; db' == db.(wallet := db'.wallet)
  {
    hide ApplyTransaction;
  }

  lemma WalletDecides(db: Db, db': Db, ref: Ref)
    requires db' == db.(wallet := db'.wallet)
    ensures Decides(db, db', ref)
  {
    hide Consume, Release;
  }

  /** What no step ever takes back; and only the steps on allocations touch those, only the steps on remittances
      those. */
  lemma StepStays(mode: P2P.Mode, db: Db, e: Event)
    requires Next(mode, db, e).Ok?
    ensures var db' := Next(mode, db, e).value;
            && Stays(db, db')
            && (!P2PStep(e.step) ==> db'.allocations == db.allocations)
            && (!e.step.SubmitProof? && !e.step.DeleteFile? ==> db'.proofs == db.proofs)
            && (!RemittanceStep(e.step) ==> RemittancesAside(db, db'))
  {
    hide Withdrawals.Create, Withdrawals.Approve, Withdrawals.Reject, Withdrawals.Cancel,
         Deposits.Create, Deposits.Approve, Deposits.Reject, Deposits.Cancel,
         Trades.Create, Trades.Approve, Trades.Reject, Trades.Cancel, Trades.Reverse,
         Custody.Request, Custody.Approve, Custody.Reject, Custody.Cancel,
         Remittances.Create, Remittances.Approve, Remittances.Reject, Remittances.CancelByUser, Remittances.CreateGroup,
         P2P.Assign, P2P.SubmitProof, P2P.ReceiverConfirm, P2P.AdminVerify, P2P.Finalize, P2P.Cancel, P2P.ExpireOne,
         Files.DeleteAsAdmin,
         GetOrCreate, Adjustment, Decides, RefOf, Stays;
    var (db', step) := (Next(mode, db, e).value, e.step);
    if step.CreateWithdrawal? {
      Withdrawals.CreateAside(db, step.user, step.amount, step.purpose, step.key, step.destinationOk, e.at, e.policies);
    } else if step.CreateTrade? {
      Trades.CreateAside(db, step.user, step.instr, step.side, step.quantity, step.price, step.metric, step.product,
                         step.key, step.quote, e.at, e.policies);
    } else if !P2PStep(step) && !step.CreateGroup? && !Creates(step) && !step.CreateDeposit? {
      StepDecides(mode, db, e);
      DecidesAside(db, db', RefOf(db, step));
      RefKind(db, step);
    }
  }

  lemma RefKind(db: Db, step: Step)
    requires !P2PStep(step) && !step.CreateGroup?
    ensures RefOf(db, step).Remittance? <==> RemittanceStep(step)
  {
  }

  /** Allocations only move along the protocol, whoever takes the step. */
  lemma StepEvolves(mode: P2P.Mode, db: Db, e: Event)
    requires P2PProtocol.ProtocolSound(db)
    ensures var db' := After(mode, db, e);
            && P2PProtocol.Evolves(db, db', mode) && P2PProtocol.ProtocolSound(db') && Stays(db, db')
            && (!e.step.SubmitProof? ==> P2PProtocol.NoneMarked(db, db'))
  {
    hide Withdrawals.Create, Withdrawals.Approve, Withdrawals.Reject, Withdrawals.Cancel,
         Deposits.Create, Deposits.Approve, Deposits.Reject, Deposits.Cancel,
         Trades.Create, Trades.Approve, Trades.Reject, Trades.Cancel, Trades.Reverse,
         Custody.Request, Custody.Approve, Custody.Reject, Custody.Cancel,
         Remittances.Create, Remittances.Approve, Remittances.Reject, Remittances.CancelByUser, Remittances.CreateGroup,
         P2P.Assign, P2P.SubmitProof, P2P.ReceiverConfirm, P2P.AdminVerify, P2P.Finalize, P2P.Cancel, P2P.ExpireOne,
         Files.DeleteAsAdmin,
         GetOrCreate, Adjustment, P2PProtocol.Evolves, P2PProtocol.ProtocolSound, P2PProtocol.NoneMarked;
    var db' := After(mode, db, e);
    if Next(mode, db, e).Ok? {
      StepStays(mode, db, e);
    }
    if Next(mode, db, e).Ok? && P2PStep(e.step) {
      match e.step {
        case Assign(id, items, key, ok, expiresAt) =>
          P2PProtocol.AssignEvolves(db, id, items, key, ok, expiresAt, mode);
        case SubmitProof(id, user, files, found, owned, now) =>
          P2PProtocol.SubmitProofEvolves(db, id, user, files, found, owned, now, mode);
        case ReceiverConfirm(id, user, yes) => P2PProtocol.ReceiverConfirmEvolves(db, id, user, yes, mode);
        case AdminVerify(id, yes) => P2PProtocol.AdminVerifyEvolves(db, id, yes, mode);
        case Finalize(id, now) => P2PProtocol.FinalizeEvolves(db, id, mode, now);
        case CancelAllocation(id) => P2PProtocol.CancelEvolves(db, id, mode);
        case ExpireAllocation(id) => P2PProtocol.ExpireOneEvolves(db, id, mode);
        case DeleteFile(file, force, found, elsewhere) => Files.DeleteEvolves(db, file, force, found, elsewhere, mode);
      }
    } else {
      P2PProtocol.Unmoved(db, db', mode);
    }
  }

  // ---------------------------------------------------------------- what the invariant gives

  lemma SystemKeepsInv(db: Db, a: Acct, delta: int, refId: Id)
    requires Inv(db)
    ensures var db' := db.(wallet := GetOrCreate(db.wallet, a)); Inv(db') && OnlyOn(db, db', Ref.Adjustment(0))
    ensures var r := Adjustment(db, a, delta, refId);
            r.Ok? ==> Inv(r.value) && OnlyOn(db, r.value, Ref.Adjustment(refId))
  {
    hide Inv, HoldsOf, LimitsOf, MovesOf, ApplyTransaction, GetOrCreate, OnlyOn, Adjustment;
    OpenKeepsInv(db, a);
    OnlyFromSame(db, db.(wallet := GetOrCreate(db.wallet, a)), Ref.Adjustment(0));
    if Adjustment(db, a, delta, refId).Ok? {
      AdjustKeepsInv(db, a, delta, refId);
    }
  }

  predicate CashStep(step: Step) {
    || step.CreateWithdrawal? || step.ApproveWithdrawal? || step.RejectWithdrawal? || step.CancelWithdrawal?
    || step.CreateDeposit? || step.ApproveDeposit? || step.RejectDeposit? || step.CancelDeposit?
    || step.OpenAccount? || step.Adjust?
  }

  lemma CashKeepsInv(mode: P2P.Mode, db: Db, e: Event)
    requires Inv(db) && CashStep(e.step) && Next(mode, db, e).Ok?
    ensures Inv(Next(mode, db, e).value)
    ensures !P2PStep(e.step) && !e.step.CreateGroup? ==> OnlyOn(db, Next(mode, db, e).value, RefOf(db, e.step))
  {
    hide Inv, OnlyOn, Withdrawals.Create, Withdrawals.Approve, Withdrawals.Reject, Withdrawals.Cancel, Deposits.Create,
         Deposits.Approve, Deposits.Reject, Deposits.Cancel, GetOrCreate, Adjustment, Decides, RemittancesAside, Aside;
    match e.step {
      case CreateWithdrawal(user, amount, purpose, key, ok) =>
        Withdrawals.CreateKeepsInv(db, user, amount, purpose, key, ok, e.at, e.policies);
      case ApproveWithdrawal(id) => Withdrawals.ApproveKeepsInv(db, id);
      case RejectWithdrawal(id) => Withdrawals.RejectKeepsInv(db, id);
      case CancelWithdrawal(id) => Withdrawals.CancelKeepsInv(db, id);
      case CreateDeposit(user, amount, purpose) => Deposits.CreateKeepsInv(db, user, amount, purpose);
      case ApproveDeposit(id) => Deposits.ApproveKeepsInv(db, id);
      case RejectDeposit(id) => Deposits.RejectKeepsInv(db, id);
      case CancelDeposit(id) => Deposits.CancelKeepsInv(db, id);
      case OpenAccount(user, instr) => SystemKeepsInv(db, Acct(user, instr), 0, 0);
      case Adjust(user, instr, delta, refId) => SystemKeepsInv(db, Acct(user, instr), delta, refId);
    }
  }

  predicate GoodsStep(step: Step) {
    || step.CreateTrade? || step.ApproveTrade? || step.RejectTrade? || step.CancelTrade? || step.ReverseTrade?
    || step.RequestMovement? || step.ApproveMovement? || step.RejectMovement? || step.CancelMovement?
  }

  lemma GoodsKeepsInv(mode: P2P.Mode, db: Db, e: Event)
    requires Inv(db) && GoodsStep(e.step) && Admissible(e.step) && Next(mode, db, e).Ok?
    ensures Inv(Next(mode, db, e).value)
    ensures !P2PStep(e.step) && !e.step.CreateGroup? ==> OnlyOn(db, Next(mode, db, e).value, RefOf(db, e.step))
  {
    hide Inv, OnlyOn, Trades.Create, Trades.Approve, Trades.Reject, Trades.Cancel, Trades.Reverse, Custody.Request,
         Custody.Approve, Custody.Reject, Custody.Cancel, Decides, RemittancesAside, Aside;
    match e.step {
      case CreateTrade(user, instr, side, quantity, price, metric, product, key, quote) =>
        Trades.CreateKeepsInv(db, user, instr, side, quantity, price, metric, product, key, quote, e.at, e.policies);
      case ApproveTrade(id) => Trades.ApproveKeepsInv(db, id);
      case RejectTrade(id) => Trades.RejectKeepsInv(db, id);
      case CancelTrade(id) => Trades.CancelKeepsInv(db, id);
      case ReverseTrade(id) => Trades.ReverseKeepsInv(db, id);
      case RequestMovement(user, kind, weight, ayar, key) =>
        Custody.RequestKeepsInv(db, user, kind, weight, ayar, key, e.at, e.policies);
      case ApproveMovement(id) => Custody.ApproveKeepsInv(db, id);
      case RejectMovement(id) => Custody.RejectKeepsInv(db, id);
      case CancelMovement(id) => Custody.CancelKeepsInv(db, id);
    }
  }

  lemma RemittanceKeepsInv(mode: P2P.Mode, db: Db, e: Event)
    requires Inv(db) && RemittanceStep(e.step) && Next(mode, db, e).Ok?
    ensures Inv(Next(mode, db, e).value)
    ensures !P2PStep(e.step) && !e.step.CreateGroup? ==> OnlyOn(db, Next(mode, db, e).value, RefOf(db, e.step))
  {
    hide Inv, OnlyOn, Remittances.Create, Remittances.Approve, Remittances.Reject, Remittances.CancelByUser,
         Remittances.CreateGroup, Decides, Aside;
    match e.step {
      case CreateRemittance(user, receiver, instr, amount, key) =>
        Remittances.CreateKeepsInv(db, user, receiver, instr, amount, key, e.at, e.policies);
      case ApproveRemittance(id) => Remittances.Decidable(db, id, 0); Remittances.ApproveKeepsInv(db, id);
      case RejectRemittance(id) => Remittances.Decidable(db, id, 0); Remittances.RejectKeepsInv(db, id);
      case CancelRemittance(id, user) => Remittances.Decidable(db, id, user); Remittances.RejectKeepsInv(db, id);
      case CreateGroup(user, legs) => Remittances.CreateGroupSucceedsIff(db, user, legs, e.at);
    }
  }

  lemma P2PKeepsInv(mode: P2P.Mode, db: Db, e: Event)
    requires Inv(db) && P2PStep(e.step) && Next(mode, db, e).Ok?
    ensures Inv(Next(mode, db, e).value) && P2PInvariant.P2POnly(db, Next(mode, db, e).value)
  {
    hide Inv, P2PInvariant.P2POnly, P2P.Assign, P2P.SubmitProof, P2P.ReceiverConfirm, P2P.AdminVerify, P2P.Finalize,
         P2P.Cancel, P2P.ExpireOne, Files.DeleteAsAdmin, Stays, RemittancesAside;
    match e.step {
      case Assign(id, items, key, ok, expiresAt) => P2PInvariant.AssignKeepsInv(db, id, items, key, ok, expiresAt);
      case SubmitProof(id, user, files, found, owned, now) =>
        P2PInvariant.SubmitProofKeepsInv(db, id, user, files, found, owned, now);
      case ReceiverConfirm(id, user, yes) => P2PInvariant.ReceiverConfirmKeepsInv(db, id, user, yes, mode);
      case AdminVerify(id, yes) => P2PInvariant.AdminVerifyKeepsInv(db, id, yes);
      case Finalize(id, now) => P2PInvariant.FinalizeKeepsInv(db, id, mode, now);
      case CancelAllocation(id) => P2PInvariant.CancelKeepsInv(db, id);
      case ExpireAllocation(id) => P2PInvariant.ExpireOneKeepsInv(db, id);
      case DeleteFile(file, force, found, elsewhere) => Files.DeleteKeepsInv(db, file, force, found, elsewhere);
    }
  }

  /** Every admissible step keeps the invariant, and a step outside the P2P service touches the books of its own
      reference only. */
  lemma StepKeepsInv(mode: P2P.Mode, db: Db, e: Event)
    requires Inv(db) && Admissible(e.step) && Next(mode, db, e).Ok?
    ensures Inv(Next(mode, db, e).value)
    ensures P2PStep(e.step) ==> P2PInvariant.P2POnly(db, Next(mode, db, e).value)
    ensures !P2PStep(e.step) && !e.step.CreateGroup? ==> OnlyOn(db, Next(mode, db, e).value, RefOf(db, e.step))
  {
    hide Inv, OnlyOn, P2PInvariant.P2POnly, Next, RefOf, Admissible;
    if P2PStep(e.step) {
      P2PKeepsInv(mode, db, e);
    } else if RemittanceStep(e.step) {
      RemittanceKeepsInv(mode, db, e);
    } else if GoodsStep(e.step) {
      GoodsKeepsInv(mode, db, e);
    } else {
      CashKeepsInv(mode, db, e);
    }
  }

  // ---------------------------------------------------------------- settled remittances

  /** A remittance into which something was settled keeps its books as they are, and what was settled stays settled. */
  ghost predicate Frozen(db: Db, db': Db, id: Id) {
    && id in db.remittances && id in db'.remittances
    && SameView(db, db', Ref.Remittance(id))
    && LinkedInto(db.links, id) <= LinkedInto(db'.links, id)
  }

  lemma IdOfRemittance(db: Db, id: Id)
    requires Inv(db)
    ensures id in db.remittances ==> id < db.nextId
  {
    hide Sound, QuotaSound, Explained, RowsSound, TotalsSound, LinksSound, ReversalsSound, Conserved;
  }

  /** A pending or cancelled remittance has no link into it. */
  lemma SettledUnpending(db: Db, id: Id)
    requires Inv(db)
    ensures id in db.remittances && LinkedInto(db.links, id) > 0 ==>
            db.remittances[id].status.Partial? || db.remittances[id].status.Completed?
  {
    hide Sound, QuotaSound, Explained, RowsSound, TotalsSound, ReversalsSound, Conserved, IdsSound, LinkedInto,
         LinkedFrom;
    if id in db.remittances {
      assert RemittanceSound(id, db.remittances[id], db.links);
    }
  }

  lemma GroupKeepsLinks(db: Db, user: UserId, legs: seq<Remittances.LegInput>, at: Stamp, id: Id)
    requires Inv(db) && id in db.remittances && Remittances.CreateGroup(db, user, legs, at).Ok?
    ensures var db' := Remittances.CreateGroup(db, user, legs, at).value;
            id in db'.remittances && LinkedInto(db.links, id) <= LinkedInto(db'.links, id)
  {
    hide Inv, LinkedInto, LinkedFrom, Remittances.PostLegs, Remittances.GroupAccounts, OpenAll, Remittances.LegRows,
         Remittances.SettleAll, Remittances.Affordable, Remittances.Inputs;
    var inputs := Remittances.Inputs(legs, db.nextId);
    var rows := Remittances.LegRows(db.remittances, user, legs, db.nextId, at);
    Remittances.LegsInRows(db.remittances, user, legs, db.nextId, at);
    Remittances.SettleAllIff(rows, db.links, inputs);
    Remittances.LinkedAppend(db.links, inputs, id);
    Remittances.LinkedPositive(inputs, id);
  }

  /** A decision leaves a settled remittance alone, and so does making another one. */
  lemma OneFreezes(db: Db, db': Db, ref: Ref, id: Id)
    requires Inv(db) && id in db.remittances && LinkedInto(db.links, id) > 0
    requires OnlyOn(db, db', ref) && id in db'.remittances && db'.links == db.links
    requires ref != Ref.Remittance(id) || db' == db
    ensures Frozen(db, db', id)
  {
    hide Inv, HoldsOf, LimitsOf, MovesOf, LinkedInto;
  }

  /** Nothing pending or cancelled has a link into it, so there is nothing to decide on a settled remittance. */
  lemma DecisionFreezes(db: Db, id: Id, user: UserId)
    requires Inv(db) && id in db.remittances && LinkedInto(db.links, id) > 0
    ensures Remittances.Approve(db, id).Ok? ==> Remittances.Approve(db, id).value == db
    ensures Remittances.Reject(db, id).Ok? ==> Remittances.Reject(db, id).value == db
    ensures Remittances.CancelByUser(db, id, user).Ok? ==> Remittances.CancelByUser(db, id, user).value == db
  {
    hide Inv, LinkedInto, ConsumeFunds, ReleaseFunds, OpenAll, PostAll, Consume, Release, Remittances.Legs;
    SettledUnpending(db, id);
  }

  lemma DecisionKeepsRows(db: Db, id: Id, user: UserId)
    ensures Remittances.Approve(db, id).Ok? ==>
            db.remittances.Keys <= Remittances.Approve(db, id).value.remittances.Keys
    ensures Remittances.Reject(db, id).Ok? ==> db.remittances.Keys <= Remittances.Reject(db, id).value.remittances.Keys
    ensures Remittances.CancelByUser(db, id, user).Ok? ==>
            db.remittances.Keys <= Remittances.CancelByUser(db, id, user).value.remittances.Keys
  {
    hide ConsumeFunds, ReleaseFunds, OpenAll, PostAll, Consume, Release, Remittances.Legs;
  }

  lemma RemittanceFreezes(mode: P2P.Mode, db: Db, e: Event, id: Id)
    requires Inv(db) && Admissible(e.step) && RemittanceStep(e.step) && !e.step.CreateGroup? && Next(mode, db, e).Ok?
    requires id in db.remittances && LinkedInto(db.links, id) > 0
    ensures Frozen(db, Next(mode, db, e).value, id)
  {
    hide Inv, OnlyOn, LinkedInto, Frozen, Remittances.Create, Remittances.Approve, Remittances.Reject,
         Remittances.CancelByUser, Stays;
    var db' := Next(mode, db, e).value;
    StepKeepsInv(mode, db, e);
    if e.step.CreateRemittance? {
      IdOfRemittance(db, id);
    } else {
      StepDecides(mode, db, e);
      var user := if e.step.CancelRemittance? then e.step.user else 0;
      DecisionKeepsRows(db, e.step.id, user);
      if e.step.id == id {
        DecisionFreezes(db, id, user);
      }
    }
    OneFreezes(db, db', RefOf(db, e.step), id);
  }

  lemma GroupFreezes(db: Db, user: UserId, legs: seq<Remittances.LegInput>, at: Stamp, id: Id)
    requires Inv(db) && Remittances.CreateGroup(db, user, legs, at).Ok?
    requires id in db.remittances && LinkedInto(db.links, id) > 0
    ensures Frozen(db, Remittances.CreateGroup(db, user, legs, at).value, id)
  {
    hide Inv, HoldsOf, LimitsOf, MovesOf, LinkedInto, Remittances.CreateGroup, Remittances.GroupOk;
    Remittances.CreateGroupSucceedsIff(db, user, legs, at);
    IdOfRemittance(db, id);
    GroupKeepsLinks(db, user, legs, at, id);
  }

  lemma BystanderFreezes(db: Db, db': Db, ref: Ref, id: Id)
    requires P2PInvariant.P2POnly(db, db') || (OnlyOn(db, db', ref) && !ref.Remittance?)
    requires RemittancesAside(db, db') && id in db.remittances
    ensures Frozen(db, db', id)
  {
    hide HoldsOf, LimitsOf, MovesOf, LinkedInto;
  }

  // ---------------------------------------------------------------- every step

  /** Every step that succeeds keeps the invariant, moves allocations only along the protocol, takes back no stored
      response and no indexed request, and leaves the books of settled remittances alone. */
  lemma StepProgresses(mode: P2P.Mode, db: Db, e: Event)
    requires Inv(db) && Admissible(e.step)
    ensures var db' := After(mode, db, e);
            && Inv(db') && P2PProtocol.Evolves(db, db', mode) && Stays(db, db')
            && forall id <- db.remittances | LinkedInto(db.links, id) > 0 :: Frozen(db, db', id)
  {
    hide Inv, Next, P2PProtocol.Evolves, P2PProtocol.ProtocolSound, LinkedInto, OnlyOn, P2PInvariant.P2POnly, Stays,
         Frozen, RefOf;
    P2PProtocol.InvGivesProtocol(db);
    StepEvolves(mode, db, e);
    if Next(mode, db, e).Ok? {
      var db' := Next(mode, db, e).value;
      StepKeepsInv(mode, db, e);
      StepStays(mode, db, e);
      forall id <- db.remittances | LinkedInto(db.links, id) > 0 ensures Frozen(db, db', id) {
        StepFreezes(mode, db, e, id);
      }
    } else {
      forall id <- db.remittances ensures Frozen(db, db, id) {
        SameFreezes(db, id);
      }
    }
  }

  lemma SameFreezes(db: Db, id: Id)
    requires id in db.remittances
    ensures Frozen(db, db, id)
  {
  }

  lemma StepFreezes(mode: P2P.Mode, db: Db, e: Event, id: Id)
    requires Inv(db) && Admissible(e.step) && Next(mode, db, e).Ok? && id in db.remittances &&
             LinkedInto(db.links, id) > 0
    ensures Frozen(db, Next(mode, db, e).value, id)
  {
    hide Inv, LinkedInto, OnlyOn, P2PInvariant.P2POnly, Stays, Frozen, RefOf, Remittances.CreateGroup;
    if e.step.CreateGroup? {
      GroupFreezes(db, e.step.user, e.step.legs, e.at, id);
    } else if RemittanceStep(e.step) {
      RemittanceFreezes(mode, db, e, id);
    } else {
      StepKeepsInv(mode, db, e);
      StepStays(mode, db, e);
      if P2PStep(e.step) {
        BystanderFreezes(db, Next(mode, db, e).value, Ref.Adjustment(0), id);
      } else {
        RefKind(db, e.step);
        BystanderFreezes(db, Next(mode, db, e).value, RefOf(db, e.step), id);
      }
    }
  }
}
