/** What a reservation promises, and what the status of a request says about its reservations. */
module Guarantee {
  import opened Base
  import opened Policy
  import opened Accounts
  import opened Limits
  import opened State
  import opened Frames

  // ---------------------------------------------------------------- any other wallet operations in between

  datatype WalletOp =
    | Open(acct: Acct)
    | Hold(acct: Acct, ref: Ref, amount: nat)
    | LetGo(acct: Acct, ref: Ref)
    | Use(acct: Acct, ref: Ref)
    | Post(acct: Acct, ref: Ref, delta: Signed)
    | Cut(acct: Acct, ref: Ref, part: Ref, amount: nat)
    | Join(acct: Acct, ref: Ref, part: Ref, amount: nat)

  /** An operation that fails leaves the wallet as it was. */
  function Apply(w: Wallet, op: WalletOp): Wallet {
    match op
    case Open(a) => GetOrCreate(w, a)
    case Hold(a, ref, amount) => Kept(w, ReserveFunds(w, a, ref, amount))
    case LetGo(a, ref) => Kept(w, ReleaseFunds(w, a, ref))
    case Use(a, ref) => Kept(w, ConsumeFunds(w, a, ref))
    case Post(a, ref, delta) => Kept(w, ApplyTransaction(w, a, delta, ref, None))
    case Cut(a, ref, part, amount) => Kept(w, SplitHold(w, a, ref, part, amount))
    case Join(a, ref, part, amount) => MergeHold(w, a, ref, part, amount)
  }

  function Kept(w: Wallet, r: Result<Wallet>): Wallet {
    if r.Ok? then r.value else w
  }

  /** A slice is cut for a new reference, and joined again as a whole. */
  predicate Proper(w: Wallet, op: WalletOp) {
    match op
    case Cut(a, ref, part, _) => ref != part && HoldKey(part, a) !in w.holds
    case Join(a, ref, part, amount) =>
      && ref != part && HoldKey(ref, a) in w.holds
      && (HoldKey(part, a) in w.holds ==>
            w.holds[HoldKey(part, a)] == w.holds[HoldKey(ref, a)].(amount := amount))
    case _ => true
  }

  predicate Mentions(op: WalletOp, ref: Ref) {
    match op
    case Open(_) => false
    case Hold(_, r, _) => r == ref
    case LetGo(_, r) => r == ref
    case Use(_, r) => r == ref
    case Post(_, r, _) => r == ref
    case Cut(_, r, part, _) => r == ref || part == ref
    case Join(_, r, part, _) => r == ref || part == ref
  }

  lemma FromEffect(w: Wallet, w': Wallet, r: Ref, holds: map<Acct, Base.Hold>, moved: seq<Move>, ref: Ref)
    requires Effect(w, w', r, holds, moved) && r != ref
    ensures Sound(w') && SameFunds(w, w', ref)
  {
  }

  lemma OpenKeeps(w: Wallet, a: Acct, ref: Ref)
    requires Sound(w)
    ensures Sound(GetOrCreate(w, a)) && SameFunds(w, GetOrCreate(w, a), ref)
  {
    hide Sound, HoldsOf, MovesOf, Effect;
    var other := if ref.Adjustment? then Withdraw(0) else Adjustment(0);
    OpenEffect(w, a, other);
    FromEffect(w, GetOrCreate(w, a), other, HoldsOf(w.holds, other), [], ref);
  }

  lemma HoldKeeps(w: Wallet, a: Acct, r: Ref, amount: nat, ref: Ref)
    requires Sound(w) && r != ref
    ensures var w' := Kept(w, ReserveFunds(w, a, r, amount)); Sound(w') && SameFunds(w, w', ref)
  {
    hide Sound, HoldsOf, MovesOf, Effect, SetHold, SetBlocked, UsableCapacity;
    OpenKeeps(w, a, ref);
    if HoldKey(r, a) !in w.holds && ReserveFunds(w, a, r, amount).Ok? {
      ReserveEffect(w, a, r, amount);
      FromEffect(w, ReserveFunds(w, a, r, amount).value, r, HoldsOf(w.holds, r)[a := Base.Hold(amount, Reserved)], [],
                 ref);
    }
  }

  lemma LetGoKeeps(w: Wallet, a: Acct, r: Ref, ref: Ref)
    requires Sound(w) && r != ref
    ensures var w' := Kept(w, ReleaseFunds(w, a, r)); Sound(w') && SameFunds(w, w', ref)
    ensures ReleaseFunds(w, a, r) != Err(NegativeBlocked)
  {
    hide Sound, HoldsOf, MovesOf, Effect, SetHold, SetBlocked;
    OpenKeeps(w, a, ref);
    if HoldKey(r, a) in w.holds && w.holds[HoldKey(r, a)].status == Reserved {
      ReleaseEffect(w, a, r);
      FromEffect(w, ReleaseFunds(w, a, r).value, r,
                 HoldsOf(w.holds, r)[a := Base.Hold(w.holds[HoldKey(r, a)].amount, Released)], [], ref);
    }
  }

  lemma UseKeeps(w: Wallet, a: Acct, r: Ref, ref: Ref)
    requires Sound(w) && r != ref
    ensures var w' := Kept(w, ConsumeFunds(w, a, r)); Sound(w') && SameFunds(w, w', ref)
    ensures ConsumeFunds(w, a, r) != Err(NegativeBlocked)
  {
    hide Sound, HoldsOf, MovesOf, Effect, SetHold, SetBlocked, UsableCapacity;
    OpenKeeps(w, a, ref);
    if HoldKey(r, a) in w.holds && w.holds[HoldKey(r, a)].status == Reserved {
      ConsumeEffect(w, a, r);
      FromEffect(w, ConsumeFunds(w, a, r).value, r,
                 HoldsOf(w.holds, r)[a := Base.Hold(w.holds[HoldKey(r, a)].amount, Consumed)], [], ref);
    }
  }

  lemma PostKeeps(w: Wallet, a: Acct, r: Ref, delta: Signed, ref: Ref)
    requires Sound(w) && r != ref
    ensures var w' := Kept(w, ApplyTransaction(w, a, delta, r, None)); Sound(w') && SameFunds(w, w', ref)
  {
    hide Sound, HoldsOf, MovesOf, Effect, ApplyTransaction;
    if ApplyTransaction(w, a, delta, r, None).Ok? {
      ApplyEffect(w, a, delta, r, None);
      FromEffect(w, ApplyTransaction(w, a, delta, r, None).value, r, HoldsOf(w.holds, r),
                 [Move(a, delta.value, delta.EntrySide())], ref);
    }
  }

  lemma CutKeeps(w: Wallet, a: Acct, r: Ref, part: Ref, amount: nat, ref: Ref)
    requires Sound(w) && r != ref && part != ref && r != part && HoldKey(part, a) !in w.holds
    ensures var w' := Kept(w, SplitHold(w, a, r, part, amount)); Sound(w') && SameFunds(w, w', ref)
  {
    hide Sound, HoldsOf, MovesOf;
    if SplitHold(w, a, r, part, amount).Ok? {
      var (w', k, l) := (SplitHold(w, a, r, part, amount).value, HoldKey(r, a), HoldKey(part, a));
      AccountOpen(w, k);
      BlockedKept(w, w', a, r, part);
      HoldsOfSet(w.holds, k, w'.holds[k]);
      HoldsOfSet(w.holds[k := w'.holds[k]], l, w'.holds[l]);
    }
  }

  lemma JoinKeeps(w: Wallet, a: Acct, r: Ref, part: Ref, amount: nat, ref: Ref)
    requires Sound(w) && r != ref && part != ref && Proper(w, Join(a, r, part, amount))
    ensures var w' := MergeHold(w, a, r, part, amount); Sound(w') && SameFunds(w, w', ref)
  {
    hide Sound, HoldsOf, MovesOf;
    var (w', k, l) := (MergeHold(w, a, r, part, amount), HoldKey(r, a), HoldKey(part, a));
    if l in w.holds {
      AccountOpen(w, k);
      AccountOpen(w, l);
      BlockedKept(w, w', a, r, part);
      HoldsOfSet(w.holds, k, w'.holds[k]);
      HoldsOfCut(w.holds[k := w'.holds[k]], l);
    }
  }

  lemma ApplyKeeps(w: Wallet, op: WalletOp, ref: Ref)
    requires Sound(w) && Proper(w, op) && !Mentions(op, ref)
    ensures Sound(Apply(w, op)) && SameFunds(w, Apply(w, op), ref)
  {
    hide Sound, SameFunds, GetOrCreate, ReserveFunds, ReleaseFunds, ConsumeFunds, ApplyTransaction, SplitHold,
         MergeHold;
    match op {
      case Open(a) => OpenKeeps(w, a, ref);
      case Hold(a, r, amount) => HoldKeeps(w, a, r, amount, ref);
      case LetGo(a, r) => LetGoKeeps(w, a, r, ref);
      case Use(a, r) => UseKeeps(w, a, r, ref);
      case Post(a, r, delta) => PostKeeps(w, a, r, delta, ref);
      case Cut(a, r, part, amount) => CutKeeps(w, a, r, part, amount, ref);
      case Join(a, r, part, amount) => JoinKeeps(w, a, r, part, amount, ref);
    }
  }

  function ApplyAll(w: Wallet, ops: seq<WalletOp>): Wallet {
    if ops == [] then w else Apply(ApplyAll(w, ops[..|ops| - 1]), ops[|ops| - 1])
  }

  /** Operations on other references, each proper when its turn comes. */
  predicate Elsewhere(w: Wallet, ops: seq<WalletOp>, ref: Ref) {
    ops == [] ||
    var (front, op) := (ops[..|ops| - 1], ops[|ops| - 1]);
    Elsewhere(w, front, ref) && Proper(ApplyAll(w, front), op) && !Mentions(op, ref)
  }

  lemma {:induction false} ApplyAllKeeps(w: Wallet, ops: seq<WalletOp>, ref: Ref)
    requires Sound(w) && Elsewhere(w, ops, ref)
    ensures Sound(ApplyAll(w, ops)) && SameFunds(w, ApplyAll(w, ops), ref)
  {
    hide Sound, Apply, Proper, HoldsOf, MovesOf;
    if ops != [] {
      ApplyAllKeeps(w, ops[..|ops| - 1], ref);
      ApplyKeeps(ApplyAll(w, ops[..|ops| - 1]), ops[|ops| - 1], ref);
    }
  }

  /** Once funds are reserved, the reservation can be consumed and its amount debited, whatever other operations on
      the same accounts succeed or fail in between. */
  lemma ReservationHonoured(w: Wallet, a: Acct, ref: Ref, amount: nat, ops: seq<WalletOp>)
    requires Sound(w) && HoldsOf(w.holds, ref) == map[] && MovesOf(w.ledger, ref) == []
    requires ReserveFunds(w, a, ref, amount).Ok? && Elsewhere(ReserveFunds(w, a, ref, amount).value, ops, ref)
    ensures var later := ApplyAll(ReserveFunds(w, a, ref, amount).value, ops);
            && ConsumeFunds(later, a, ref).Ok?
            && ApplyTransaction(ConsumeFunds(later, a, ref).value, a, Minus(amount), ref, None).Ok?
  {
    hide Sound, Effect, HoldsOf, MovesOf, ReserveFunds, Elsewhere, ApplyAll, ConsumeFunds, ApplyTransaction;
    var w1 := ReserveFunds(w, a, ref, amount).value;
    ReserveFresh(w, a, ref, amount);
    EffectSound(w, w1, ref, map[a := Base.Hold(amount, Reserved)], []);
    ApplyAllKeeps(w1, ops, ref);
    ReservationPays(ApplyAll(w1, ops), a, ref, amount);
  }

  // ---------------------------------------------------------------- the status of a request and its reservations

  /** Every reservation of `ref`, of funds and of volume, has the status `fate`. */
  ghost predicate AllHave(db: Db, ref: Ref, fate: HoldStatus) {
    && (forall k <- db.wallet.holds :: k.ref == ref ==> db.wallet.holds[k].status == fate)
    && (forall k <- db.quota.limits :: k.ref == ref ==> db.quota.limits[k].status == fate)
  }

  /** And there is one, on this usage. */
  predicate Charged(db: Db, ref: Ref, u: UsageKey) {
    LimitKey(ref, u) in db.quota.limits
  }

  lemma FateRead(db: Db, ref: Ref, fate: HoldStatus, u: UsageKey)
    requires forall a <- HoldsOf(db.wallet.holds, ref) :: HoldsOf(db.wallet.holds, ref)[a].status == fate
    requires forall v <- LimitsOf(db.quota.limits, ref) :: LimitsOf(db.quota.limits, ref)[v].status == fate
    requires u in LimitsOf(db.quota.limits, ref)
    ensures AllHave(db, ref, fate) && Charged(db, ref, u)
    ensures forall other | AllHave(db, ref, other) :: other == fate
  {
    hide HoldsOf, LimitsOf;
    HoldsRead(db.wallet.holds, ref);
    LimitsRead(db.quota.limits, ref);
    forall k <- db.wallet.holds | k.ref == ref ensures db.wallet.holds[k].status == fate {
      assert k.acct in HoldsOf(db.wallet.holds, ref);
      assert k == HoldKey(ref, k.acct);
    }
    forall k <- db.quota.limits | k.ref == ref ensures db.quota.limits[k].status == fate {
      assert k.usage in LimitsOf(db.quota.limits, ref);
      assert k == LimitKey(ref, k.usage);
    }
    forall other | AllHave(db, ref, other) ensures other == fate {
      assert db.quota.limits[LimitKey(ref, u)].status == other;
    }
  }

  /** A direct withdrawal: pending exactly while all its reservations are reserved, approved exactly when they are
      consumed, rejected or cancelled exactly when they are released. */
  lemma WithdrawalFates(db: Db, id: Id)
    requires Inv(db) && id in db.withdrawals && db.withdrawals[id].purpose.Direct?
    ensures var r := db.withdrawals[id];
            && (r.status.Pending? <==> AllHave(db, Withdraw(id), Reserved))
            && (r.status.Approved? <==> AllHave(db, Withdraw(id), Consumed))
            && (r.status.Rejected? || r.status.Cancelled? <==> AllHave(db, Withdraw(id), Released))
  {
    hide Inv, HoldsOf, LimitsOf, MovesOf, AllHave, Sound, QuotaSound, TotalsSound, LinksSound, ReversalsSound;
    var (r, ref) := (db.withdrawals[id], Withdraw(id));
    Known(db, ref);
    assert WithdrawalSound(r);
    hide RowsSound, IdsSound;
    assert ViewOf(db, ref) == WithdrawalView(r);
    FateRead(db, ref, WithdrawalFate(r), DayKey(r.user, WithdrawIrr, NotionalIrr, All, r.created));
  }

  /** A trade: a reversed one keeps its reservations consumed. */
  lemma TradeFates(db: Db, id: Id)
    requires Inv(db) && id in db.trades
    ensures var t := db.trades[id];
            && (t.status.Pending? <==> AllHave(db, Ref.Trade(id), Reserved))
            && (t.status.Approved? || t.reversed <==> AllHave(db, Ref.Trade(id), Consumed))
            && (t.status.Rejected? || (t.status.CancelledByAdmin? && !t.reversed) <==>
                AllHave(db, Ref.Trade(id), Released))
  {
    hide Inv, HoldsOf, LimitsOf, MovesOf, AllHave, Sound, QuotaSound, TotalsSound, LinksSound, ReversalsSound,
         TradeMoves;
    var (t, ref) := (db.trades[id], Ref.Trade(id));
    Known(db, ref);
    assert TradeSound(t);
    hide RowsSound, IdsSound;
    assert ViewOf(db, ref) == TradeView(t);
    FateRead(db, ref, TradeFate(t), DayKey(t.client, TradeAction(t), NotionalIrr, All, t.created));
  }

  lemma MovementFates(db: Db, id: Id)
    requires Inv(db) && id in db.movements
    ensures var m := db.movements[id];
            && (m.status.Pending? <==> AllHave(db, Ref.Custody(id), Reserved))
            && (m.status.Approved? <==> AllHave(db, Ref.Custody(id), Consumed))
            && (m.status.Rejected? || m.status.Cancelled? <==> AllHave(db, Ref.Custody(id), Released))
  {
    hide Inv, HoldsOf, LimitsOf, MovesOf, AllHave, Sound, QuotaSound, TotalsSound, LinksSound, ReversalsSound,
         RowsSound, IdsSound;
    var (m, ref) := (db.movements[id], Ref.Custody(id));
    Known(db, ref);
    assert ViewOf(db, ref) == MovementView(m);
    FateRead(db, ref, MovementFate(m), DayKey(m.user, MovementAction(m), Weight750, OfInstrument(GOLD), m.created));
  }

  // ---------------------------------------------------------------- what a request is charged to

  /** On usage `u` the reference has this reservation exactly when it is one of the usages of such a request. */
  predicate ChargedAs(db: Db, ref: Ref, user: UserId, action: Action, metric: Metric, scope: Scope, at: Stamp,
                      h: Base.Hold, u: UsageKey)
  {
    && (Charged(db, ref, u) <==> UsageOf(user, action, metric, scope, at, u))
    && (Charged(db, ref, u) ==> db.quota.limits[LimitKey(ref, u)] == h)
  }

  lemma ChargedRead(db: Db, ref: Ref, user: UserId, action: Action, metric: Metric, scope: Scope, at: Stamp,
                    h: Base.Hold, u: UsageKey)
    requires LimitsOf(db.quota.limits, ref) == Both(user, action, metric, scope, at, h)
    ensures ChargedAs(db, ref, user, action, metric, scope, at, h, u)
  {
    hide LimitsOf, Both, UsageOf;
    LimitsRead(db.quota.limits, ref);
    BothOnUsages(user, action, metric, scope, at, h, u);
  }

  /** A withdrawal is charged, with what is not assigned of it, to its user's withdrawals of that day and that month; an
      allocation of it with its own amount, as long as it is neither cancelled nor expired. */
  lemma WithdrawalCharged(db: Db, id: Id, u: UsageKey)
    requires Inv(db)
    ensures id in db.withdrawals ==> var r := db.withdrawals[id];
              ChargedAs(db, Withdraw(id), r.user, WithdrawIrr, NotionalIrr, All, r.created,
                        Base.Hold(r.amount - r.assignedTotal, WithdrawalFate(r)), u)
    ensures id in db.allocations && Live(db.allocations[id].status) ==>
              var al := db.allocations[id];
              && al.withdrawal in db.withdrawals
              && var r := db.withdrawals[al.withdrawal];
                 ChargedAs(db, WithdrawAllocation(id), r.user, WithdrawIrr, NotionalIrr, All, r.created,
                           Base.Hold(al.amount, if al.status.Settled? then Consumed else Reserved), u)
  {
    hide Inv, HoldsOf, LimitsOf, MovesOf, Sound, QuotaSound, RowsSound, TotalsSound, LinksSound, ReversalsSound,
         IdsSound, Both, ChargedAs;
    Known(db, Withdraw(id));
    Known(db, WithdrawAllocation(id));
    if id in db.withdrawals {
      var r := db.withdrawals[id];
      assert ViewOf(db, Withdraw(id)) == WithdrawalView(r);
      ChargedRead(db, Withdraw(id), r.user, WithdrawIrr, NotionalIrr, All, r.created,
                  Base.Hold(r.amount - r.assignedTotal, WithdrawalFate(r)), u);
    }
    if id in db.allocations && Live(db.allocations[id].status) {
      var al := db.allocations[id];
      var r := db.withdrawals[al.withdrawal];
      ChargedRead(db, WithdrawAllocation(id), r.user, WithdrawIrr, NotionalIrr, All, r.created,
                  Base.Hold(al.amount, if al.status.Settled? then Consumed else Reserved), u);
    }
  }

  /** A movement is charged with its weight, in or out; a remittance made on its own with its amount. */
  lemma MovementCharged(db: Db, id: Id, u: UsageKey)
    requires Inv(db) && id in db.movements
    ensures var m := db.movements[id];
            ChargedAs(db, Ref.Custody(id), m.user, if m.kind.In? then CustodyIn else CustodyOut, Weight750,
                      OfInstrument(GOLD), m.created, Base.Hold(m.equiv, MovementFate(m)), u)
  {
    hide Inv, HoldsOf, LimitsOf, MovesOf, Sound, QuotaSound, RowsSound, TotalsSound, LinksSound, ReversalsSound,
         IdsSound, Both, ChargedAs, MovementFate;
    Known(db, Ref.Custody(id));
    var m := db.movements[id];
    assert ViewOf(db, Ref.Custody(id)) == MovementView(m);
    ChargedRead(db, Ref.Custody(id), m.user, MovementAction(m), Weight750, OfInstrument(GOLD), m.created,
                Base.Hold(m.equiv, MovementFate(m)), u);
  }

  lemma RemittanceCharged(db: Db, id: Id, u: UsageKey)
    requires Inv(db) && id in db.remittances && !db.remittances[id].grouped
    ensures var r := db.remittances[id];
            exists fate :: RemittanceFate(r, fate) &&
              ChargedAs(db, Ref.Remittance(id), r.sender, RemittanceSend, NotionalIrr, OfInstrument(r.instr), r.created,
                        Base.Hold(r.amount, fate), u)
  {
    hide Inv, HoldsOf, LimitsOf, MovesOf, Sound, QuotaSound, RowsSound, TotalsSound, LinksSound, ReversalsSound,
         IdsSound, Both, ChargedAs, RemittanceFate;
    Known(db, Ref.Remittance(id));
    var r := db.remittances[id];
    var fate :| RemittanceFate(r, fate) && ViewOf(db, Ref.Remittance(id)) == RemittanceView(r, fate);
    ChargedRead(db, Ref.Remittance(id), r.sender, RemittanceSend, NotionalIrr, OfInstrument(r.instr), r.created,
                Base.Hold(r.amount, fate), u);
  }

  /** A trade is charged with its total, and where its product has a metric also with its quantity, unless that is the
      same usage. */
  lemma TradeCharged(db: Db, id: Id, u: UsageKey)
    requires Inv(db) && id in db.trades
    ensures var t := db.trades[id];
            var action := if t.side.Buy? then TradeBuy else TradeSell;
            var byTotal := UsageOf(t.client, action, NotionalIrr, All, t.created, u);
            var byQuantity := t.metric.Some? && UsageOf(t.client, action, t.metric.value, OfProduct(t.product),
                                                        t.created, u);
            && (Charged(db, Ref.Trade(id), u) <==> byTotal || byQuantity)
            && (Charged(db, Ref.Trade(id), u) ==>
                  db.quota.limits[LimitKey(Ref.Trade(id), u)] ==
                    Base.Hold(if byTotal then t.total else t.quantity, TradeFate(t)))
  {
    hide Inv, HoldsOf, LimitsOf, MovesOf, Sound, QuotaSound, RowsSound, TotalsSound, LinksSound, ReversalsSound,
         IdsSound, Both, UsageOf, TradeFate, TradeMoves;
    var (t, ref) := (db.trades[id], Ref.Trade(id));
    Known(db, ref);
    assert ViewOf(db, ref) == TradeView(t);
    LimitsRead(db.quota.limits, ref);
    BothOnUsages(t.client, TradeAction(t), NotionalIrr, All, t.created, Base.Hold(t.total, TradeFate(t)), u);
    if t.metric.Some? {
      BothOnUsages(t.client, TradeAction(t), t.metric.value, OfProduct(t.product), t.created,
                   Base.Hold(t.quantity, TradeFate(t)), u);
    }
  }

  /** What a request has posted follows from its status: a withdrawal its amount once it is approved, a deposit its
      amount once it is approved and nothing in all once it is reversed. */
  lemma PostedByStatus(db: Db, id: Id)
    requires Inv(db)
    ensures id in db.withdrawals ==> var r := db.withdrawals[id];
              MovesOf(db.wallet.ledger, Withdraw(id)) ==
              if r.status.Approved? then [Move(Acct(r.user, IRR), -r.amount, Debit)] else []
    ensures id in db.deposits ==> var d := db.deposits[id];
              Net(MovesOf(db.wallet.ledger, Ref.Deposit(id)), IRR) == if d.status.Approved? then d.amount else 0
  {
    hide Inv, HoldsOf, LimitsOf, MovesOf, Sound, QuotaSound, LinksSound, ReversalsSound, IdsSound, Both, DepositsTotal;
    Known(db, Withdraw(id));
    Known(db, Ref.Deposit(id));
    if id in db.withdrawals {
      assert WithdrawalSound(db.withdrawals[id]);
      assert WithdrawalTotals(id, db.withdrawals[id], db.allocations);
      assert ViewOf(db, Withdraw(id)) == WithdrawalView(db.withdrawals[id]);
    }
    if id in db.deposits {
      var d := db.deposits[id];
      assert ViewOf(db, Ref.Deposit(id)) == DepositView(d);
      NetOfTwo(MoveOf(Acct(d.user, IRR), Plus(d.amount)), MoveOf(Acct(d.user, IRR), Minus(d.amount)), IRR);
      assert [MoveOf(Acct(d.user, IRR), Plus(d.amount))][..0] == [];
    }
  }

  /** The guards against a negative blocked balance never fire in a sound wallet. */
  lemma GuardsNeverFire(w: Wallet, a: Acct, ref: Ref)
    requires Sound(w)
    ensures ReleaseFunds(w, a, ref) != Err(NegativeBlocked) && ConsumeFunds(w, a, ref) != Err(NegativeBlocked)
  {
    hide Sound, HoldsOf, MovesOf, SameFunds, ReleaseFunds, ConsumeFunds;
    var other := if ref.Adjustment? then Withdraw(0) else Adjustment(0);
    LetGoKeeps(w, a, ref, other);
    UseKeeps(w, a, ref, other);
  }
}
