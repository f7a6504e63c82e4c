/** The limits hold over every run. */
module Caps {
  import opened Base
  import opened Policy
  import opened Accounts
  import opened Limits
  import opened State
  import opened Frames
  import opened Machine
  import Withdrawals
  import Deposits
  import Trades
  import Custody
  import Remittances
  import P2P
  import Runs

  /** The rules resolve to a limit for `u`, and to none above `cap`. */
  predicate Capped(policies: Policies, u: UsageKey, cap: int) {
    u in policies && policies[u].value.Some? && policies[u].value.value <= cap
  }

  /** Rules that all stay below a cap resolve to a limit below it, whenever one of them applies at all. */
  lemma RulesCap(rules: seq<Rule>, request: Request, policies: Policies, u: UsageKey, cap: int)
    requires u in policies && policies[u] == Resolve(rules, request)
    requires exists rule <- rules :: Eligible(rule, request)
    requires forall rule <- rules | Eligible(rule, request) :: rule.limit <= cap
    ensures Capped(policies, u, cap)
  {
    hide Selected, Eligible, LeastKyc, Compare;
    SelectedIsFirst(rules, request);
  }

  // ---------------------------------------------------------------- what is charged

  function DayAndMonth(user: UserId, action: Action, metric: Metric, scope: Scope, at: Stamp): set<UsageKey> {
    {DayKey(user, action, metric, scope, at), MonthKey(user, action, metric, scope, at)}
  }

  /** The usages that a step reserves volume on when it makes a new request. */
  function Charged(step: Step, at: Stamp): set<UsageKey> {
    match step
    case CreateWithdrawal(user, _, _, _, _) => DayAndMonth(user, WithdrawIrr, NotionalIrr, All, at)
    case CreateTrade(user, _, side, _, _, metric, product, _, _) =>
      var action := if side.Buy? then TradeBuy else TradeSell;
      DayAndMonth(user, action, NotionalIrr, All, at) +
        if metric.Some? then DayAndMonth(user, action, metric.value, OfProduct(product), at) else {}
    case RequestMovement(user, kind, _, _, _) =>
      DayAndMonth(user, if kind.In? then CustodyIn else CustodyOut, Weight750, OfInstrument(GOLD), at)
    case CreateRemittance(user, _, instr, _, _) =>
      DayAndMonth(user, RemittanceSend, NotionalIrr, OfInstrument(instr), at)
    case _ => {}
  }

  /** Wherever the event charges `u`, the rules resolve to a limit for it, and to none above `cap`. */
  predicate Respects(e: Event, u: UsageKey, cap: int) {
    u in Charged(e.step, e.at) ==> Capped(e.policies, u, cap)
  }

  /** Going from `q` to `q'` takes no usage over a cap, if those that are `charged` were checked against it. */
  ghost predicate CapsKept(q: Quota, q': Quota, charged: set<UsageKey>, policies: Policies) {
    forall u, cap | (u in charged ==> Capped(policies, u, cap)) && Within(q, u, cap) :: Within(q', u, cap)
  }

  lemma SameCaps(q: Quota, q': Quota, charged: set<UsageKey>, policies: Policies)
    requires q'.usages == q.usages
    ensures CapsKept(q, q', charged, policies)
  {
  }

  lemma BothCaps(q: Quota, user: UserId, action: Action, metric: Metric, scope: Scope, at: Stamp, amount: int, ref: Ref,
                 policies: Policies)
    requires ReserveBoth(q, user, action, metric, scope, at, amount, ref, policies).Ok?
    ensures CapsKept(q, ReserveBoth(q, user, action, metric, scope, at, amount, ref, policies).value,
                     DayAndMonth(user, action, metric, scope, at), policies)
  {
    hide Reserve, Within, DayKey, MonthKey;
    var (day, month) := (DayKey(user, action, metric, scope, at), MonthKey(user, action, metric, scope, at));
    var q1 := Reserve(q, day, amount, ref, PolicyFor(policies, day)).value;
    forall u, cap | (u in DayAndMonth(user, action, metric, scope, at) ==> Capped(policies, u, cap)) &&
           Within(q, u, cap)
      ensures Within(ReserveBoth(q, user, action, metric, scope, at, amount, ref, policies).value, u, cap)
    {
      ReserveCap(q, u, cap, day, amount, ref, PolicyFor(policies, day));
      ReserveCap(q1, u, cap, month, amount, ref, PolicyFor(policies, month));
    }
  }

  /** Consuming and releasing what was reserved brings no total up, as long as no amount is negative. */
  lemma DecidedCaps(q: Quota, q': Quota, ref: Ref, charged: set<UsageKey>, policies: Policies)
    requires QuotaSound(q) && Decided(q, q', ref)
    ensures CapsKept(q, q', charged, policies)
  {
    hide QuotaSound, Within, Consume, Release;
    forall u, cap | Within(q, u, cap) ensures Within(q', u, cap) {
      SettleCap(q, u, cap, ref, ref, 0);
    }
  }

  lemma TradeLimitCaps(q: Quota, t: TradeRow, ref: Ref, policies: Policies)
    requires Trades.ReserveLimits(q, t, ref, policies).Ok?
    ensures CapsKept(q, Trades.ReserveLimits(q, t, ref, policies).value,
                     DayAndMonth(t.client, TradeAction(t), NotionalIrr, All, t.created) +
                     (if t.metric.None? then {} else
                        DayAndMonth(t.client, TradeAction(t), t.metric.value, OfProduct(t.product), t.created)),
                     policies)
  {
    hide ReserveBoth, Within, DayAndMonth, Capped;
    BothCaps(q, t.client, TradeAction(t), NotionalIrr, All, t.created, t.total, ref, policies);
    if t.metric.Some? {
      var q1 := ReserveBoth(q, t.client, TradeAction(t), NotionalIrr, All, t.created, t.total, ref, policies).value;
      BothCaps(q1, t.client, TradeAction(t), t.metric.value, OfProduct(t.product), t.created, t.quantity, ref,
               policies);
    }
  }

  // ---------------------------------------------------------------- every step, every run

  /** A request that repeats an earlier one charges nothing; a new one is charged once. */
  lemma CreateCaps(mode: P2P.Mode, db: Db, e: Event)
    requires Creates(e.step) && Next(mode, db, e).Ok?
    ensures CapsKept(db.quota, Next(mode, db, e).value.quota, Charged(e.step, e.at), e.policies)
  {
    hide CapsKept, Charged, Withdrawals.Create, Trades.Create, Custody.Request, Remittances.Create, Aside,
         RemittancesAside;
    var (step, at, policies) := (e.step, e.at, e.policies);
    if step.CreateWithdrawal? {
      WithdrawalCaps(db, step, at, policies);
    } else if step.CreateTrade? {
      TradeCaps(db, step, at, policies);
    } else if step.RequestMovement? {
      MovementCaps(db, step, at, policies);
    } else {
      RemittanceCaps(db, step, at, policies);
    }
  }

  lemma WithdrawalCharges(db: Db, user: UserId, amount: int, purpose: Purpose, ok: bool, at: Stamp, policies: Policies)
    requires Withdrawals.Make(db, user, amount, purpose, ok, at, policies).Ok?
    ensures CapsKept(db.quota, Withdrawals.Make(db, user, amount, purpose, ok, at, policies).value.quota,
                     DayAndMonth(user, WithdrawIrr, NotionalIrr, All, at), policies)
  {
    hide CapsKept, ReserveBoth, ReserveFunds, GetOrCreate, UsableCapacity, Row, DayAndMonth;
    BothCaps(db.quota, user, WithdrawIrr, NotionalIrr, All, at, amount, Withdraw(db.nextId), policies);
  }

  lemma WithdrawalCaps(db: Db, step: Step, at: Stamp, policies: Policies)
    requires step.CreateWithdrawal?
    requires Withdrawals.Create(db, step.user, step.amount, step.purpose, step.key, step.destinationOk, at,
                                policies).Ok?
    ensures CapsKept(db.quota,
                     Withdrawals.Create(db, step.user, step.amount, step.purpose, step.key, step.destinationOk, at,
                                        policies).value.0.quota,
                     Charged(step, at), policies)
  {
    hide CapsKept, Withdrawals.Make, GetOrCreate, DayAndMonth;
    SameCaps(db.quota, db.quota, Charged(step, at), policies);
    if !Found(db, Withdrawals.KeyOf(step.user, step.key)) {
      WithdrawalCharges(db, step.user, step.amount, step.purpose, step.destinationOk, at, policies);
    }
  }

  lemma TradeCharges(db: Db, user: UserId, instr: Instrument, side: TradeSide, quantity: int, price: int,
                     metric: Option<Metric>, product: Id, at: Stamp, policies: Policies)
    requires Trades.Make(db, user, instr, side, quantity, price, metric, product, at, policies).Ok?
    ensures var action := if side.Buy? then TradeBuy else TradeSell;
            CapsKept(db.quota,
                     Trades.Make(db, user, instr, side, quantity, price, metric, product, at, policies).value.quota,
                     DayAndMonth(user, action, NotionalIrr, All, at) +
                       if metric.Some? then DayAndMonth(user, action, metric.value, OfProduct(product), at) else {},
                     policies)
  {
    hide CapsKept, Trades.ReserveLimits, ReserveFunds, DayAndMonth;
    var t := TradeRow(user, instr, side, quantity, quantity * price, metric, product, TradeStatus.Pending, false, at);
    TradeLimitCaps(db.quota, t, Ref.Trade(db.nextId), policies);
  }

  lemma TradeCaps(db: Db, step: Step, at: Stamp, policies: Policies)
    requires step.CreateTrade?
    requires Trades.Create(db, step.user, step.instr, step.side, step.quantity, step.price, step.metric, step.product,
                           step.key, step.quote, at, policies).Ok?
    ensures CapsKept(db.quota,
                     Trades.Create(db, step.user, step.instr, step.side, step.quantity, step.price, step.metric,
                                   step.product, step.key, step.quote, at, policies).value.0.quota,
                     Charged(step, at), policies)
  {
    hide CapsKept, Trades.Make, DayAndMonth;
    SameCaps(db.quota, db.quota, Charged(step, at), policies);
    if !Found(db, Trades.KeyOf(step.user, step.key)) && !Found(db, Some(QuoteKey(step.user, step.quote))) {
      TradeCharges(db, step.user, step.instr, step.side, step.quantity, step.price, step.metric, step.product, at,
                   policies);
    }
  }

  lemma MovementCharges(db: Db, user: UserId, kind: MovementKind, weight: int, ayar: int, at: Stamp, policies: Policies)
    requires Custody.Make(db, user, kind, weight, ayar, at, policies).Ok?
    ensures CapsKept(db.quota, Custody.Make(db, user, kind, weight, ayar, at, policies).value.quota,
                     DayAndMonth(user, if kind.In? then CustodyIn else CustodyOut, Weight750, OfInstrument(GOLD), at),
                     policies)
  {
    hide CapsKept, ReserveBoth, Custody.ReserveIfOut, Custody.ToEquiv750, DayAndMonth;
    BothCaps(db.quota, user, if kind.In? then CustodyIn else CustodyOut, Weight750, OfInstrument(GOLD), at,
             Custody.ToEquiv750(weight, ayar), Ref.Custody(db.nextId), policies);
  }

  lemma MovementCaps(db: Db, step: Step, at: Stamp, policies: Policies)
    requires step.RequestMovement? &&
             Custody.Request(db, step.user, step.kind, step.weight, step.ayar, step.key, at, policies).Ok?
    ensures CapsKept(db.quota,
                     Custody.Request(db, step.user, step.kind, step.weight, step.ayar, step.key, at,
                                     policies).value.0.quota,
                     Charged(step, at), policies)
  {
    hide CapsKept, Custody.Make, DayAndMonth;
    SameCaps(db.quota, db.quota, Charged(step, at), policies);
    if !Found(db, Custody.KeyOf(step.user, step.key)) {
      MovementCharges(db, step.user, step.kind, step.weight, step.ayar, at, policies);
    }
  }

  lemma RemittanceCharges(db: Db, user: UserId, receiver: UserId, instr: Instrument, amount: int, at: Stamp,
                          policies: Policies)
    requires Remittances.Make(db, user, receiver, instr, amount, at, policies).Ok?
    ensures CapsKept(db.quota, Remittances.Make(db, user, receiver, instr, amount, at, policies).value.quota,
                     DayAndMonth(user, RemittanceSend, NotionalIrr, OfInstrument(instr), at), policies)
  {
    hide CapsKept, ReserveBoth, ReserveFunds, DayAndMonth;
    BothCaps(db.quota, user, RemittanceSend, NotionalIrr, OfInstrument(instr), at, amount, Ref.Remittance(db.nextId),
             policies);
  }

  lemma RemittanceCaps(db: Db, step: Step, at: Stamp, policies: Policies)
    requires step.CreateRemittance?
    requires Remittances.Create(db, step.user, step.receiver, step.instr, step.amount, step.key, at, policies).Ok?
    ensures CapsKept(db.quota,
                     Remittances.Create(db, step.user, step.receiver, step.instr, step.amount, step.key, at,
                                        policies).value.0.quota,
                     Charged(step, at), policies)
  {
    hide CapsKept, Remittances.Make, DayAndMonth;
    SameCaps(db.quota, db.quota, Charged(step, at), policies);
    if !Found(db, Remittances.KeyOf(step.user, step.key)) {
      RemittanceCharges(db, step.user, step.receiver, step.instr, step.amount, at, policies);
    }
  }

  /** The steps of the P2P service charge nothing: slices move volume between reservations on the same usages. */
  lemma P2PCaps(mode: P2P.Mode, db: Db, e: Event)
    requires QuotaSound(db.quota) && P2PStep(e.step) && Next(mode, db, e).Ok?
    ensures CapsKept(db.quota, Next(mode, db, e).value.quota, Charged(e.step, e.at), e.policies)
  {
    hide QuotaSound, CapsKept, Charged, Decided, Stays, RemittancesAside,
         P2P.Assign, P2P.SubmitProof, P2P.ReceiverConfirm, P2P.AdminVerify, P2P.Finalize, P2P.Cancel, P2P.ExpireOne;
    var q' := Next(mode, db, e).value.quota;
    if e.step.Finalize? {
      DecidedCaps(db.quota, q', WithdrawAllocation(e.step.id), Charged(e.step, e.at), e.policies);
    } else {
      SameCaps(db.quota, q', Charged(e.step, e.at), e.policies);
    }
  }

  /** No step takes a usage over a cap that bounds the limit resolved for it, where the step charges it at all. All that
      is needed is that no amount reserved before is negative. */
  lemma StepCaps(mode: P2P.Mode, db: Db, e: Event)
    requires QuotaSound(db.quota)
    ensures CapsKept(db.quota, After(mode, db, e).quota, Charged(e.step, e.at), e.policies)
  {
    hide QuotaSound, CapsKept, Charged, Next, Decides, RefOf;
    if Next(mode, db, e).Ok? {
      if Creates(e.step) {
        CreateCaps(mode, db, e);
      } else if P2PStep(e.step) {
        P2PCaps(mode, db, e);
      } else if e.step.CreateDeposit? || e.step.CreateGroup? {
        MoneyOnly(mode, db, e);
        SameCaps(db.quota, After(mode, db, e).quota, Charged(e.step, e.at), e.policies);
      } else {
        StepDecides(mode, db, e);
        DecidesQuota(db, After(mode, db, e), RefOf(db, e.step));
        DecidedCaps(db.quota, After(mode, db, e).quota, RefOf(db, e.step), Charged(e.step, e.at), e.policies);
      }
    } else {
      SameCaps(db.quota, db.quota, Charged(e.step, e.at), e.policies);
    }
  }

  lemma DecidesQuota(db: Db, db': Db, ref: Ref)
    requires Decides(db, db', ref)
    ensures Decided(db.quota, db'.quota, ref)
  {
    hide Decided;
  }

  lemma MoneyOnly(mode: P2P.Mode, db: Db, e: Event)
    requires Next(mode, db, e).Ok? && (e.step.CreateDeposit? || e.step.CreateGroup?)
    ensures Next(mode, db, e).value.quota == db.quota
  {
    hide Deposits.Create, Remittances.CreateGroup, Aside, RemittancesAside;
  }

  /** If wherever `u` is charged the rules resolve to some limit for it, never above `cap`, then used and reserved
      volume on `u` together stay within `cap` over the whole run. */
  lemma {:induction false} CapHolds(mode: P2P.Mode, db: Db, events: seq<Event>, u: UsageKey, cap: int)
    requires Inv(db) && Within(db.quota, u, cap)
    requires AllAdmissible(events) && forall e <- events :: Respects(e, u, cap)
    ensures Within(Run(mode, db, events).quota, u, cap)
  {
    hide Inv, Next, Admissible, After, Capped, Charged, Within;
    if events != [] {
      var (front, e) := (events[..|events| - 1], events[|events| - 1]);
      Runs.Front(events);
      assert forall x <- front :: x in events;
      assert e in events;
      Runs.RunSound(mode, db, front);
      CapHolds(mode, db, front, u, cap);
      Known(Run(mode, db, front), Ref.Adjustment(0));
      StepCaps(mode, Run(mode, db, front), e);
    }
  }
}
