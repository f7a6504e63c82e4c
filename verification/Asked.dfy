/** From what is asked for to what is posted, in the words of the request: made, and then over any run. */
module Asked {
  import opened Base
  import opened Policy
  import opened Accounts
  import opened Limits
  import opened State
  import opened Frames
  import opened Machine
  import Withdrawals
  import Deposits
  import Trades
  import Custody
  import Remittances
  import P2P
  import P2PInvariant
  import Guarantee
  import Records

  /** What the reference has posted on an account. */
  function NetOf(db: Db, ref: Ref, a: Acct): int {
    NetOn(MovesOf(db.wallet.ledger, ref), a)
  }

  // ---------------------------------------------------------------- withdrawals and deposits

  /** A new direct withdrawal takes its amount from the account of its user once it is approved, and nothing before or
      otherwise, whatever happens in between. */
  lemma WithdrawalPays(mode: P2P.Mode, db: Db, user: UserId, amount: int, key: Option<nat>, ok: bool, at: Stamp,
                       policies: Policies, events: seq<Event>)
    requires Inv(db) && AllAdmissible(events) && !Found(db, Withdrawals.KeyOf(user, key))
    requires Withdrawals.Create(db, user, amount, Purpose.Direct, key, ok, at, policies).Ok?
    ensures var (db', id) := Withdrawals.Create(db, user, amount, Purpose.Direct, key, ok, at, policies).value;
            var later := Run(mode, db', events);
            && id in later.withdrawals
            && var r := later.withdrawals[id];
               && r.user == user && r.amount == amount && r.created == at
               && MovesOf(later.wallet.ledger, Withdraw(id)) ==
                    if r.status.Approved? then [Move(Acct(user, IRR), -amount, Debit)] else []
  {
    hide Inv, Run, Withdrawals.Create, MovesOf, GetOrCreate, IdsSound, OnlyOn, QuotaSound, Sound, RowsSound,
         TotalsSound, LinksSound, ReversalsSound, Explained;
    Known(db, Withdraw(0));
    Records.NewWithdrawal(db, user, amount, Purpose.Direct, key, ok, at, policies);
    Withdrawals.CreateKeepsInv(db, user, amount, Purpose.Direct, key, ok, at, policies);
    var (db', id) := Withdrawals.Create(db, user, amount, Purpose.Direct, key, ok, at, policies).value;
    Records.RunFollows(mode, db', events);
    Guarantee.PostedByStatus(Run(mode, db', events), id);
  }

  lemma DepositMoves(db: Db, id: Id)
    requires Inv(db) && id in db.deposits
    ensures MovesOf(db.wallet.ledger, Ref.Deposit(id)) == DepositView(db.deposits[id]).moves
  {
    hide Inv, Sound, QuotaSound, RowsSound, TotalsSound, LinksSound, ReversalsSound, IdsSound, HoldsOf, LimitsOf,
         MovesOf, DepositView;
    Known(db, Ref.Deposit(id));
  }

  lemma DepositNets(d: DepositRequest, a: Acct)
    ensures NetOn(DepositView(d).moves, a) ==
              if d.status.Approved? && a == Acct(d.user, IRR) then d.amount else 0
  {
    var (credit, debit) := (MoveOf(Acct(d.user, IRR), Plus(d.amount)), MoveOf(Acct(d.user, IRR), Minus(d.amount)));
    NetOnTwo(credit, debit, a);
    assert [credit][..0] == [];
  }

  /** A new direct deposit gives its amount to the account of its user while it is approved. */
  lemma DepositPays(mode: P2P.Mode, db: Db, user: UserId, amount: int, events: seq<Event>, a: Acct)
    requires Inv(db) && AllAdmissible(events)
    ensures var later := Run(mode, Deposits.Create(db, user, amount, Purpose.Direct), events);
            && db.nextId in later.deposits
            && var d := later.deposits[db.nextId];
               && d.user == user && d.amount == amount
               && NetOf(later, Ref.Deposit(db.nextId), a) ==
                    if d.status.Approved? && a == Acct(user, IRR) then amount else 0
  {
    hide Inv, Run, Deposits.Create, MovesOf, NetOn, DepositView, IdsSound;
    Known(db, Withdraw(0));
    Records.NewDeposit(db, user, amount, Purpose.Direct);
    Deposits.CreateKeepsInv(db, user, amount, Purpose.Direct);
    var db' := Deposits.Create(db, user, amount, Purpose.Direct);
    Records.RunFollows(mode, db', events);
    DepositMoves(Run(mode, db', events), db.nextId);
    DepositNets(Run(mode, db', events).deposits[db.nextId], a);
  }

  // ---------------------------------------------------------------- trades

  /** What the client of a purchase gets in an instrument; of a sale, what the client gives. */
  function Bought(instr: Instrument, quantity: int, price: int, i: Instrument): int {
    (if i == instr then quantity else 0) - if i == IRR then quantity * price else 0
  }

  lemma GainOf(t: TradeRow, price: int, i: Instrument)
    requires t.total == t.quantity * price
    ensures Trades.Gain(t, i) == if t.side.Buy? then Bought(t.instr, t.quantity, price, i)
                                 else -Bought(t.instr, t.quantity, price, i)
  {
  }

  lemma UnapprovedPostsNothing(db: Db, id: Id)
    requires Inv(db) && id in db.trades && !db.trades[id].status.Approved? && !db.trades[id].reversed
    ensures MovesOf(db.wallet.ledger, Ref.Trade(id)) == []
  {
    hide Inv, HoldsOf, LimitsOf, MovesOf, TradeQuotas;
    Trades.TradeKnown(db, id);
  }

  /** A new trade, asked for with a granted quote: approved at any later time, it has moved the quantity asked for of
      the instrument asked for against the quantity times the price of the quote, between client and house; not
      approved, nothing. */
  lemma TradePays(mode: P2P.Mode, db: Db, client: UserId, side: TradeSide, quantity: int, q: Trades.LockedQuote,
                  key: Option<nat>, at: Stamp, policies: Policies, events: seq<Event>, a: Acct)
    requires Inv(db) && AllAdmissible(events)
    requires !Found(db, Trades.KeyOf(client, key)) && QuoteKey(client, q.id) !in db.requests
    requires Trades.CreateWithQuoteLock(db, client, side, quantity, Ok(q), key, at, policies).Ok?
    ensures var (db', id) := Trades.CreateWithQuoteLock(db, client, side, quantity, Ok(q), key, at, policies).value;
            var later := Run(mode, db', events);
            && id in later.trades
            && var t := later.trades[id];
               && t == TradeRow(client, q.instr, side, quantity, quantity * q.price, q.metric, q.product, t.status,
                                t.reversed, at)
               && (t.status.Approved? ==>
                     var got := if side.Buy? then Bought(q.instr, quantity, q.price, a.instr)
                                else -Bought(q.instr, quantity, q.price, a.instr);
                     NetOf(later, Ref.Trade(id), a) ==
                       (if a.user == client then got else 0) - if a.user == HOUSE then got else 0)
               && (!t.status.Approved? && !t.reversed ==> MovesOf(later.wallet.ledger, Ref.Trade(id)) == [])
  {
    hide Inv, Run, Trades.Create, MovesOf, NetOn, Trades.Gain, Bought, IdsSound, OnlyOn, QuotaSound, Sound, RowsSound,
         TotalsSound, LinksSound, ReversalsSound, Explained;
    Known(db, Withdraw(0));
    Records.NewTrade(db, client, q.instr, side, quantity, q.price, q.metric, q.product, key, q.id, at, policies);
    Trades.CreateKeepsInv(db, client, q.instr, side, quantity, q.price, q.metric, q.product, key, q.id, at, policies);
    var (db', id) :=
      Trades.Create(db, client, q.instr, side, quantity, q.price, q.metric, q.product, key, q.id, at, policies).value;
    Records.RunFollows(mode, db', events);
    var later := Run(mode, db', events);
    GainOf(later.trades[id], q.price, a.instr);
    if later.trades[id].status.Approved? {
      Trades.ApprovedNets(later, id, a);
    } else if !later.trades[id].reversed {
      UnapprovedPostsNothing(later, id);
    }
  }

  // ---------------------------------------------------------------- custody

  lemma UnapprovedMovesNothing(db: Db, id: Id)
    requires Inv(db) && id in db.movements && !db.movements[id].status.Approved?
    ensures MovesOf(db.wallet.ledger, Ref.Custody(id)) == []
  {
    hide Inv, HoldsOf, LimitsOf, MovesOf, Both;
    Custody.MovementKnown(db, id);
  }

  /** A new custody movement: approved at any later time, it has moved gold between its user and the house, in the
      direction asked for: the weight asked for times its fineness over 750, to the nearest unit. */
  lemma MovementPays(mode: P2P.Mode, db: Db, user: UserId, kind: MovementKind, weight: int, ayar: int,
                     key: Option<nat>, at: Stamp, policies: Policies, events: seq<Event>, a: Acct)
    requires Inv(db) && AllAdmissible(events) && !Found(db, Custody.KeyOf(user, key)) && weight * ayar > -375
    requires Custody.Request(db, user, kind, weight, ayar, key, at, policies).Ok?
    ensures var (db', id) := Custody.Request(db, user, kind, weight, ayar, key, at, policies).value;
            var later := Run(mode, db', events);
            && id in later.movements
            && var m := later.movements[id];
               && m.user == user && m.kind == kind && m.created == at && Custody.Nearest(m.equiv, weight, ayar)
               && NetOf(later, Ref.Custody(id), a) ==
                    var got := if !m.status.Approved? then 0 else if kind.In? then m.equiv else -m.equiv;
                    (if a == Acct(user, GOLD) then got else 0) - if a == Acct(HOUSE, GOLD) then got else 0
  {
    hide Inv, Run, Custody.Request, MovesOf, NetOn, Custody.Nearest, IdsSound;
    Known(db, Withdraw(0));
    Records.NewMovement(db, user, kind, weight, ayar, key, at, policies);
    Custody.RequestKeepsInv(db, user, kind, weight, ayar, key, at, policies);
    var (db', id) := Custody.Request(db, user, kind, weight, ayar, key, at, policies).value;
    Records.RunFollows(mode, db', events);
    var later := Run(mode, db', events);
    if later.movements[id].status.Approved? {
      Custody.ApprovedNets(later, id, a);
    } else {
      UnapprovedMovesNothing(later, id);
      NetOfNothing(a);
    }
  }

  lemma NetOfNothing(a: Acct)
    ensures NetOn([], a) == 0
  {
  }

  // ---------------------------------------------------------------- remittances

  lemma UnpostedMovesNothing(db: Db, id: Id)
    requires Inv(db) && id in db.remittances && !db.remittances[id].posted
    ensures MovesOf(db.wallet.ledger, Ref.Remittance(id)) == []
  {
    hide Inv, Sound, QuotaSound, RowsSound, TotalsSound, LinksSound, ReversalsSound, IdsSound, HoldsOf, LimitsOf,
         MovesOf, Both;
    Known(db, Ref.Remittance(id));
  }

  /** A new remittance: once it is posted it has moved its amount of its instrument from its sender to its receiver,
      before that nothing, whatever happens in between. */
  lemma RemittancePays(mode: P2P.Mode, db: Db, sender: UserId, receiver: UserId, instr: Instrument, amount: int,
                       key: Option<nat>, at: Stamp, policies: Policies, events: seq<Event>)
    requires Inv(db) && AllAdmissible(events) && !Found(db, Remittances.KeyOf(sender, key))
    requires Remittances.Create(db, sender, receiver, instr, amount, key, at, policies).Ok?
    ensures var (db', id) := Remittances.Create(db, sender, receiver, instr, amount, key, at, policies).value;
            var later := Run(mode, db', events);
            && id in later.remittances
            && var r := later.remittances[id];
               && r == RemittanceRow(sender, receiver, None, instr, amount, r.status, false, r.posted, at)
               && (r.posted ==> NetOf(later, Ref.Remittance(id), Acct(sender, instr)) == -amount
                                && NetOf(later, Ref.Remittance(id), Acct(receiver, instr)) == amount)
               && (!r.posted ==> MovesOf(later.wallet.ledger, Ref.Remittance(id)) == [])
  {
    hide Inv, Run, Remittances.Create, MovesOf, NetOn, IdsSound;
    Known(db, Withdraw(0));
    Records.NewRemittance(db, sender, receiver, instr, amount, key, at, policies);
    Remittances.CreateKeepsInv(db, sender, receiver, instr, amount, key, at, policies);
    var (db', id) := Remittances.Create(db, sender, receiver, instr, amount, key, at, policies).value;
    Records.RunFollows(mode, db', events);
    var later := Run(mode, db', events);
    if later.remittances[id].posted {
      Remittances.PostedNets(later, id);
    } else {
      UnpostedMovesNothing(later, id);
    }
  }

  // ---------------------------------------------------------------- P2P

  lemma UnsettledPostsNothing(db: Db, id: Id)
    requires Inv(db) && id in db.allocations && !db.allocations[id].status.Settled?
    ensures MovesOf(db.wallet.ledger, WithdrawAllocation(id)) == []
  {
    hide Inv, HoldsOf, LimitsOf, MovesOf, Both, AllocationSound;
    P2PInvariant.SliceKnown(db, id);
  }

  /** Item `k` of a new assignment makes an allocation of its amount, between the withdrawal and its deposit. Once that
      has settled it has moved this amount from who asked for the payout to who asked for the deposit; before that,
      nothing. */
  lemma AllocationPays(mode: P2P.Mode, db: Db, w: Id, items: seq<P2P.Item>, key: Option<nat>, expiresAt: int,
                       events: seq<Event>, k: nat)
    requires Inv(db) && AllAdmissible(events) && !P2PInvariant.Replays(db, w, key) && k < |items|
    requires P2P.Assign(db, w, items, key, true, expiresAt).Ok?
    ensures var (db', made) := P2P.Assign(db, w, items, key, true, expiresAt).value;
            var later := Run(mode, db', events);
            && |made| == |items| && made[k] in later.allocations && w in db.withdrawals &&
               items[k].deposit in db.deposits
            && var (al, receiver, payer) :=
                 (later.allocations[made[k]], db.withdrawals[w].user, db.deposits[items[k].deposit].user);
               && al.withdrawal == w && al.deposit == items[k].deposit && al.amount == items[k].amount
               && al.expiresAt == expiresAt
               && (al.status.Settled? && receiver != payer ==>
                     && NetOf(later, WithdrawAllocation(made[k]), Acct(receiver, IRR)) == -items[k].amount
                     && NetOf(later, WithdrawAllocation(made[k]), Acct(payer, IRR)) == items[k].amount)
               && (!al.status.Settled? ==> MovesOf(later.wallet.ledger, WithdrawAllocation(made[k])) == [])
  {
    hide Inv, Run, P2P.Assign, MovesOf, NetOn, P2PInvariant.FitsDeposits, P2PInvariant.P2POnly;
    P2PInvariant.AssignSucceedsIff(db, w, items, key, expiresAt);
    P2PInvariant.AssignKeepsInv(db, w, items, key, true, expiresAt);
    var (db', made) := P2P.Assign(db, w, items, key, true, expiresAt).value;
    Records.AssignFollows(db, w, items, key, true, expiresAt);
    Records.RunFollows(mode, db', events);
    var later := Run(mode, db', events);
    assert made[k] == db.nextId + k;
    assert P2PInvariant.Holds(db'.allocations, db.nextId + k, P2P.NewAllocation(w, items[k], expiresAt));
    ItemFits(db.deposits, items, k);
    if later.allocations[made[k]].status.Settled? {
      P2PInvariant.SettledNets(later, made[k]);
    } else {
      UnsettledPostsNothing(later, made[k]);
    }
  }

  lemma ItemFits(deposits: map<Id, DepositRequest>, items: seq<P2P.Item>, k: nat)
    requires P2PInvariant.FitsDeposits(deposits, items) && k < |items|
    ensures items[k].deposit in deposits
  {
    assert items[k] in items;
  }
}
