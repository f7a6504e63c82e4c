/** TradesService, statement by statement. */
module TradesService {
  import opened Base
  import opened Policy
  import opened Accounts
  import opened Limits
  import opened State
  import opened Store
  import AccountsService
  import LimitsService
  import Trades

  method ReserveLimits(tx: Database, t: TradeRow, ref: Ref, policies: Policies) returns (r: Outcome)
    modifies tx`usages, tx`limits
    ensures tx.State() == old(tx.State()).(quota := tx.Counters())
    ensures Wrote(tx.Counters(), Trades.ReserveLimits(old(tx.Counters()), t, ref, policies), r)
  {
    hide Limits.ReserveBoth;
    :- LimitsService.ReserveBoth(tx, t.client, TradeAction(t), NotionalIrr, All, t.created, t.total, ref, policies);
    if t.metric.None? {
      return Done;
    }
    r := LimitsService.ReserveBoth(tx, t.client, TradeAction(t), t.metric.value, OfProduct(t.product), t.created,
                                   t.quantity, ref, policies);
  }

  method Insert(tx: Database, row: TradeRow, key: Option<RequestKey>, quote: Option<RequestKey>) returns (id: Id)
    modifies tx`nextId, tx`trades, tx`requests
    ensures id == old(tx.nextId)
    ensures tx.State() == old(tx.State()).(nextId := id + 1, trades := old(tx.trades)[id := row],
                                           requests := Indexed(Indexed(old(tx.requests), key, id), quote, id))
  {
    id := tx.nextId;
    tx.nextId := id + 1;
    tx.trades := tx.trades[id := row];
    tx.requests := Indexed(Indexed(tx.requests, key, id), quote, id);
  }

  method New(tx: Database, client: UserId, instr: Instrument, side: TradeSide, quantity: int, price: int,
             metric: Option<Metric>, product: Id, key: Option<nat>, quote: Id, at: Stamp, policies: Policies)
               returns (r: Outcome, id: Id)
    requires quantity > 0 && price > 0
    modifies tx
    ensures id == old(tx.nextId)
    ensures WroteIndexed(tx.State(),
                         Trades.Make(old(tx.State()), client, instr, side, quantity, price, metric, product, at,
                                     policies),
                         Indexed(Indexed(old(tx.requests), Trades.KeyOf(client, key), id),
                                 Some(QuoteKey(client, quote)), id), r)
  {
    hide Trades.ReserveLimits, Accounts.ReserveFunds, Indexed;
    var t := TradeRow(client, instr, side, quantity, quantity * price, metric, product, TradeStatus.Pending, false, at);
    id := Insert(tx, t, Trades.KeyOf(client, key), Some(QuoteKey(client, quote)));
    :- ReserveLimits(tx, t, Ref.Trade(id), policies);
    r := AccountsService.ReserveFunds(tx, TradeAccount(t), Ref.Trade(id), TradeAmount(t));
  }

  method CreateBody(tx: Database, client: UserId, instr: Instrument, side: TradeSide, quantity: int, price: int,
                    metric: Option<Metric>, product: Id, key: Option<nat>, quote: Id, at: Stamp, policies: Policies)
                      returns (r: Outcome, id: Id)
    modifies tx
    ensures WroteNew(tx.State(),
                     Trades.Create(old(tx.State()), client, instr, side, quantity, price, metric, product, key, quote,
                                   at, policies), r, id)
  {
    hide Trades.Make;
    if quantity <= 0 {
      return Failed(BadRequest), 0;
    }
    if price <= 0 {
      return Failed(BadRequest), 0;
    }
    if key.Some? && TradeKey(client, key.value) in tx.requests {
      return Done, tx.requests[TradeKey(client, key.value)];
    }
    if QuoteKey(client, quote) in tx.requests {
      return Done, tx.requests[QuoteKey(client, quote)];
    }
    r, id := New(tx, client, instr, side, quantity, price, metric, product, key, quote, at, policies);
  }

  method Create(tx: Database, client: UserId, instr: Instrument, side: TradeSide, quantity: int, price: int,
                metric: Option<Metric>, product: Id, key: Option<nat>, quote: Id, at: Stamp, policies: Policies)
                  returns (r: Outcome, id: Id)
    modifies tx
    ensures CommittedNew(old(tx.State()), tx.State(),
                         Trades.Create(old(tx.State()), client, instr, side, quantity, price, metric, product, key,
                                       quote, at, policies), r, id)
    ensures Inv(old(tx.State())) ==> Inv(tx.State())
  {
    hide Trades.Create, Inv;
    var before := tx.State();
    r, id := CreateBody(tx, client, instr, side, quantity, price, metric, product, key, quote, at, policies);
    if r.Failed? {
      tx.Restore(before);
    } else if Inv(before) {
      Trades.CreateKeepsInv(before, client, instr, side, quantity, price, metric, product, key, quote, at, policies);
    }
  }

  /** `lock`: what the quote lock answers. */
  method CreateWithQuoteLock(tx: Database, client: UserId, side: TradeSide, quantity: int,
                             lock: Result<Trades.LockedQuote>, key: Option<nat>, at: Stamp, policies: Policies)
                               returns (r: Outcome, id: Id)
    modifies tx
    ensures CommittedNew(old(tx.State()), tx.State(),
                         Trades.CreateWithQuoteLock(old(tx.State()), client, side, quantity, lock, key, at, policies),
                         r, id)
    ensures Inv(old(tx.State())) ==> Inv(tx.State())
  {
    hide Trades.Create, Inv;
    if quantity <= 0 {
      return Failed(BadRequest), 0;
    }
    if lock.Err? {
      return Failed(lock.error), 0;
    }
    var q := lock.value;
    if side != q.side {
      return Failed(SideMismatch), 0;
    }
    r, id := Create(tx, client, q.instr, side, quantity, q.price, q.metric, q.product, key, q.id, at, policies);
  }

  /** Four accounts, opened if need be. */
  method OpenFour(tx: Database, t: TradeRow)
    modifies tx`accounts
    ensures tx.State() == old(tx.State()).(wallet := tx.Books())
    ensures tx.Books() == OpenAll(old(tx.Books()), Trades.TradeAccounts(t))
  {
    hide GetOrCreate;
    ghost var all := Trades.TradeAccounts(t);
    var first, second := TradeAccount(t), if t.side.Buy? then Acct(HOUSE, IRR) else Acct(HOUSE, t.instr);
    var third := if t.side.Buy? then Acct(t.client, t.instr) else Acct(t.client, IRR);
    var fourth := if t.side.Buy? then Acct(HOUSE, t.instr) else Acct(HOUSE, IRR);
    assert all == [first, second, third, fourth];
    OpenFirst(tx.Books(), all);
    var _ := AccountsService.GetOrCreateAccount(tx, first);
    OpenFirst(tx.Books(), all[1..]);
    var _ := AccountsService.GetOrCreateAccount(tx, second);
    OpenFirst(tx.Books(), all[1..][1..]);
    var _ := AccountsService.GetOrCreateAccount(tx, third);
    OpenFirst(tx.Books(), all[1..][1..][1..]);
    var _ := AccountsService.GetOrCreateAccount(tx, fourth);
    assert all[1..][1..][1..][1..] == [];
  }

  lemma OpenFirst(w: Wallet, accounts: seq<Acct>)
    requires accounts != []
    ensures OpenAll(w, accounts) == OpenAll(GetOrCreate(w, accounts[0]), accounts[1..])
  {
  }

  lemma LegsAre(t: TradeRow)
    ensures var (legs, got, given) :=
            (TradeLegs(t), if t.side.Buy? then Acct(t.client, t.instr) else Acct(t.client, IRR),
                                       if t.side.Buy? then t.quantity else t.total);
            && |legs| == 4
            && legs[0] == (TradeAccount(t), Minus(TradeAmount(t)))
            && legs[1] == (Acct(HOUSE, TradeAccount(t).instr), Plus(TradeAmount(t)))
            && legs[2] == (got, Plus(given))
            && legs[3] == (Acct(HOUSE, got.instr), Minus(given))
            && legs == [legs[0]] + legs[1..] && legs[1..] == [legs[1]] + legs[2..]
            && legs[2..] == [legs[2]] + legs[3..] && legs[3..] == [legs[3]] + []
  {
  }

  /** The four postings of a trade: what the client gives, then what the client gets, each from or to the house. */
  method PostTrade(tx: Database, t: TradeRow, ref: Ref) returns (r: Outcome)
    modifies tx`accounts, tx`ledger
    ensures tx.State() == old(tx.State()).(wallet := tx.Books())
    ensures Wrote(tx.Books(), PostAll(old(tx.Books()), TradeLegs(t), ref), r)
  {
    hide Accounts.ApplyTransaction, PostAll, TradeLegs;
    ghost var legs := TradeLegs(t);
    LegsAre(t);
    var at: nat;
    AccountsService.PostFirst(tx.Books(), legs[0], legs[1..], ref);
    r, at := AccountsService.ApplyTransaction(tx, TradeAccount(t), Minus(TradeAmount(t)), ref, None);
    :- r;
    AccountsService.PostFirst(tx.Books(), legs[1], legs[2..], ref);
    r, at := AccountsService.ApplyTransaction(tx, Acct(HOUSE, TradeAccount(t).instr), Plus(TradeAmount(t)), ref, None);
    :- r;
    var got, given := if t.side.Buy? then Acct(t.client, t.instr) else Acct(t.client, IRR),
        if t.side.Buy? then t.quantity else t.total;
    AccountsService.PostFirst(tx.Books(), legs[2], legs[3..], ref);
    r, at := AccountsService.ApplyTransaction(tx, got, Plus(given), ref, None);
    :- r;
    AccountsService.PostFirst(tx.Books(), legs[3], [], ref);
    r, at := AccountsService.ApplyTransaction(tx, Acct(HOUSE, got.instr), Minus(given), ref, None);
    AccountsService.PostNone(tx.Books(), ref);
  }

  method ApproveBody(tx: Database, id: Id) returns (r: Outcome)
    modifies tx
    ensures Wrote(tx.State(), Trades.Approve(old(tx.State()), id), r)
  {
    hide Accounts.ConsumeFunds, OpenAll, PostAll, Limits.Consume, UsableCapacity, TradeLegs, Trades.TradeAccounts,
         TradeAccount, TradeAmount;
    if id !in tx.trades {
      return Failed(NotFound);
    }
    var t := tx.trades[id];
    if !t.status.Pending? {
      return Done;
    }
    var ref := Ref.Trade(id);
    AccountsService.ConsumeOpens(tx.Books(), TradeAccount(t), ref);
    :- AccountsService.ConsumeFunds(tx, TradeAccount(t), ref);
    OpenFour(tx, t);
    if UsableCapacity(Row(tx.Books(), TradeAccount(t))) < TradeAmount(t) {
      return Failed(InsufficientCredit);
    }
    :- PostTrade(tx, t, ref);
    LimitsService.Consume(tx, ref);
    tx.trades := tx.trades[id := t.(status := TradeStatus.Approved)];
    return Done;
  }

  method Approve(tx: Database, id: Id) returns (r: Outcome)
    modifies tx
    ensures Committed(old(tx.State()), tx.State(), Trades.Approve(old(tx.State()), id), r)
    ensures Inv(old(tx.State())) ==> Inv(tx.State())
  {
    hide Trades.Approve, Inv;
    var before := tx.State();
    r := ApproveBody(tx, id);
    if r.Failed? {
      tx.Restore(before);
    } else if Inv(before) {
      Trades.ApproveKeepsInv(before, id);
    }
  }

  method CancelBody(tx: Database, id: Id) returns (r: Outcome)
    modifies tx
    ensures Wrote(tx.State(), Trades.Cancel(old(tx.State()), id), r)
  {
    hide Accounts.ReleaseFunds, Limits.Release, TradeAccount;
    if id !in tx.trades {
      return Failed(NotFound);
    }
    var t := tx.trades[id];
    if t.status.CancelledByAdmin? {
      return Done;
    }
    if !t.status.Pending? {
      return Failed(BadStatus);
    }
    LimitsService.Release(tx, Ref.Trade(id));
    :- AccountsService.ReleaseFunds(tx, TradeAccount(t), Ref.Trade(id));
    tx.trades := tx.trades[id := t.(status := TradeStatus.CancelledByAdmin)];
    return Done;
  }

  method Cancel(tx: Database, id: Id) returns (r: Outcome)
    modifies tx
    ensures Committed(old(tx.State()), tx.State(), Trades.Cancel(old(tx.State()), id), r)
    ensures Inv(old(tx.State())) ==> Inv(tx.State())
  {
    hide Trades.Cancel, Inv;
    var before := tx.State();
    r := CancelBody(tx, id);
    if r.Failed? {
      tx.Restore(before);
    } else if Inv(before) {
      Trades.CancelKeepsInv(before, id);
    }
  }

  method RejectBody(tx: Database, id: Id) returns (r: Outcome)
    modifies tx
    ensures Wrote(tx.State(), Trades.Reject(old(tx.State()), id), r)
  {
    hide Accounts.ReleaseFunds, Limits.Release, TradeAccount;
    if id !in tx.trades {
      return Failed(NotFound);
    }
    var t := tx.trades[id];
    if t.status.Rejected? {
      return Done;
    }
    if !t.status.Pending? {
      return Failed(BadStatus);
    }
    LimitsService.Release(tx, Ref.Trade(id));
    :- AccountsService.ReleaseFunds(tx, TradeAccount(t), Ref.Trade(id));
    tx.trades := tx.trades[id := t.(status := TradeStatus.Rejected)];
    return Done;
  }

  method Reject(tx: Database, id: Id) returns (r: Outcome)
    modifies tx
    ensures Committed(old(tx.State()), tx.State(), Trades.Reject(old(tx.State()), id), r)
    ensures Inv(old(tx.State())) ==> Inv(tx.State())
  {
    hide Trades.Reject, Inv;
    var before := tx.State();
    r := RejectBody(tx, id);
    if r.Failed? {
      tx.Restore(before);
    } else if Inv(before) {
      Trades.RejectKeepsInv(before, id);
    }
  }

  predicate InRange(ledger: seq<Posting>, todo: seq<nat>) {
    forall k | 0 <= k < |todo| :: todo[k] < |ledger|
  }

  /** One turn of the reversal loop, seen from the specification. */
  lemma ReverseTurn(w: Wallet, todo: seq<nat>, ref: Ref)
    requires todo != [] && InRange(w.ledger, todo)
    ensures InRange(w.ledger, todo[1..])
    ensures Trades.HasReversal(w.ledger, todo[0]) ==>
            Trades.ReverseAll(w, todo, ref) == Trades.ReverseAll(w, todo[1..], ref)
    ensures var r := Accounts.ApplyTransaction(w, w.ledger[todo[0]].acct, Minus(w.ledger[todo[0]].delta), ref,
                                               Some(todo[0]));
            !Trades.HasReversal(w.ledger, todo[0]) ==>
              if r.Ok? then InRange(r.value.ledger, todo[1..]) &&
                 Trades.ReverseAll(w, todo, ref) == Trades.ReverseAll(r.value, todo[1..], ref)
              else Trades.ReverseAll(w, todo, ref) == r
  {
    hide Trades.HasReversal, Taken;
  }

  method ReversePostings(tx: Database, todo: seq<nat>, ref: Ref) returns (r: Outcome)
    requires InRange(tx.ledger, todo)
    modifies tx`accounts, tx`ledger
    ensures tx.State() == old(tx.State()).(wallet := tx.Books())
    ensures Wrote(tx.Books(), Trades.ReverseAll(old(tx.Books()), todo, ref), r)
  {
    hide Trades.ReverseAll, Accounts.ApplyTransaction, Trades.HasReversal;
    var j := 0;
    assert todo[0..] == todo;
    while j < |todo|
      invariant 0 <= j <= |todo|
      invariant InRange(tx.ledger, todo[j..])
      invariant tx.State() == old(tx.State()).(wallet := tx.Books())
      invariant Trades.ReverseAll(tx.Books(), todo[j..], ref) == Trades.ReverseAll(old(tx.Books()), todo, ref)
    {
      ReverseTurn(tx.Books(), todo[j..], ref);
      assert todo[j..][1..] == todo[j + 1..] && todo[j..][0] == todo[j];
      if !Trades.HasReversal(tx.ledger, todo[j]) {
        var posting := tx.ledger[todo[j]];
        var applied, _ := AccountsService.ApplyTransaction(tx, posting.acct, Minus(posting.delta), ref, Some(todo[j]));
        :- applied;
      }
      j := j + 1;
    }
    ReverseNone(tx.Books(), ref);
    assert todo[j..] == [];
    return Done;
  }

  lemma ReverseNone(w: Wallet, ref: Ref)
    ensures Trades.ReverseAll(w, [], ref) == Ok(w)
  {
  }

  method ReverseBody(tx: Database, id: Id) returns (r: Outcome)
    modifies tx
    ensures Wrote(tx.State(), Trades.Reverse(old(tx.State()), id), r)
  {
    hide Trades.ReverseAll, Trades.PostingsOf;
    if id !in tx.trades {
      return Failed(NotFound);
    }
    var t := tx.trades[id];
    if t.reversed {
      return Done;
    }
    if !t.status.Approved? {
      return Failed(BadStatus);
    }
    var todo := Trades.PostingsOf(tx.ledger, Ref.Trade(id));
    Trades.PostingsInRange(tx.ledger, Ref.Trade(id));
    :- ReversePostings(tx, todo, Ref.Trade(id));
    tx.trades := tx.trades[id := t.(status := TradeStatus.CancelledByAdmin, reversed := true)];
    return Done;
  }

  method Reverse(tx: Database, id: Id) returns (r: Outcome)
    modifies tx
    ensures Committed(old(tx.State()), tx.State(), Trades.Reverse(old(tx.State()), id), r)
    ensures Inv(old(tx.State())) ==> Inv(tx.State())
  {
    hide Trades.Reverse, Inv;
    var before := tx.State();
    r := ReverseBody(tx, id);
    if r.Failed? {
      tx.Restore(before);
    } else if Inv(before) {
      Trades.ReverseKeepsInv(before, id);
    }
  }
}
