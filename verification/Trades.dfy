/** TradesService: spot trades settled from the wallet. */
module Trades {
  import opened Base
  import opened Policy
  import opened Accounts
  import opened Limits
  import opened State
  import opened Frames

  /** The four accounts of a trade, in the order its legs post on them. */
  function TradeAccounts(t: TradeRow): seq<Acct> {
    if t.side.Buy? then [Acct(t.client, IRR), Acct(HOUSE, IRR), Acct(t.client, t.instr), Acct(HOUSE, t.instr)]
    else [Acct(t.client, t.instr), Acct(HOUSE, t.instr), Acct(t.client, IRR), Acct(HOUSE, IRR)]
  }

  function ReserveLimits(q: Quota, t: TradeRow, ref: Ref, policies: Policies): Result<Quota> {
    var q1 :- ReserveBoth(q, t.client, TradeAction(t), NotionalIrr, All, t.created, t.total, ref, policies);
    if t.metric.None? then Ok(q1)
    else ReserveBoth(q1, t.client, TradeAction(t), t.metric.value, OfProduct(t.product), t.created, t.quantity, ref,
                     policies)
  }

  /** A new trade. */
  function Make(db: Db, client: UserId, instr: Instrument, side: TradeSide, quantity: int, price: int,
                  metric: Option<Metric>, product: Id, at: Stamp, policies: Policies): (r: Result<Db>)
    ensures r.Ok? ==> Adds(db, r.value) && r.value.remittances == db.remittances
  {
    if quantity <= 0 || price <= 0 then Err(BadRequest) else
      var ref := Ref.Trade(db.nextId);
      var t := TradeRow(client, instr, side, quantity, quantity * price, metric, product, TradeStatus.Pending, false,
                        at);
      var quota :- ReserveLimits(db.quota, t, ref, policies);
      var wallet :- ReserveFunds(db.wallet, TradeAccount(t), ref, TradeAmount(t));
      Ok(db.(wallet := wallet, quota := quota, trades := db.trades[db.nextId := t], nextId := db.nextId + 1))
  }

  function KeyOf(client: UserId, key: Option<nat>): Option<RequestKey> {
    if key.Some? then Some(TradeKey(client, key.value)) else None
  }

  /** Returns the trade made, or the one made before under the same key, or for the same quote. */
  function Create(db: Db, client: UserId, instr: Instrument, side: TradeSide, quantity: int, price: int,
                  metric: Option<Metric>, product: Id, key: Option<nat>, quote: Id, at: Stamp,
                  policies: Policies): Result<(Db, Id)>
  {
    var (k, q) := (KeyOf(client, key), Some(QuoteKey(client, quote)));
    if quantity <= 0 || price <= 0 then Err(BadRequest)
    else if Found(db, k) then Ok((db, db.requests[k.value]))
    else if Found(db, q) then Ok((db, db.requests[q.value]))
    else
      var db1 :- Make(db, client, instr, side, quantity, price, metric, product, at, policies);
      Ok((Stored(Stored(db1, k, db.nextId), q, db.nextId), db.nextId))
  }

  /** What a quote lock fixes, once it is granted. */
  datatype LockedQuote = LockedQuote(
    id: Id, instr: Instrument, side: TradeSide, price: int, metric: Option<Metric>, product: Id)

  /** The whole request. The quote lock is asked for first, outside the transaction, and is used up whatever comes of
      it: `lock` is what it answers, the quote or an error when it is unknown, has run out, is another user's, or was
      used before. */
  function CreateWithQuoteLock(db: Db, client: UserId, side: TradeSide, quantity: int, lock: Result<LockedQuote>,
                               key: Option<nat>, at: Stamp, policies: Policies): Result<(Db, Id)>
  {
    if quantity <= 0 then Err(BadRequest) else
      var q :- lock;
      if side != q.side then Err(SideMismatch)
      else Create(db, client, q.instr, side, quantity, q.price, q.metric, q.product, key, q.id, at, policies)
  }

  function Approve(db: Db, id: Id): (r: Result<Db>)
    ensures r.Ok? ==> Decides(db, r.value, Ref.Trade(id))
  {
    if id !in db.trades then Err(NotFound)
    else if !db.trades[id].status.Pending? then Ok(db)
    else
      var (t, ref) := (db.trades[id], Ref.Trade(id));
      var w1 :- ConsumeFunds(db.wallet, TradeAccount(t), ref);
      var w2 := OpenAll(w1, TradeAccounts(t));
      if UsableCapacity(Row(w2, TradeAccount(t))) < TradeAmount(t) then
        Err(InsufficientCredit)
      else
        var wallet :- PostAll(w2, TradeLegs(t), ref);
        Ok(db.(wallet := wallet, quota := Consume(db.quota, ref),
               trades := db.trades[id := t.(status := TradeStatus.Approved)]))
  }

  function Drop(db: Db, id: Id, status: TradeStatus): Result<Db>
    requires id in db.trades
  {
    var (t, ref) := (db.trades[id], Ref.Trade(id));
    if !t.status.Pending? then Err(BadStatus) else
      var wallet :- ReleaseFunds(db.wallet, TradeAccount(t), ref);
      Ok(db.(wallet := wallet, quota := Release(db.quota, ref), trades := db.trades[id := t.(status := status)]))
  }

  function Cancel(db: Db, id: Id): (r: Result<Db>)
    ensures r.Ok? ==> Decides(db, r.value, Ref.Trade(id))
  {
    if id !in db.trades then Err(NotFound)
    else if db.trades[id].status.CancelledByAdmin? then Ok(db)
    else Drop(db, id, TradeStatus.CancelledByAdmin)
  }

  function Reject(db: Db, id: Id): (r: Result<Db>)
    ensures r.Ok? ==> Decides(db, r.value, Ref.Trade(id))
  {
    if id !in db.trades then Err(NotFound)
    else if db.trades[id].status.Rejected? then Ok(db)
    else Drop(db, id, TradeStatus.Rejected)
  }

  /** Positions in the ledger of the postings that carry `ref`, oldest first. */
  function PostingsOf(ledger: seq<Posting>, ref: Ref): seq<nat> {
    if ledger == [] then [] else
      var last := |ledger| - 1;
      PostingsOf(ledger[..last], ref) + if ledger[last].ref == ref then [last] else []
  }

  predicate HasReversal(ledger: seq<Posting>, j: nat) {
    exists p <- ledger :: p.reversalOf == Some(j)
  }

  /** Posts the negative of each posting in `todo` that has not been reversed yet. */
  function ReverseAll(w: Wallet, todo: seq<nat>, ref: Ref): Result<Wallet>
    requires forall k | 0 <= k < |todo| :: todo[k] < |w.ledger|
    decreases |todo|
  {
    if todo == [] then Ok(w) else
      var j := todo[0];
      if HasReversal(w.ledger, j) then ReverseAll(w, todo[1..], ref) else
        var w1 :- ApplyTransaction(w, w.ledger[j].acct, Minus(w.ledger[j].delta), ref, Some(j));
        ReverseAll(w1, todo[1..], ref)
  }

  lemma PostingsInRange(ledger: seq<Posting>, ref: Ref)
    ensures forall k | 0 <= k < |PostingsOf(ledger, ref)| :: PostingsOf(ledger, ref)[k] < |ledger|
  {
  }

  function Reverse(db: Db, id: Id): (r: Result<Db>)
    ensures r.Ok? ==> Decides(db, r.value, Ref.Trade(id))
  {
    if id !in db.trades then Err(NotFound)
    else if db.trades[id].reversed then Ok(db)
    else if !db.trades[id].status.Approved? then Err(BadStatus)
    else
      var ref := Ref.Trade(id);
      PostingsInRange(db.wallet.ledger, ref);
      var wallet :- ReverseAll(db.wallet, PostingsOf(db.wallet.ledger, ref), ref);
      Ok(db.(wallet := wallet,
             trades := db.trades[id := db.trades[id].(status := TradeStatus.CancelledByAdmin, reversed := true)]))
  }

  // ---------------------------------------------------------------- lemmas

  lemma CreateAside(db: Db, client: UserId, instr: Instrument, side: TradeSide, quantity: int, price: int,
                    metric: Option<Metric>, product: Id, key: Option<nat>, quote: Id, at: Stamp, policies: Policies)
    requires Create(db, client, instr, side, quantity, price, metric, product, key, quote, at, policies).Ok?
    ensures var db' := Create(db, client, instr, side, quantity, price, metric, product, key, quote, at,
                              policies).value.0;
            Aside(db, db') && RemittancesAside(db, db')
  {
    hide Make;
  }

  lemma QuotasConsumed(t: TradeRow, status: HoldStatus)
    ensures WithStatus(TradeQuotas(t, Reserved), status) == TradeQuotas(t, status)
    ensures forall u <- TradeQuotas(t, Reserved) :: TradeQuotas(t, Reserved)[u].status == Reserved
  {
    BothWithStatus(t.client, TradeAction(t), NotionalIrr, All, t.created, Hold(t.total, Reserved), status);
    var notional := Both(t.client, TradeAction(t), NotionalIrr, All, t.created, Hold(t.total, Reserved));
    if t.metric.Some? {
      BothWithStatus(t.client, TradeAction(t), t.metric.value, OfProduct(t.product), t.created,
                     Hold(t.quantity, Reserved), status);
      var metric := Both(t.client, TradeAction(t), t.metric.value, OfProduct(t.product), t.created,
                         Hold(t.quantity, Reserved));
      StatusOfUnion(metric, notional, status);
    }
    hide DayKey, MonthKey, TradeAction, WithStatus;
  }

  lemma StatusOfUnion(quotas: map<UsageKey, Hold>, more: map<UsageKey, Hold>, status: HoldStatus)
    ensures WithStatus(quotas + more, status) == WithStatus(quotas, status) + WithStatus(more, status)
  {
  }

  lemma ReserveLimitsEffect(q: Quota, t: TradeRow, ref: Ref, policies: Policies)
    requires QuotaSound(q) && LimitsOf(q.limits, ref) == map[] && TradeSound(t)
    requires ReserveLimits(q, t, ref, policies).Ok?
    ensures QuotaEffect(q, ReserveLimits(q, t, ref, policies).value, ref, TradeQuotas(t, Reserved))
  {
    hide LimitsOf, QuotaSound, ReserveBoth, Both, SameLimits;
    ReserveBothFresh(q, t.client, TradeAction(t), NotionalIrr, All, t.created, t.total, ref, policies);
    if t.metric.Some? {
      var q1 := ReserveBoth(q, t.client, TradeAction(t), NotionalIrr, All, t.created, t.total, ref, policies).value;
      ReserveBothEffect(q1, t.client, TradeAction(t), t.metric.value, OfProduct(t.product), t.created, t.quantity, ref,
                        policies);
      var q2 := ReserveLimits(q, t, ref, policies).value;
      forall r | r != ref ensures SameLimits(q, q2, r) {
        LimitsChain(q, q1, q2, r);
      }
    }
  }

  lemma LimitsChain(q: Quota, q1: Quota, q2: Quota, r: Ref)
    requires SameLimits(q, q1, r) && SameLimits(q1, q2, r)
    ensures SameLimits(q, q2, r)
  {
  }

  lemma TradeKnown(db: Db, id: Id)
    requires Inv(db) && id in db.trades
    ensures var (t, ref) := (db.trades[id], Ref.Trade(id));
            && TradeSound(t)
            && HoldsOf(db.wallet.holds, ref) == map[TradeAccount(t) := Hold(TradeAmount(t), TradeFate(t))]
            && LimitsOf(db.quota.limits, ref) == TradeQuotas(t, TradeFate(t))
            && MovesOf(db.wallet.ledger, ref) == TradeMoves(t)
  {
    hide HoldsOf, LimitsOf, MovesOf, Sound, QuotaSound, TradeQuotas, TradeMoves, TotalsSound;
    assert Explained(db, Ref.Trade(id));
  }

  lemma Shown(db: Db, id: Id)
    requires id in db.trades
    requires var (t, ref) := (db.trades[id], Ref.Trade(id));
             && HoldsOf(db.wallet.holds, ref) == map[TradeAccount(t) := Hold(TradeAmount(t), TradeFate(t))]
             && LimitsOf(db.quota.limits, ref) == TradeQuotas(t, TradeFate(t))
             && MovesOf(db.wallet.ledger, ref) == TradeMoves(t)
    ensures Explained(db, Ref.Trade(id))
  {
    hide HoldsOf, LimitsOf, MovesOf, TradeQuotas, TradeMoves;
  }

  /** The status of a trade does not enter into what it reserves and posts. */
  lemma SameTerms(t: TradeRow, t': TradeRow)
    requires t' == t.(status := t'.status, reversed := t'.reversed)
    ensures TradeAccount(t') == TradeAccount(t) && TradeAmount(t') == TradeAmount(t)
    ensures TradeLegs(t') == TradeLegs(t)
    ensures forall status :: TradeQuotas(t', status) == TradeQuotas(t, status)
  {
  }

  lemma MakeKeepsInv(db: Db, client: UserId, instr: Instrument, side: TradeSide, quantity: int, price: int,
                       metric: Option<Metric>, product: Id, at: Stamp, policies: Policies)
    requires Inv(db) && Make(db, client, instr, side, quantity, price, metric, product, at, policies).Ok?
    ensures Inv(Make(db, client, instr, side, quantity, price, metric, product, at, policies).value)
    ensures OnlyOn(db, Make(db, client, instr, side, quantity, price, metric, product, at, policies).value,
                   Ref.Trade(db.nextId))
  {
    hide Inv, Sound, QuotaSound, IdsSound, RowsSound, TotalsSound, LinksSound, ReversalsSound, Agree, Explained,
         HoldsOf, LimitsOf, MovesOf, TradeQuotas, Issued, Adjusted, ReserveLimits, ReserveFunds, Net;
    var (db', id) := (Make(db, client, instr, side, quantity, price, metric, product, at, policies).value, db.nextId);
    var (ref, t) := (Ref.Trade(id), db'.trades[id]);
    Known(db, ref);
    FreshReference(db, ref);
    IdUnused(db);
    ReserveFresh(db.wallet, TradeAccount(t), ref, TradeAmount(t));
    ReserveLimitsEffect(db.quota, t, ref, policies);
    NetNil();
    Shown(db', id);
    TradeWritten(db, db', id, t);
    IssuedUnmoved(db, db');
    ReversalsKept(db.wallet.ledger, db'.wallet.ledger, db.trades, db'.trades);
    OneRequest(db, db', ref, map[TradeAccount(t) := Hold(TradeAmount(t), Reserved)], LimitsOf(db'.quota.limits, ref),
               []);
  }

  lemma NetOfLegs(t: TradeRow)
    ensures forall i :: Net(MovesFor(TradeLegs(t)), i) == 0
  {
    var moves := MovesFor(TradeLegs(t));
    forall i ensures Net(moves, i) == 0 {
      NetOfFour(moves, i);
    }
  }

  lemma NetOfFour(moves: seq<Move>, i: Instrument)
    requires |moves| == 4
    ensures Net(moves, i) == Part(moves[0], i) + Part(moves[1], i) + Part(moves[2], i) + Part(moves[3], i)
  {
    assert moves[..3][..2] == moves[..2] && moves[..2][..1] == moves[..1] && moves[..1][..0] == [];
    assert Net(moves[..1], i) == Part(moves[0], i);
    assert Net(moves[..2], i) == Net(moves[..1], i) + Part(moves[1], i);
    assert Net(moves[..3], i) == Net(moves[..2], i) + Part(moves[2], i);
  }

  lemma ApproveKeepsInv(db: Db, id: Id)
    requires Inv(db) && Approve(db, id).Ok?
    ensures Inv(Approve(db, id).value)
    ensures OnlyOn(db, Approve(db, id).value, Ref.Trade(id))
    ensures SameHeld(db, Approve(db, id).value)
  {
    hide Inv, Sound, QuotaSound, IdsSound, RowsSound, TotalsSound, LinksSound, ReversalsSound, Agree, Explained,
         ConsumeFunds, HoldsOf, LimitsOf, MovesOf, TradeQuotas, Issued, Adjusted, Net, Consume, OpenAll, PostAll,
         MovesFor, Row, UsableCapacity;
    if id in db.trades && db.trades[id].status.Pending? {
      var (db', ref, t) := (Approve(db, id).value, Ref.Trade(id), db.trades[id]);
      Known(db, ref);
      TradeKnown(db, id);
      ApproveBooks(db.wallet, t, ref);
      ConsumeLimits(db.quota, t, ref);
      hide TradeLegs, TradeAccounts, TradeAccount, TradeAmount, Approve;
      SameTerms(t, db'.trades[id]);
      IdKnown(db, id);
      NetOfLegs(t);
      Shown(db', id);
      TradeWritten(db, db', id, db'.trades[id]);
      IssuedUnmoved(db, db');
      ReversalsKept(db.wallet.ledger, db'.wallet.ledger, db.trades, db'.trades);
      OneRequest(db, db', ref, map[TradeAccount(t) := Hold(TradeAmount(t), Consumed)], LimitsOf(db'.quota.limits, ref),
                 MovesFor(TradeLegs(t)));
    }
  }

  lemma ApproveBooks(w: Wallet, t: TradeRow, ref: Ref)
    requires Sound(w) && TradeSound(t) &&
             HoldsOf(w.holds, ref) == map[TradeAccount(t) := Hold(TradeAmount(t), Reserved)]
    ensures ConsumeFunds(w, TradeAccount(t), ref).Ok?
    ensures var w2 := OpenAll(ConsumeFunds(w, TradeAccount(t), ref).value, TradeAccounts(t));
            PostAll(w2, TradeLegs(t), ref).Ok? ==>
              && Effect(w, PostAll(w2, TradeLegs(t), ref).value, ref,
                        map[TradeAccount(t) := Hold(TradeAmount(t), Consumed)], MovesFor(TradeLegs(t)))
              && Forward(w.ledger, PostAll(w2, TradeLegs(t), ref).value.ledger)
  {
    hide Sound, HoldsOf, MovesOf, Effect, OpenAll, PostAll, MovesFor, ConsumeFunds, Row, UsableCapacity, TradeAccount,
         TradeLegs;
    var (a, held) := (TradeAccount(t), map[TradeAccount(t) := Hold(TradeAmount(t), Consumed)]);
    ConsumeHeld(w, a, ref, TradeAmount(t));
    var w1 := ConsumeFunds(w, a, ref).value;
    var w2 := OpenAll(w1, TradeAccounts(t));
    OpenAllAfter(w, w1, TradeAccounts(t), ref, held, []);
    if PostAll(w2, TradeLegs(t), ref).Ok? {
      PostAllAfter(w, w2, TradeLegs(t), ref, held, []);
      assert [] + MovesFor(TradeLegs(t)) == MovesFor(TradeLegs(t));
    }
  }

  lemma ConsumeLimits(q: Quota, t: TradeRow, ref: Ref)
    requires QuotaSound(q) && LimitsOf(q.limits, ref) == TradeQuotas(t, Reserved)
    ensures QuotaEffect(q, Consume(q, ref), ref, TradeQuotas(t, Consumed))
    ensures QuotaEffect(q, Release(q, ref), ref, TradeQuotas(t, Released))
  {
    hide LimitsOf, QuotaSound, QuotaEffect, TradeQuotas, Consume, Release;
    QuotasConsumed(t, Consumed);
    QuotasConsumed(t, Released);
    ConsumeLimitEffect(q, ref);
    ReleaseLimitEffect(q, ref);
  }

  lemma DropKeepsInv(db: Db, id: Id, status: TradeStatus)
    requires Inv(db) && id in db.trades && Drop(db, id, status).Ok? && (status.Rejected? || status.CancelledByAdmin?)
    ensures Inv(Drop(db, id, status).value)
    ensures OnlyOn(db, Drop(db, id, status).value, Ref.Trade(id))
  {
    hide Inv, Sound, QuotaSound, IdsSound, RowsSound, TotalsSound, LinksSound, ReversalsSound, Agree, Explained,
         HoldsOf, LimitsOf, MovesOf, TradeQuotas, Issued, Adjusted, Net, Release, ReleaseFunds;
    var (db', ref, t) := (Drop(db, id, status).value, Ref.Trade(id), db.trades[id]);
    Known(db, ref);
    TradeKnown(db, id);
    ReleaseHeld(db.wallet, TradeAccount(t), ref, TradeAmount(t));
    ConsumeLimits(db.quota, t, ref);
    NetNil();
    IdKnown(db, id);
    SameTerms(t, db'.trades[id]);
    hide TradeAccount, TradeAmount;
    Shown(db', id);
    TradeWritten(db, db', id, db'.trades[id]);
    IssuedUnmoved(db, db');
    ReversalsKept(db.wallet.ledger, db'.wallet.ledger, db.trades, db'.trades);
    OneRequest(db, db', ref, map[TradeAccount(t) := Hold(TradeAmount(t), Released)], LimitsOf(db'.quota.limits, ref),
               []);
  }

  lemma RejectKeepsInv(db: Db, id: Id)
    requires Inv(db) && Reject(db, id).Ok?
    ensures Inv(Reject(db, id).value)
    ensures OnlyOn(db, Reject(db, id).value, Ref.Trade(id))
  {
    hide Inv, Drop;
    if Reject(db, id).value != db {
      DropKeepsInv(db, id, TradeStatus.Rejected);
    }
  }

  lemma CancelKeepsInv(db: Db, id: Id)
    requires Inv(db) && Cancel(db, id).Ok?
    ensures Inv(Cancel(db, id).value)
    ensures OnlyOn(db, Cancel(db, id).value, Ref.Trade(id))
  {
    hide Inv, Drop;
    if Cancel(db, id).value != db {
      DropKeepsInv(db, id, TradeStatus.CancelledByAdmin);
    }
  }

  lemma IdKnown(db: Db, id: Id)
    requires IdsSound(db) && id in db.trades
    ensures id < db.nextId
  {
  }

  /** What the house must have for a trade to go through: enough of what it gives. It counts what it receives
      in the same instrument; when it trades with itself only an IRR-for-IRR trade fails. */
  predicate HouseCanGive(w: Wallet, t: TradeRow) {
    var (receives, gives) := (TradeLegs(t)[1], TradeLegs(t)[3]);
    if t.client == HOUSE then t.instr != IRR
    else UsableCapacity(Row(w, gives.0)) + (if t.instr == IRR then receives.1.value else 0) + gives.1.value >= 0
  }

  /** The four legs at once, from a wallet in which the client can pay and nothing is posted yet. */
  lemma LegsPayable(w: Wallet, t: TradeRow, ref: Ref)
    requires Sound(w) && TradeSound(t) && MovesOf(w.ledger, ref) == []
    requires UsableCapacity(Row(w, TradeAccount(t))) >= TradeAmount(t)
    ensures Payable(w, TradeLegs(t), ref) <==> HouseCanGive(w, t)
  {
    UsableAll(w);
    PayableFour(w, TradeLegs(t), ref);
    hide Sound, MovesOf, Row, UsableCapacity, Payable, On;
    var legs := TradeLegs(t);
    assert forall k | 0 <= k < 4 :: !Taken(w.ledger, ref, legs[k].0, legs[k].1.EntrySide());
    hide Taken;
    LegsSpelled(t);
    hide TradeLegs, OnFour;
  }

  /** Sums over the legs of a trade, by the accounts that coincide. */
  lemma LegsSpelled(t: TradeRow)
    requires TradeSound(t)
    ensures var legs := TradeLegs(t);
            && OnFour(legs, 0) == legs[0].1.value == -TradeAmount(t) && legs[0].0 == TradeAccount(t)
            && OnFour(legs, 1) == legs[1].1.value + (if t.client == HOUSE then legs[0].1.value else 0)
            && OnFour(legs, 2) == legs[2].1.value
                 + (if t.instr == IRR then legs[0].1.value + (if t.client == HOUSE then legs[1].1.value else 0) else 0)
            && OnFour(legs, 3) == legs[3].1.value + (if t.client == HOUSE then legs[2].1.value else 0)
                 + (if t.instr == IRR then legs[1].1.value + (if t.client == HOUSE then legs[0].1.value else 0) else 0)
            && legs[0].1.value < 0 && legs[1].1.value == -legs[0].1.value > 0 && legs[2].1.value > 0 &&
               legs[3].1.value == -legs[2].1.value
    ensures var legs := TradeLegs(t);
            && Apart(legs, 0, 1) && Apart(legs, 0, 2) && Apart(legs, 1, 3) && Apart(legs, 2, 3)
            && (Apart(legs, 0, 3) <==> t.client != HOUSE || t.instr != IRR)
            && (Apart(legs, 1, 2) <==> t.client != HOUSE || t.instr != IRR)
  {
  }

  lemma UsableAll(w: Wallet)
    requires Sound(w)
    ensures forall a :: UsableCapacity(Row(w, a)) >= 0
  {
    forall a ensures UsableCapacity(Row(w, a)) >= 0 {
      assert AccountSound(w, a);
    }
  }

  function PartOn(leg: (Acct, Signed), a: Acct): int {
    if leg.0 == a then leg.1.value else 0
  }

  function OnFour(legs: seq<(Acct, Signed)>, k: nat): int
    requires k < 4 == |legs|
  {
    var a := legs[k].0;
    PartOn(legs[0], a)
      + (if k >= 1 then PartOn(legs[1], a) else 0)
      + (if k >= 2 then PartOn(legs[2], a) else 0)
      + (if k >= 3 then PartOn(legs[3], a) else 0)
  }

  lemma OnAllFour(legs: seq<(Acct, Signed)>, k: nat)
    requires k < 4 == |legs|
    ensures On(legs[..k + 1], legs[k].0) == OnFour(legs, k)
  {
    var a := legs[k].0;
    hide On;
    OnNone(legs, a);
    OnNext(legs, 0, a);
    OnNext(legs, 1, a);
    OnNext(legs, 2, a);
    OnNext(legs, 3, a);
  }

  predicate FitsAt(w: Wallet, legs: seq<(Acct, Signed)>, ref: Ref, k: nat)
    requires k < 4 == |legs|
  {
    UsableCapacity(Row(w, legs[k].0)) + OnFour(legs, k) >= 0 && !Taken(w.ledger, ref, legs[k].0, legs[k].1.EntrySide())
  }

  predicate Apart(legs: seq<(Acct, Signed)>, j: nat, k: nat)
    requires j < |legs| && k < |legs|
  {
    legs[j].0 != legs[k].0 || legs[j].1.EntrySide() != legs[k].1.EntrySide()
  }

  /** Payability of four legs, spelled out. */
  lemma PayableFour(w: Wallet, legs: seq<(Acct, Signed)>, ref: Ref)
    requires |legs| == 4
    ensures Payable(w, legs, ref)
       <==> && FitsAt(w, legs, ref, 0) && FitsAt(w, legs, ref, 1) && FitsAt(w, legs, ref, 2) && FitsAt(w, legs, ref, 3)
            && Apart(legs, 0, 1) && Apart(legs, 0, 2) && Apart(legs, 0, 3)
            && Apart(legs, 1, 2) && Apart(legs, 1, 3) && Apart(legs, 2, 3)
  {
    hide Row, UsableCapacity, On, Taken, OnFour, Signed.EntrySide;
    forall k | 0 <= k < 4 ensures On(legs[..k + 1], legs[k].0) == OnFour(legs, k) {
      OnAllFour(legs, k);
    }
    if Payable(w, legs, ref) {
      forall k | 0 <= k < 4 ensures FitsAt(w, legs, ref, k) {
        assert UsableCapacity(Row(w, legs[k].0)) + On(legs[..k + 1], legs[k].0) >= 0;
      }
    }
  }

  lemma OnNone(legs: seq<(Acct, Signed)>, a: Acct)
    ensures On(legs[..0], a) == 0
  {
  }

  /** Approval of a pending trade succeeds exactly when the house can give its side: the client's side,
      reserved when the trade was made, never fails. */
  lemma ApproveSucceedsIff(db: Db, id: Id)
    requires Inv(db) && id in db.trades && db.trades[id].status.Pending?
    ensures Approve(db, id).Ok? <==> HouseCanGive(db.wallet, db.trades[id])
  {
    hide Inv, Sound, QuotaSound, Explained, HoldsOf, LimitsOf, TradeQuotas, Consume, OpenAll, PostAll, ConsumeFunds,
         Row, Effect, UsableCapacity, MovesOf, RowsSound, TotalsSound, Payable, TradeLegs;
    var (ref, t) := (Ref.Trade(id), db.trades[id]);
    Known(db, ref);
    TradeKnown(db, id);
    var a := TradeAccount(t);
    ConsumeHeld(db.wallet, a, ref, TradeAmount(t));
    var w1 := ConsumeFunds(db.wallet, a, ref).value;
    NothingPosted(w1, ref);
    OpenAllAfter(w1, w1, TradeAccounts(t), ref, HoldsOf(w1.holds, ref), []);
    var w2 := OpenAll(w1, TradeAccounts(t));
    EffectSound(w1, w2, ref, HoldsOf(w1.holds, ref), []);
    LegAccounts(t);
    LegsPayable(w2, t, ref);
    PostAllIff(w2, TradeLegs(t), ref);
    SameHouse(db.wallet, w2, t);
  }

  lemma LegAccounts(t: TradeRow)
    ensures |TradeLegs(t)| == 4 == |TradeAccounts(t)|
    ensures forall k | 0 <= k < 4 :: TradeLegs(t)[k].0 == TradeAccounts(t)[k]
    ensures forall k | 0 <= k < 4 :: TradeLegs(t)[k].0 in TradeAccounts(t)
  {
    var legs := TradeLegs(t);
    assert legs[0].0 == TradeAccounts(t)[0] && legs[1].0 == TradeAccounts(t)[1];
    assert legs[2].0 == TradeAccounts(t)[2] && legs[3].0 == TradeAccounts(t)[3];
  }

  lemma SameHouse(w: Wallet, w': Wallet, t: TradeRow)
    requires forall b | b != TradeAccount(t) :: Row(w', b) == Row(w, b)
    ensures HouseCanGive(w', t) <==> HouseCanGive(w, t)
  {
    hide UsableCapacity, Row;
  }

  // ---------------------------------------------------------------- reversal

  function MoveAt(ledger: seq<Posting>, j: nat): Move
    requires j < |ledger|
  {
    Move(ledger[j].acct, ledger[j].delta, ledger[j].side)
  }

  /** `PostingsOf` lists the positions of the postings that `MovesOf` reads, oldest first. */
  lemma {:induction false} PostingsRead(ledger: seq<Posting>, ref: Ref)
    ensures var (todo, moves) := (PostingsOf(ledger, ref), MovesOf(ledger, ref));
            && |todo| == |moves|
            && (forall k | 0 <= k < |todo| ::
                todo[k] < |ledger| && ledger[todo[k]].ref == ref && MoveAt(ledger, todo[k]) == moves[k])
            && (forall k, l | 0 <= k < l < |todo| :: todo[k] < todo[l])
  {
    if ledger != [] {
      PostingsRead(ledger[..|ledger| - 1], ref);
    }
  }

  /** Positions that can be reversed under `ref`: its own postings, each once, none reversed yet. */
  ghost predicate Reversible(w: Wallet, todo: seq<nat>, ref: Ref) {
    && (forall k | 0 <= k < |todo| ::
        todo[k] < |w.ledger| && w.ledger[todo[k]].ref == ref && !HasReversal(w.ledger, todo[k]))
    && (forall k, l | 0 <= k < l < |todo| :: todo[k] < todo[l])
  }

  function MovesAt(ledger: seq<Posting>, todo: seq<nat>): (moves: seq<Move>)
    requires forall k | 0 <= k < |todo| :: todo[k] < |ledger|
    ensures |moves| == |todo|
  {
    seq(|todo|, k requires 0 <= k < |todo| => MoveAt(ledger, todo[k]))
  }

  /** One posting of the reversal leaves the rest reversible. */
  lemma ReversibleRest(w: Wallet, w1: Wallet, todo: seq<nat>, ref: Ref, p: Posting)
    requires todo != [] && Reversible(w, todo, ref) && w1.ledger == w.ledger + [p] && p.reversalOf == Some(todo[0])
    ensures Reversible(w1, todo[1..], ref)
    ensures MovesAt(w1.ledger, todo[1..]) == MovesAt(w.ledger, todo)[1..]
  {
    forall k | 0 <= k < |todo| - 1 ensures !HasReversal(w1.ledger, todo[1..][k]) {
      assert todo[0] < todo[k + 1];
      assert !HasReversal(w.ledger, todo[k + 1]);
    }
  }

  /** The postings that a reversal adds point back at what it reverses. */
  ghost predicate PointsBack(ledger: seq<Posting>, ledger': seq<Posting>, ref: Ref) {
    && ledger <= ledger'
    && forall j | |ledger| <= j < |ledger'| && ledger'[j].reversalOf.Some? ::
         var k := ledger'[j].reversalOf.value; k < j && ledger'[k].ref == ref
  }

  lemma ApplyReversal(w: Wallet, w1: Wallet, j: nat, ref: Ref, holds: map<Acct, Hold>, moved: seq<Move>)
    requires Effect(w, w1, ref, holds, moved) && ref.Trade? && j < |w1.ledger|
    requires ApplyTransaction(w1, w1.ledger[j].acct, Minus(w1.ledger[j].delta), ref, Some(j)).Ok?
    ensures var w2 := ApplyTransaction(w1, w1.ledger[j].acct, Minus(w1.ledger[j].delta), ref, Some(j)).value;
            && Effect(w, w2, ref, holds, moved + [MoveOf(w1.ledger[j].acct, Minus(w1.ledger[j].delta))])
            && |w2.ledger| == |w1.ledger| + 1 && w2.ledger == w1.ledger + [w2.ledger[|w1.ledger|]]
            && w2.ledger[|w1.ledger|].reversalOf == Some(j)
            && w2.ledger[|w1.ledger|].ref == ref
  {
    var (a, d) := (w1.ledger[j].acct, Minus(w1.ledger[j].delta));
    assert Sound(w1) && HoldsOf(w1.holds, ref) == holds;
    hide Effect, Sound, HoldsOf, MovesOf;
    ApplyEffect(w1, a, d, ref, Some(j));
    Chain(w, w1, ApplyTransaction(w1, a, d, ref, Some(j)).value, ref, holds, holds, moved, [MoveOf(a, d)]);
  }

  /** One turn of the reversal loop. */
  lemma ReverseFirst(w: Wallet, w1: Wallet, w2: Wallet, todo: seq<nat>, ref: Ref, holds: map<Acct, Hold>,
                     moved: seq<Move>)
    requires Effect(w, w1, ref, holds, moved) && ref.Trade? && Reversible(w1, todo, ref) && todo != []
    requires ApplyTransaction(w1, w1.ledger[todo[0]].acct, Minus(w1.ledger[todo[0]].delta), ref, Some(todo[0])) ==
             Ok(w2)
    ensures Effect(w, w2, ref, holds, moved + [MoveOf(w1.ledger[todo[0]].acct, Minus(w1.ledger[todo[0]].delta))])
    ensures Reversible(w2, todo[1..], ref) && MovesAt(w2.ledger, todo[1..]) == MovesAt(w1.ledger, todo)[1..]
    ensures PointsBack(w1.ledger, w2.ledger, ref)
  {
    hide Effect, ApplyTransaction, HasReversal, MovesAt;
    ApplyReversal(w, w1, todo[0], ref, holds, moved);
    ReversibleRest(w1, w2, todo, ref, w2.ledger[|w1.ledger|]);
    PointsBackOne(w1.ledger, w2.ledger, ref);
  }

  lemma ReverseAllStep(w: Wallet, todo: seq<nat>, ref: Ref)
    requires todo != [] && Reversible(w, todo, ref) && ReverseAll(w, todo, ref).Ok?
    ensures var r := ApplyTransaction(w, w.ledger[todo[0]].acct, Minus(w.ledger[todo[0]].delta), ref, Some(todo[0]));
            && r.Ok? && (forall k | 0 <= k < |todo[1..]| :: todo[1..][k] < |r.value.ledger|)
            && ReverseAll(w, todo, ref) == ReverseAll(r.value, todo[1..], ref)
  {
    hide HasReversal, Taken;
  }

  lemma {:induction false} ReverseAllAfter(w: Wallet, w1: Wallet, todo: seq<nat>, ref: Ref, holds: map<Acct, Hold>,
                                           moved: seq<Move>)
    requires Effect(w, w1, ref, holds, moved) && ref.Trade? && Reversible(w1, todo, ref) &&
             ReverseAll(w1, todo, ref).Ok?
    ensures Effect(w, ReverseAll(w1, todo, ref).value, ref, holds, moved + Undone(MovesAt(w1.ledger, todo)))
    ensures PointsBack(w1.ledger, ReverseAll(w1, todo, ref).value.ledger, ref)
    decreases |todo|
  {
    hide Effect, ApplyTransaction, Undone, MovesAt, PointsBack, HasReversal, Minus, MoveOf;
    if todo == [] {
      UndoneNone(w1.ledger);
      assert moved + [] == moved;
    } else {
      ReverseAllStep(w1, todo, ref);
      hide ReverseAll;
      var (a, d) := (w1.ledger[todo[0]].acct, Minus(w1.ledger[todo[0]].delta));
      var w2 := ApplyTransaction(w1, a, d, ref, Some(todo[0])).value;
      ReverseFirst(w, w1, w2, todo, ref, holds, moved);
      UndoneFirst(w1.ledger, todo);
      hide Reversible;
      ReverseAllAfter(w, w2, todo[1..], ref, holds, moved + [MoveOf(a, d)]);
      PointsBackChain(w1.ledger, w2.ledger, ReverseAll(w1, todo, ref).value.ledger, ref);
      var rest := Undone(MovesAt(w1.ledger, todo)[1..]);
      assert moved + [MoveOf(a, d)] + rest == moved + ([MoveOf(a, d)] + rest);
    }
  }

  lemma UndoneNone(ledger: seq<Posting>)
    ensures Undone(MovesAt(ledger, [])) == []
    ensures forall ref :: PointsBack(ledger, ledger, ref)
  {
  }

  lemma PointsBackOne(l0: seq<Posting>, l1: seq<Posting>, ref: Ref)
    requires |l1| == |l0| + 1 && l0 <= l1 && l1[|l0|].reversalOf.Some?
    requires l1[|l0|].reversalOf.value < |l0| && l0[l1[|l0|].reversalOf.value].ref == ref
    ensures PointsBack(l0, l1, ref)
  {
  }

  lemma PointsBackChain(l0: seq<Posting>, l1: seq<Posting>, l2: seq<Posting>, ref: Ref)
    requires PointsBack(l0, l1, ref) && PointsBack(l1, l2, ref)
    ensures PointsBack(l0, l2, ref)
  {
    forall j | |l0| <= j < |l1| ensures l2[j] == l1[j] {
    }
    forall j | |l0| <= j < |l2| && l2[j].reversalOf.Some?
      ensures var k := l2[j].reversalOf.value; k < j && l2[k].ref == ref
    {
      if j < |l1| {
        assert l2[l1[j].reversalOf.value] == l1[l1[j].reversalOf.value];
      }
    }
  }

  lemma UndoneFirst(ledger: seq<Posting>, todo: seq<nat>)
    requires todo != [] && forall k | 0 <= k < |todo| :: todo[k] < |ledger|
    ensures Undone(MovesAt(ledger, todo))
         == [MoveOf(ledger[todo[0]].acct, Minus(ledger[todo[0]].delta))] + Undone(MovesAt(ledger, todo)[1..])
  {
  }

  lemma {:induction false} UndoneNets(moves: seq<Move>, a: Acct, i: Instrument)
    ensures NetOn(Undone(moves), a) == -NetOn(moves, a) && Net(Undone(moves), i) == -Net(moves, i)
  {
    if moves != [] {
      var front := moves[..|moves| - 1];
      assert Undone(moves)[..|moves| - 1] == Undone(front);
      UndoneNets(front, a, i);
    }
  }

  /** An approved trade has never been reversed, so all of its postings can be. */
  lemma ApprovedReversible(db: Db, id: Id)
    requires Inv(db) && id in db.trades && db.trades[id].status.Approved?
    ensures var ref := Ref.Trade(id);
            && Reversible(db.wallet, PostingsOf(db.wallet.ledger, ref), ref)
            && MovesAt(db.wallet.ledger, PostingsOf(db.wallet.ledger, ref)) == MovesFor(TradeLegs(db.trades[id]))
  {
    hide HoldsOf, LimitsOf, Sound, QuotaSound, TotalsSound, LinksSound, Explained, MovesOf, PostingsOf, TradeLegs,
         MovesFor, Conserved;
    var ref := Ref.Trade(id);
    TradeKnown(db, id);
    PostingsRead(db.wallet.ledger, ref);
    assert !db.trades[id].reversed;
  }

  lemma ReverseBooks(db: Db, id: Id)
    requires Inv(db) && id in db.trades && db.trades[id].status.Approved? && Reverse(db, id).Ok?
    ensures var (db', ref, t) := (Reverse(db, id).value, Ref.Trade(id), db.trades[id]);
            && Effect(db.wallet, db'.wallet, ref, HoldsOf(db.wallet.holds, ref), Undone(MovesFor(TradeLegs(t))))
            && PointsBack(db.wallet.ledger, db'.wallet.ledger, ref)
            && db' == db.(wallet := db'.wallet,
                          trades := db.trades[id := t.(status := TradeStatus.CancelledByAdmin, reversed := true)])
            && !t.reversed
  {
    hide Inv, HoldsOf, LimitsOf, Sound, QuotaSound, Explained, MovesOf, PostingsOf, TradeLegs, MovesFor, Effect, Undone,
         ReverseAll, Reversible, PointsBack;
    var ref := Ref.Trade(id);
    Known(db, ref);
    TradeKnown(db, id);
    ApprovedReversible(db, id);
    NothingPosted(db.wallet, ref);
    ReverseAllAfter(db.wallet, db.wallet, PostingsOf(db.wallet.ledger, ref), ref, HoldsOf(db.wallet.holds, ref), []);
    var undone := Undone(MovesFor(TradeLegs(db.trades[id])));
    assert [] + undone == undone;
  }

  lemma ReversedSound(ledger: seq<Posting>, ledger': seq<Posting>, trades: map<Id, TradeRow>, id: Id, t: TradeRow)
    requires ReversalsSound(ledger, trades) && PointsBack(ledger, ledger', Ref.Trade(id)) && t.reversed
    requires forall j | |ledger| <= j < |ledger'| :: ledger'[j].ref == Ref.Trade(id)
    ensures ReversalsSound(ledger', trades[id := t])
  {
    var trades' := trades[id := t];
    forall j | 0 <= j < |ledger'| && ledger'[j].reversalOf.Some?
      ensures ledger'[j].reversalOf.value < j
      ensures ledger'[j].ref.Trade? && ledger'[j].ref == ledger'[ledger'[j].reversalOf.value].ref
      ensures ledger'[j].ref.id in trades' && trades'[ledger'[j].ref.id].reversed
    {
      if j < |ledger| {
        assert ledger'[j] == ledger[j];
        assert ledger'[ledger[j].reversalOf.value] == ledger[ledger[j].reversalOf.value];
      }
    }
  }

  lemma ReverseKeepsInv(db: Db, id: Id)
    requires Inv(db) && Reverse(db, id).Ok?
    ensures Inv(Reverse(db, id).value)
    ensures OnlyOn(db, Reverse(db, id).value, Ref.Trade(id))
    ensures SameHeld(db, Reverse(db, id).value)
  {
    hide Inv, Sound, QuotaSound, IdsSound, RowsSound, TotalsSound, LinksSound, ReversalsSound, Agree, Explained, Undone,
         HoldsOf, LimitsOf, MovesOf, TradeQuotas, Issued, Adjusted, Net, MovesFor, PointsBack, TradeLegs, TradeAccount,
         TradeAmount, ReverseAll;
    if id in db.trades && db.trades[id].status.Approved? && !db.trades[id].reversed {
      ReverseBooks(db, id);
      hide Reverse;
      var (db', ref, t) := (Reverse(db, id).value, Ref.Trade(id), db.trades[id]);
      Known(db, ref);
      TradeKnown(db, id);
      IdKnown(db, id);
      SameTerms(t, db'.trades[id]);
      forall i ensures Net(Undone(MovesFor(TradeLegs(t))), i) == 0 {
        NetOfLegs(t);
        UndoneNets(MovesFor(TradeLegs(t)), TradeAccount(t), i);
      }
      Shown(db', id);
      TradeWritten(db, db', id, db'.trades[id]);
      IssuedUnmoved(db, db');
      SameQuota(db.quota, ref);
      ReversedSound(db.wallet.ledger, db'.wallet.ledger, db.trades, id, db'.trades[id]);
      OneRequest(db, db', ref, HoldsOf(db.wallet.holds, ref), LimitsOf(db.quota.limits, ref),
                 Undone(MovesFor(TradeLegs(t))));
    } else {
      hide Reverse;
      AlreadyReversed(db, id);
    }
  }

  lemma AlreadyReversed(db: Db, id: Id)
    requires Reverse(db, id).Ok? && (id !in db.trades || !db.trades[id].status.Approved? || db.trades[id].reversed)
    ensures Reverse(db, id).value == db
  {
  }

  /** A reversal makes the net effect of the trade zero on every account, and a second one changes nothing. */
  lemma ReversalUndoes(db: Db, id: Id, a: Acct)
    requires Inv(db) && id in db.trades && db.trades[id].status.Approved? && Reverse(db, id).Ok?
    ensures var db' := Reverse(db, id).value;
            && NetOn(MovesOf(db'.wallet.ledger, Ref.Trade(id)), a) == 0
            && Reverse(db', id) == Ok(db')
  {
    hide Inv, Sound, Explained, Undone, HoldsOf, LimitsOf, MovesFor, PointsBack, TradeLegs, ReverseAll, TradeQuotas,
         NetOn;
    ReverseBooks(db, id);
    TradeKnown(db, id);
    var moves := MovesFor(TradeLegs(db.trades[id]));
    NetOnAppend(moves, Undone(moves), a);
    UndoneNets(moves, a, IRR);
  }

  function UndoLegs(ledger: seq<Posting>, todo: seq<nat>): (legs: seq<(Acct, Signed)>)
    requires forall k | 0 <= k < |todo| :: todo[k] < |ledger|
    ensures |legs| == |todo|
  {
    seq(|todo|, k requires 0 <= k < |todo| => (ledger[todo[k]].acct, Minus(ledger[todo[k]].delta)))
  }

  /** The reversal loop, too, goes through exactly when all it posts is payable at once. */
  lemma {:induction false} ReverseAllIff(w: Wallet, todo: seq<nat>, ref: Ref)
    requires Sound(w) && ref.Trade? && Reversible(w, todo, ref)
    ensures ReverseAll(w, todo, ref).Ok? <==> Payable(w, UndoLegs(w.ledger, todo), ref)
    decreases |todo|
  {
    if todo != [] {
      hide Sound, HoldsOf, MovesOf, Effect, Taken, Payable, HasReversal;
      var (j, legs) := (todo[0], UndoLegs(w.ledger, todo));
      var (a, d) := legs[0];
      assert !HasReversal(w.ledger, todo[0]);
      assert a in w.accounts by {
        PostedOpen(w, j);
      }
      if ApplyTransaction(w, a, d, ref, Some(j)).Ok? {
        var w1 := ApplyTransaction(w, a, d, ref, Some(j)).value;
        SoundAfter(w, a, d, ref, Some(j));
        ReversibleRest(w, w1, todo, ref, w1.ledger[|w.ledger|]);
        hide Reversible;
        assert UndoLegs(w1.ledger, todo[1..]) == legs[1..];
        forall k: nat | k + 1 < |legs| ensures RestAt(w, w1, legs, ref, k) {
          RestHolds(w, w1, legs, ref, w1.ledger[|w.ledger|], k);
        }
        PayableRest(w, w1, legs, ref);
        ReverseAllIff(w1, todo[1..], ref);
      } else if Payable(w, legs, ref) {
        NotPayable(w, legs, ref);
        assert false;
      }
    }
  }

  /** What a reversal needs: four different accounts, and that those who received can give back. A trade of the
      house with itself, or of IRR for IRR, runs into the unique index on postings and can never be reversed. */
  predicate CanReverse(w: Wallet, t: TradeRow) {
    && t.client != HOUSE && t.instr != IRR
    && UsableCapacity(Row(w, TradeLegs(t)[1].0)) >= TradeLegs(t)[1].1.value
    && UsableCapacity(Row(w, TradeLegs(t)[2].0)) >= TradeLegs(t)[2].1.value
  }

  function Opposite(legs: seq<(Acct, Signed)>): (undone: seq<(Acct, Signed)>)
    ensures |undone| == |legs|
  {
    seq(|legs|, k requires 0 <= k < |legs| => (legs[k].0, Minus(legs[k].1.value)))
  }

  lemma UndoPayable(w: Wallet, t: TradeRow, ref: Ref)
    requires Sound(w) && TradeSound(t) && MovesOf(w.ledger, ref) == MovesFor(TradeLegs(t))
    ensures Payable(w, Opposite(TradeLegs(t)), ref) <==> CanReverse(w, t)
  {
    var (legs, undo) := (TradeLegs(t), Opposite(TradeLegs(t)));
    UsableAll(w);
    PayableFour(w, undo, ref);
    hide Sound, Row, UsableCapacity, On, Payable, MovesOf;
    forall k | 0 <= k < 4 ensures Taken(w.ledger, ref, undo[k].0, undo[k].1.EntrySide()) <==> !AllClear(legs, undo, k) {
      TakenByLegs(w, legs, ref, undo[k].0, undo[k].1.EntrySide());
      ClearOfAll(legs, undo, k);
    }
    hide Taken;
    UndoSpelled(t);
    hide TradeLegs, OnFour, AllClear, Opposite;
  }

  /** Leg `k` of the reversal does not fall on the side of the account that leg `j` of the trade took. */
  predicate Clear(legs: seq<(Acct, Signed)>, undo: seq<(Acct, Signed)>, j: nat, k: nat)
    requires j < |legs| && k < |undo|
  {
    legs[j].0 != undo[k].0 || legs[j].1.EntrySide() != undo[k].1.EntrySide()
  }

  predicate AllClear(legs: seq<(Acct, Signed)>, undo: seq<(Acct, Signed)>, k: nat)
    requires |legs| == 4 && k < |undo|
  {
    Clear(legs, undo, 0, k) && Clear(legs, undo, 1, k) && Clear(legs, undo, 2, k) && Clear(legs, undo, 3, k)
  }

  lemma ClearOfAll(legs: seq<(Acct, Signed)>, undo: seq<(Acct, Signed)>, k: nat)
    requires |legs| == 4 && k < |undo|
    ensures AllClear(legs, undo, k)
       <==> !exists j | 0 <= j < 4 :: legs[j].0 == undo[k].0 && legs[j].1.EntrySide() == undo[k].1.EntrySide()
  {
    hide Signed.EntrySide;
    if j: nat :| j < 4 && legs[j].0 == undo[k].0 && legs[j].1.EntrySide() == undo[k].1.EntrySide() {
      assert !Clear(legs, undo, j, k);
    }
  }

  lemma UndoSpelled(t: TradeRow)
    requires TradeSound(t)
    ensures var (legs, undo) := (TradeLegs(t), Opposite(TradeLegs(t)));
            && (AllClear(legs, undo, 0) && AllClear(legs, undo, 1) && AllClear(legs, undo, 2) && AllClear(legs, undo, 3)
                <==> t.client != HOUSE && t.instr != IRR)
            && (t.client != HOUSE && t.instr != IRR ==>
                  && Apart(undo, 0, 1) && Apart(undo, 0, 2) && Apart(undo, 0, 3) && Apart(undo, 1, 2) &&
                     Apart(undo, 1, 3) && Apart(undo, 2, 3)
                  && (forall k | 0 <= k < 4 :: OnFour(undo, k) == -legs[k].1.value && undo[k].0 == legs[k].0)
                  && legs[0].1.value < 0 && legs[3].1.value < 0)
  {
  }

  lemma TakenByLegs(w: Wallet, legs: seq<(Acct, Signed)>, ref: Ref, a: Acct, side: Side)
    requires MovesOf(w.ledger, ref) == MovesFor(legs)
    ensures Taken(w.ledger, ref, a, side) <==>
            exists j | 0 <= j < |legs| :: legs[j].0 == a && legs[j].1.EntrySide() == side
  {
    hide MovesOf;
    var moves := MovesFor(legs);
    forall j | 0 <= j < |legs| && legs[j].0 == a &&
           legs[j].1.EntrySide() == side ensures Taken(w.ledger, ref, a, side) {
      assert moves[j] in MovesOf(w.ledger, ref);
    }
    if Taken(w.ledger, ref, a, side) {
      var m :| m in MovesOf(w.ledger, ref) && m.acct == a && m.side == side;
      var j :| 0 <= j < |moves| && moves[j] == m;
      assert legs[j].0 == a;
    }
  }

  lemma ReverseSucceedsIff(db: Db, id: Id)
    requires Inv(db) && id in db.trades && db.trades[id].status.Approved?
    ensures Reverse(db, id).Ok? <==> CanReverse(db.wallet, db.trades[id])
  {
    hide Inv, Sound, QuotaSound, Explained, HoldsOf, LimitsOf, TradeQuotas, MovesOf, RowsSound, TotalsSound, Payable,
         TradeLegs, PostingsOf, Reversible, MovesAt, MovesFor, Opposite, CanReverse, ReverseAll;
    var (ref, t) := (Ref.Trade(id), db.trades[id]);
    Known(db, ref);
    TradeKnown(db, id);
    ApprovedReversible(db, id);
    var todo := PostingsOf(db.wallet.ledger, ref);
    PostingsInRange(db.wallet.ledger, ref);
    ReverseAllIff(db.wallet, todo, ref);
    LegsUndone(db.wallet.ledger, todo, TradeLegs(t));
    UndoPayable(db.wallet, t, ref);
    NotReversedYet(db, id);
  }

  lemma NotReversedYet(db: Db, id: Id)
    requires Inv(db) && id in db.trades && db.trades[id].status.Approved?
    ensures !db.trades[id].reversed
  {
    hide Sound, QuotaSound, Explained, TotalsSound, LinksSound, ReversalsSound, Conserved;
  }

  lemma LegsUndone(ledger: seq<Posting>, todo: seq<nat>, legs: seq<(Acct, Signed)>)
    requires forall k | 0 <= k < |todo| :: todo[k] < |ledger|
    requires MovesAt(ledger, todo) == MovesFor(legs)
    ensures UndoLegs(ledger, todo) == Opposite(legs)
  {
    forall k | 0 <= k < |todo| ensures UndoLegs(ledger, todo)[k] == Opposite(legs)[k] {
      assert MovesAt(ledger, todo)[k] == MovesFor(legs)[k];
    }
  }

  // ---------------------------------------------------------------- what a trade asks for and what it settles

  /** The limits that a trade must fit: its value, and its quantity where it has a metric. */
  predicate LimitsAllow(q: Quota, t: TradeRow, policies: Policies) {
    && BothAllow(q, t.client, TradeAction(t), NotionalIrr, All, t.created, t.total, policies)
    && (t.metric.Some? ==>
          BothAllow(q, t.client, TradeAction(t), t.metric.value, OfProduct(t.product), t.created, t.quantity, policies))
  }

  lemma ReserveLimitsIff(q: Quota, t: TradeRow, ref: Ref, policies: Policies)
    ensures ReserveLimits(q, t, ref, policies).Ok? <==> LimitsAllow(q, t, policies)
  {
    hide ReserveBoth, BothAllow;
    ReserveBothIff(q, t.client, TradeAction(t), NotionalIrr, All, t.created, t.total, ref, policies);
    if t.metric.Some? &&
       ReserveBoth(q, t.client, TradeAction(t), NotionalIrr, All, t.created, t.total, ref, policies).Ok? {
      var q1 := ReserveBoth(q, t.client, TradeAction(t), NotionalIrr, All, t.created, t.total, ref, policies).value;
      ReserveBothIff(q1, t.client, TradeAction(t), t.metric.value, OfProduct(t.product), t.created, t.quantity, ref,
                     policies);
      var (day, month) := (DayKey(t.client, TradeAction(t), t.metric.value, OfProduct(t.product), t.created),
                           MonthKey(t.client, TradeAction(t), t.metric.value, OfProduct(t.product), t.created));
      CountersElsewhere(q, t.client, TradeAction(t), NotionalIrr, All, t.created, t.total, ref, policies, day);
      CountersElsewhere(q, t.client, TradeAction(t), NotionalIrr, All, t.created, t.total, ref, policies, month);
      SameAllowed(q, q1, t.client, TradeAction(t), t.metric.value, OfProduct(t.product), t.created, t.quantity,
                  policies);
    }
  }

  /** What a new trade takes, and what is then held. */
  lemma MakeSucceedsIff(db: Db, client: UserId, instr: Instrument, side: TradeSide, quantity: int, price: int,
                          metric: Option<Metric>, product: Id, at: Stamp, policies: Policies)
    requires Inv(db)
    ensures var (a, amount) := (Acct(client, if side.Buy? then IRR else instr),
                                if side.Buy? then quantity * price else quantity);
            var action := if side.Buy? then TradeBuy else TradeSell;
            var r := Make(db, client, instr, side, quantity, price, metric, product, at, policies);
            && (r.Ok? <==>
                  && quantity > 0 && price > 0
                  && BothAllow(db.quota, client, action, NotionalIrr, All, at, quantity * price, policies)
                  && (metric.Some? ==>
                      BothAllow(db.quota, client, action, metric.value, OfProduct(product), at, quantity, policies))
                  && UsableCapacity(Row(db.wallet, a)) >= amount)
            && (r.Ok? ==> HoldsOf(r.value.wallet.holds, Ref.Trade(db.nextId)) == map[a := Hold(amount, Reserved)])
  {
    hide Inv, Sound, QuotaSound, IdsSound, RowsSound, TotalsSound, LinksSound, ReversalsSound, Explained, HoldsOf,
         LimitsOf, MovesOf, ReserveLimits, ReserveFunds, BothAllow, UsableCapacity, Row;
    var ref := Ref.Trade(db.nextId);
    Known(db, ref);
    FreshReference(db, ref);
    if quantity > 0 && price > 0 {
      var t := TradeRow(client, instr, side, quantity, quantity * price, metric, product, TradeStatus.Pending, false,
                        at);
      ReserveLimitsIff(db.quota, t, ref, policies);
      ReserveIff(db.wallet, TradeAccount(t), ref, TradeAmount(t));
      if Make(db, client, instr, side, quantity, price, metric, product, at, policies).Ok? {
        ValuePositive(quantity, price);
        ReserveFresh(db.wallet, TradeAccount(t), ref, TradeAmount(t));
        EffectSound(db.wallet, ReserveFunds(db.wallet, TradeAccount(t), ref, TradeAmount(t)).value, ref,
                    map[TradeAccount(t) := Hold(TradeAmount(t), Reserved)], []);
      }
    }
  }

  lemma CreateKeepsInv(db: Db, client: UserId, instr: Instrument, side: TradeSide, quantity: int, price: int,
                       metric: Option<Metric>, product: Id, key: Option<nat>, quote: Id, at: Stamp, policies: Policies)
    requires Inv(db) && Create(db, client, instr, side, quantity, price, metric, product, key, quote, at, policies).Ok?
    ensures Inv(Create(db, client, instr, side, quantity, price, metric, product, key, quote, at, policies).value.0)
    ensures OnlyOn(db, Create(db, client, instr, side, quantity, price, metric, product, key, quote, at,
                              policies).value.0, Ref.Trade(db.nextId))
  {
    hide Inv, HoldsOf, LimitsOf, MovesOf, Make, OnlyOn, Stored;
    var (k, q, ref, id) := (KeyOf(client, key), Some(QuoteKey(client, quote)), Ref.Trade(db.nextId), db.nextId);
    if Found(db, k) || Found(db, q) {
      OnlyFromSame(db, db, ref);
    } else {
      var made := Make(db, client, instr, side, quantity, price, metric, product, at, policies).value;
      MakeKeepsInv(db, client, instr, side, quantity, price, metric, product, at, policies);
      StoredKeepsInv(db, made, ref, k, id);
      StoredKeepsInv(db, Stored(made, k, id), ref, q, id);
    }
  }

  /** A trade is accepted exactly when quantity and price are positive and it repeats an earlier one, by its key or by
      its quote, or the limits allow it and the client can spare what is to be given: quantity times price in IRR to
      buy, the quantity itself to sell. That much, and no more, is then held for a new trade; one that repeats an
      earlier one returns that one and changes nothing. */
  lemma CreateSucceedsIff(db: Db, client: UserId, instr: Instrument, side: TradeSide, quantity: int, price: int,
                          metric: Option<Metric>, product: Id, key: Option<nat>, quote: Id, at: Stamp,
                          policies: Policies)
    requires Inv(db)
    ensures var (a, amount) := (Acct(client, if side.Buy? then IRR else instr),
                                if side.Buy? then quantity * price else quantity);
            var (action, k, q) := (if side.Buy? then TradeBuy else TradeSell, KeyOf(client, key),
                                   QuoteKey(client, quote));
            var r := Create(db, client, instr, side, quantity, price, metric, product, key, quote, at, policies);
            && (r.Ok? <==>
                  && quantity > 0 && price > 0
                  && (|| Found(db, k) || q in db.requests
                      || (&& BothAllow(db.quota, client, action, NotionalIrr, All, at, quantity * price, policies)
                          && (metric.Some? ==>
                              BothAllow(db.quota, client, action, metric.value, OfProduct(product), at, quantity,
                                        policies))
                          && UsableCapacity(Row(db.wallet, a)) >= amount)))
            && (r.Ok? && Found(db, k) ==> r.value == (db, db.requests[k.value]))
            && (r.Ok? && !Found(db, k) && q in db.requests ==> r.value == (db, db.requests[q]))
            && (r.Ok? && !Found(db, k) && q !in db.requests ==>
                  && r.value.1 == db.nextId && r.value.0.requests == Stored(db, k, db.nextId).requests[q := db.nextId]
                  && HoldsOf(r.value.0.wallet.holds, Ref.Trade(db.nextId)) == map[a := Hold(amount, Reserved)])
  {
    hide Inv, HoldsOf, Make, BothAllow, UsableCapacity, Row;
    MakeSucceedsIff(db, client, instr, side, quantity, price, metric, product, at, policies);
  }

  lemma ValuePositive(quantity: int, price: int)
    requires quantity > 0 && price > 0
    ensures quantity * price > 0
  {
  }

  /** What the client gets of an instrument, less what the client gives. */
  function Gain(t: TradeRow, i: Instrument): int {
    var (paid, got) := if t.side.Buy? then (-t.total, t.quantity) else (t.total, -t.quantity);
    (if i == IRR then paid else 0) + if i == t.instr then got else 0
  }

  /** An approved trade has moved its total against its quantity between the client and the house, and nothing on any
      other account; a trade of the house with itself has moved nothing. */
  lemma ApprovedNets(db: Db, id: Id, a: Acct)
    requires Inv(db) && id in db.trades && db.trades[id].status.Approved?
    ensures var t := db.trades[id];
            NetOn(MovesOf(db.wallet.ledger, Ref.Trade(id)), a) ==
              (if a.user == t.client then Gain(t, a.instr) else 0) - if a.user == HOUSE then Gain(t, a.instr) else 0
  {
    hide Inv, Sound, QuotaSound, Explained, HoldsOf, LimitsOf, MovesOf, TradeQuotas, NetOn;
    TradeKnown(db, id);
    NotReversedYet(db, id);
    var moves := MovesFor(TradeLegs(db.trades[id]));
    assert moves == [moves[0], moves[1], moves[2], moves[3]];
    NetOnFour(moves[0], moves[1], moves[2], moves[3], a);
  }
}
