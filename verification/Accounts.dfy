/** AccountsService: balances, reservations of funds and the ledger, as values. */
module Accounts {
  import opened Base
  import opened Sums

  datatype Account = Account(balance: int, blocked: int, min: int)

  const ZERO_ACCOUNT := Account(0, 0, 0)

  datatype HoldKey = HoldKey(ref: Ref, acct: Acct)

  datatype Posting = Posting(acct: Acct, delta: int, side: Side, ref: Ref, reversalOf: Option<nat>)

  /** A posting as its reference sees it. */
  datatype Move = Move(acct: Acct, delta: int, side: Side)

  datatype Wallet = Wallet(accounts: map<Acct, Account>, holds: map<HoldKey, Hold>, ledger: seq<Posting>)

  // ---------------------------------------------------------------- operations

  /** An account that has not been opened yet reads as a zero row. */
  function Row(w: Wallet, a: Acct): Account {
    if a in w.accounts then w.accounts[a] else ZERO_ACCOUNT
  }

  function UsableCapacity(a: Account): int {
    a.balance - a.blocked - a.min
  }

  function GetOrCreate(w: Wallet, a: Acct): Wallet {
    if a in w.accounts then w else w.(accounts := w.accounts[a := ZERO_ACCOUNT])
  }

  function SetBlocked(w: Wallet, a: Acct, blocked: int): Wallet {
    w.(accounts := w.accounts[a := Row(w, a).(blocked := blocked)])
  }

  function SetHold(w: Wallet, k: HoldKey, h: Hold): Wallet {
    w.(holds := w.holds[k := h])
  }

  function ReserveFunds(w0: Wallet, a: Acct, ref: Ref, amount: int): Result<Wallet> {
    var w := GetOrCreate(w0, a);
    var k := HoldKey(ref, a);
    if k in w.holds then
      if w.holds[k].status == Released then Err(AlreadyReleased) else Ok(w)
    else if UsableCapacity(Row(w, a)) < amount then
      Err(InsufficientCredit)
    else
      Ok(SetBlocked(SetHold(w, k, Hold(amount, Reserved)), a, Row(w, a).blocked + amount))
  }

  function ReleaseFunds(w0: Wallet, a: Acct, ref: Ref): Result<Wallet> {
    var w := GetOrCreate(w0, a);
    var k := HoldKey(ref, a);
    if k !in w.holds || w.holds[k].status != Reserved then
      Ok(w)
    else if Row(w, a).blocked - w.holds[k].amount < 0 then
      Err(NegativeBlocked)
    else
      Ok(SetBlocked(SetHold(w, k, w.holds[k].(status := Released)), a, Row(w, a).blocked - w.holds[k].amount))
  }

  function ConsumeFunds(w0: Wallet, a: Acct, ref: Ref): Result<Wallet> {
    var w := GetOrCreate(w0, a);
    var k := HoldKey(ref, a);
    if k !in w.holds || w.holds[k].status == Consumed then
      Ok(w)
    else if w.holds[k].status == Released then
      Err(AlreadyReleased)
    else if Row(w, a).blocked - w.holds[k].amount < 0 then
      Err(NegativeBlocked)
    else
      Ok(SetBlocked(SetHold(w, k, w.holds[k].(status := Consumed)), a, Row(w, a).blocked - w.holds[k].amount))
  }

  /** The postings that carry `ref`, in ledger order. */
  function MovesOf(ledger: seq<Posting>, ref: Ref): seq<Move> {
    if ledger == [] then [] else
      var p := ledger[|ledger| - 1];
      MovesOf(ledger[..|ledger| - 1], ref) + if p.ref == ref then [Move(p.acct, p.delta, p.side)] else []
  }

  /** The unique index on (refType, refId, account, entrySide). */
  predicate Taken(ledger: seq<Posting>, ref: Ref, a: Acct, side: Side) {
    exists m <- MovesOf(ledger, ref) :: m.acct == a && m.side == side
  }

  function ApplyTransaction(w: Wallet, a: Acct, delta: Signed, ref: Ref, reversalOf: Option<nat>): Result<Wallet> {
    if a !in w.accounts then
      Err(NotFound)
    else if w.accounts[a].balance + delta.value < w.accounts[a].blocked + w.accounts[a].min then
      Err(InsufficientCredit)
    else if Taken(w.ledger, ref, a, delta.EntrySide()) then
      Err(DuplicatePosting)
    else
      Ok(w.(accounts := w.accounts[a := w.accounts[a].(balance := w.accounts[a].balance + delta.value)],
            ledger := w.ledger + [Posting(a, delta.value, delta.EntrySide(), ref, reversalOf)]))
  }

  /** Several postings under one reference, in order. */
  function PostAll(w: Wallet, legs: seq<(Acct, Signed)>, ref: Ref): Result<Wallet>
    decreases |legs|
  {
    if legs == [] then Ok(w) else
      var w1 :- ApplyTransaction(w, legs[0].0, legs[0].1, ref, None);
      PostAll(w1, legs[1..], ref)
  }

  function OpenAll(w: Wallet, accounts: seq<Acct>): Wallet
    decreases |accounts|
  {
    if accounts == [] then w else OpenAll(GetOrCreate(w, accounts[0]), accounts[1..])
  }

  /** P2P assignment: a slice of the reservation of `whole` becomes a reservation of `part`.
      The account row is not touched. */
  function SplitHold(w: Wallet, a: Acct, whole: Ref, part: Ref, amount: int): Result<Wallet> {
    var k := HoldKey(whole, a);
    if k !in w.holds then
      Err(ReservationMissing)
    else if w.holds[k].amount < amount then
      Err(ReservationInsufficient)
    else
      Ok(SetHold(SetHold(w, k, w.holds[k].(amount := w.holds[k].amount - amount)),
                 HoldKey(part, a), Hold(amount, w.holds[k].status)))
  }

  /** P2P cancellation and expiry: the reservation of `part` is deleted and `amount` goes back to `whole`. */
  function MergeHold(w: Wallet, a: Acct, whole: Ref, part: Ref, amount: int): Wallet {
    var (k, l) := (HoldKey(whole, a), HoldKey(part, a));
    if l !in w.holds then w else
      var w1 := if k in w.holds then SetHold(w, k, w.holds[k].(amount := w.holds[k].amount + amount)) else w;
      w1.(holds := w1.holds - {l})
  }

  // ---------------------------------------------------------------- what a wallet means

  function MoveOf(a: Acct, delta: Signed): Move {
    Move(a, delta.value, delta.EntrySide())
  }

  function MovesFor(legs: seq<(Acct, Signed)>): (moves: seq<Move>)
    ensures |moves| == |legs|
  {
    seq(|legs|, j requires 0 <= j < |legs| => MoveOf(legs[j].0, legs[j].1))
  }

  function Undone(moves: seq<Move>): (undone: seq<Move>)
    ensures |undone| == |moves|
  {
    seq(|moves|, j requires 0 <= j < |moves| => MoveOf(moves[j].acct, Minus(moves[j].delta)))
  }

  function HoldsOf(holds: map<HoldKey, Hold>, ref: Ref): map<Acct, Hold> {
    map k | k in holds && k.ref == ref :: k.acct := holds[k]
  }

  /** Weight of a reservation in the blocked balance of account `a`. */
  function Blocking(a: Acct): (HoldKey, Hold) -> int {
    (k: HoldKey, h: Hold) => if k.acct == a && h.status == Reserved then h.amount else 0
  }

  function BalanceIn(i: Instrument): (Acct, Account) -> int {
    (a: Acct, row: Account) => if a.instr == i then row.balance else 0
  }

  /** Everything held in one instrument, over all accounts. */
  ghost function Held(w: Wallet, i: Instrument): int {
    Total(w.accounts, BalanceIn(i))
  }

  /** Sum of the deltas recorded on one account. */
  function Posted(ledger: seq<Posting>, a: Acct): int {
    if ledger == [] then 0 else
      var p := ledger[|ledger| - 1];
      Posted(ledger[..|ledger| - 1], a) + if p.acct == a then p.delta else 0
  }

  /** Sum of the external adjustments recorded in one instrument. */
  function Adjusted(ledger: seq<Posting>, i: Instrument): int {
    if ledger == [] then 0 else
      var p := ledger[|ledger| - 1];
      Adjusted(ledger[..|ledger| - 1], i) + if p.ref.Adjustment? && p.acct.instr == i then p.delta else 0
  }

  function Net(moves: seq<Move>, i: Instrument): int {
    if moves == [] then 0 else
      var m := moves[|moves| - 1];
      Net(moves[..|moves| - 1], i) + if m.acct.instr == i then m.delta else 0
  }

  /** The account agrees with its reservations and its postings, and covers what it has promised. */
  ghost predicate AccountSound(w: Wallet, a: Acct) {
    && Row(w, a).blocked == Total(w.holds, Blocking(a))
    && Row(w, a).balance == Posted(w.ledger, a)
    && UsableCapacity(Row(w, a)) >= 0
  }

  ghost predicate Sound(w: Wallet) {
    && (forall k <- w.holds :: k.acct in w.accounts && w.holds[k].amount >= 0)
    && (forall j | 0 <= j < |w.ledger| :: w.ledger[j].acct in w.accounts)
    && (forall a: Acct :: AccountSound(w, a))
  }

  ghost predicate SameFunds(w: Wallet, w': Wallet, ref: Ref) {
    && HoldsOf(w'.holds, ref) == HoldsOf(w.holds, ref)
    && MovesOf(w'.ledger, ref) == MovesOf(w.ledger, ref)
  }

  /** Going from `w` to `w'` keeps the wallet sound, leaves `ref` with exactly the reservations `holds`,
      posts exactly `moved` under `ref`, and touches no other reference. */
  ghost predicate Effect(w: Wallet, w': Wallet, ref: Ref, holds: map<Acct, Hold>, moved: seq<Move>) {
    && Sound(w')
    && HoldsOf(w'.holds, ref) == holds
    && MovesOf(w'.ledger, ref) == MovesOf(w.ledger, ref) + moved
    && w.ledger <= w'.ledger
    && w.accounts.Keys <= w'.accounts.Keys
    && (forall j | |w.ledger| <= j < |w'.ledger| ::
          w'.ledger[j].ref == ref && (w'.ledger[j].reversalOf.Some? ==> ref.Trade?))
    && (forall r | r != ref :: SameFunds(w, w', r))
    && (forall i :: Held(w', i) == Held(w, i) + Net(moved, i))
    && (forall i :: Adjusted(w'.ledger, i) == Adjusted(w.ledger, i) + if ref.Adjustment? then Net(moved, i) else 0)
  }

  // ---------------------------------------------------------------- lemmas

  lemma {:induction false} NetAppend(xs: seq<Move>, ys: seq<Move>, i: Instrument)
    ensures Net(xs + ys, i) == Net(xs, i) + Net(ys, i)
  {
    if ys == [] {
      assert xs + ys == xs;
    } else {
      assert (xs + ys)[..|xs + ys| - 1] == xs + ys[..|ys| - 1];
      NetAppend(xs, ys[..|ys| - 1], i);
    }
  }

  lemma Chain(w: Wallet, w1: Wallet, w2: Wallet, ref: Ref, h1: map<Acct, Hold>, h2: map<Acct, Hold>, m1: seq<Move>,
              m2: seq<Move>)
    requires Effect(w, w1, ref, h1, m1) && Effect(w1, w2, ref, h2, m2)
    ensures Effect(w, w2, ref, h2, m1 + m2)
  {
    hide MovesOf, HoldsOf, Net, Adjusted, Held, Sound;
    forall i ensures Net(m1 + m2, i) == Net(m1, i) + Net(m2, i) {
      NetAppend(m1, m2, i);
    }
    assert MovesOf(w.ledger, ref) + m1 + m2 == MovesOf(w.ledger, ref) + (m1 + m2);
    forall j | |w.ledger| <= j < |w2.ledger|
      ensures w2.ledger[j].ref == ref && (w2.ledger[j].reversalOf.Some? ==> ref.Trade?) {
      if j < |w1.ledger| {
        assert w2.ledger[j] == w1.ledger[j];
      }
    }
    forall r | r != ref ensures SameFunds(w, w2, r) {
      assert SameFunds(w, w1, r) && SameFunds(w1, w2, r);
    }
  }

  /** Writing one account row moves the instrument total by the change of that balance. */
  lemma HeldAfter(w: Wallet, w': Wallet, a: Acct, row: Account)
    requires w'.accounts == w.accounts[a := row]
    ensures forall i :: Held(w', i) == Held(w, i) + if a.instr == i then row.balance - Row(w, a).balance else 0
  {
    forall i ensures Held(w', i) == Held(w, i) + if a.instr == i then row.balance - Row(w, a).balance else 0 {
      SetRow(w.accounts, BalanceIn(i), a, row);
    }
  }

  lemma NetNil()
    ensures forall i :: Net([], i) == 0
  {
  }

  function Part(m: Move, i: Instrument): int {
    if m.acct.instr == i then m.delta else 0
  }

  lemma NetOfTwo(x: Move, y: Move, i: Instrument)
    ensures Net([x, y], i) == Part(x, i) + Part(y, i)
  {
    assert [x, y][..1] == [x] && [x][..0] == [];
    assert Net([x], i) == Part(x, i);
  }

  /** What one reservation row adds to the blocked balance of account `a`. */
  function BlockedBy(w: Wallet, k: HoldKey, a: Acct): int {
    if k in w.holds && k.acct == a && w.holds[k].status == Reserved then w.holds[k].amount else 0
  }

  lemma BlockedAfter(w: Wallet, k: HoldKey, h: Hold, a: Acct)
    ensures Total(w.holds[k := h], Blocking(a))
         == Total(w.holds, Blocking(a)) - BlockedBy(w, k, a) + BlockedBy(SetHold(w, k, h), k, a)
  {
    SetRow(w.holds, Blocking(a), k, h);
  }

  /** The parts of an effect that concern its own reference. */
  lemma EffectSound(w: Wallet, w': Wallet, ref: Ref, holds: map<Acct, Hold>, moved: seq<Move>)
    requires Effect(w, w', ref, holds, moved)
    ensures Sound(w') && HoldsOf(w'.holds, ref) == holds && MovesOf(w'.ledger, ref) == MovesOf(w.ledger, ref) + moved
  {
  }

  lemma NothingPosted(w: Wallet, ref: Ref)
    requires Sound(w)
    ensures Effect(w, w, ref, HoldsOf(w.holds, ref), [])
  {
    hide MovesOf, HoldsOf, Sound, Adjusted, Held, Net;
    NetNil();
    assert MovesOf(w.ledger, ref) + [] == MovesOf(w.ledger, ref);
  }

  lemma PostedOpen(w: Wallet, j: nat)
    requires Sound(w) && j < |w.ledger|
    ensures w.ledger[j].acct in w.accounts
  {
  }

  lemma OpenEffect(w: Wallet, a: Acct, ref: Ref)
    requires Sound(w)
    ensures Effect(w, GetOrCreate(w, a), ref, HoldsOf(w.holds, ref), [])
    ensures Sound(GetOrCreate(w, a))
    ensures forall b :: Row(GetOrCreate(w, a), b) == Row(w, b)
  {
    hide MovesOf, HoldsOf, Posted, Adjusted, Net, Held, Total, Blocking;
    NetNil();
    if a !in w.accounts {
      HeldAfter(w, GetOrCreate(w, a), a, ZERO_ACCOUNT);
    }
    forall b ensures AccountSound(GetOrCreate(w, a), b) {
      assert AccountSound(w, b);
    }
  }

  /** Setting a reservation and the blocked balance of its account together keeps the wallet sound. */
  lemma HoldSound(w: Wallet, w': Wallet, a: Acct, ref: Ref, h: Hold)
    requires Sound(w) && a in w.accounts && h.amount >= 0
    requires var (k, row) := (HoldKey(ref, a), Row(w, a));
             var change := BlockedBy(SetHold(w, k, h), k, a) - BlockedBy(w, k, a);
             && UsableCapacity(row) >= change
             && w'.accounts == w.accounts[a := row.(blocked := row.blocked + change)]
    requires w'.holds == w.holds[HoldKey(ref, a) := h] && w'.ledger == w.ledger
    ensures Sound(w')
  {
    hide Posted, Total, Blocking;
    var k := HoldKey(ref, a);
    RowsAfter(w, w', a, w'.accounts[a]);
    forall b ensures AccountSound(w', b) {
      assert AccountSound(w, b);
      BlockedAfter(w, k, h, b);
    }
  }

  lemma HoldEffect(w: Wallet, a: Acct, ref: Ref, h: Hold)
    requires Sound(w) && a in w.accounts && h.amount >= 0
    requires var k := HoldKey(ref, a);
             UsableCapacity(Row(w, a)) >= BlockedBy(SetHold(w, k, h), k, a) - BlockedBy(w, k, a)
    ensures var k := HoldKey(ref, a);
            var w1 := SetHold(w, k, h);
            var b := Row(w, a).blocked + BlockedBy(w1, k, a) - BlockedBy(w, k, a);
            Effect(w, SetBlocked(w1, a, b), ref, HoldsOf(w.holds, ref)[a := h], [])
  {
    hide Sound, MovesOf, HoldsOf, Adjusted, Net, Held, BlockedBy, UsableCapacity;
    var k := HoldKey(ref, a);
    var w1 := SetHold(w, k, h);
    var w' := SetBlocked(w1, a, Row(w, a).blocked + BlockedBy(w1, k, a) - BlockedBy(w, k, a));
    HoldSound(w, w', a, ref, h);
    NetNil();
    HeldAfter(w, w', a, w'.accounts[a]);
    HoldsOfSet(w.holds, k, h);
    assert MovesOf(w.ledger, ref) + [] == MovesOf(w.ledger, ref);
  }

  lemma HoldsOfSet(holds: map<HoldKey, Hold>, k: HoldKey, h: Hold)
    ensures HoldsOf(holds[k := h], k.ref) == HoldsOf(holds, k.ref)[k.acct := h]
    ensures forall r | r != k.ref :: HoldsOf(holds[k := h], r) == HoldsOf(holds, r)
  {
  }

  /** Blocked funds cover every single reservation that is still held. */
  lemma BlockedCovers(w: Wallet, k: HoldKey)
    requires Sound(w) && k in w.holds && w.holds[k].status == Reserved
    ensures 0 <= w.holds[k].amount <= Row(w, k.acct).blocked
  {
    assert AccountSound(w, k.acct);
    Bounds(w.holds, Blocking(k.acct), k);
  }

  lemma ReserveOpened(w: Wallet, a: Acct, ref: Ref, amount: int)
    requires Sound(w) && a in w.accounts && amount >= 0 && HoldKey(ref, a) !in w.holds
    requires UsableCapacity(Row(w, a)) >= amount
    ensures Effect(w, SetBlocked(SetHold(w, HoldKey(ref, a), Hold(amount, Reserved)), a, Row(w, a).blocked + amount),
                   ref,
                   HoldsOf(w.holds, ref)[a := Hold(amount, Reserved)], [])
  {
    hide Effect, Sound, HoldsOf;
    HoldEffect(w, a, ref, Hold(amount, Reserved));
  }

  lemma ReserveEffect(w: Wallet, a: Acct, ref: Ref, amount: int)
    requires Sound(w) && amount >= 0 && HoldKey(ref, a) !in w.holds
    requires ReserveFunds(w, a, ref, amount).Ok?
    ensures Effect(w, ReserveFunds(w, a, ref, amount).value, ref, HoldsOf(w.holds, ref)[a := Hold(amount, Reserved)],
                   [])
  {
    hide Effect, Sound, HoldsOf, MovesOf, UsableCapacity, SetHold, SetBlocked;
    var w1 := GetOrCreate(w, a);
    OpenEffect(w, a, ref);
    ReserveOpened(w1, a, ref, amount);
    var none: seq<Move> := [];
    assert none + none == none;
    Chain(w, w1, ReserveFunds(w, a, ref, amount).value, ref, HoldsOf(w.holds, ref),
          HoldsOf(w.holds, ref)[a := Hold(amount, Reserved)], none, none);
  }

  /** Releasing a held reservation never meets the negative-blocked guard. */
  lemma ReleaseEffect(w: Wallet, a: Acct, ref: Ref)
    requires Sound(w) && HoldKey(ref, a) in w.holds && w.holds[HoldKey(ref, a)].status == Reserved
    ensures ReleaseFunds(w, a, ref).Ok?
    ensures Effect(w, ReleaseFunds(w, a, ref).value, ref,
                   HoldsOf(w.holds, ref)[a := Hold(w.holds[HoldKey(ref, a)].amount, Released)], [])
  {
    hide Effect, HoldsOf, MovesOf, Total, Posted;
    BlockedCovers(w, HoldKey(ref, a));
    assert AccountSound(w, a);
    HoldEffect(w, a, ref, w.holds[HoldKey(ref, a)].(status := Released));
  }

  /** Nor does consuming one, and what it frees is usable at once. */
  lemma ConsumeEffect(w: Wallet, a: Acct, ref: Ref)
    requires Sound(w) && HoldKey(ref, a) in w.holds && w.holds[HoldKey(ref, a)].status == Reserved
    ensures ConsumeFunds(w, a, ref).Ok?
    ensures var amount := w.holds[HoldKey(ref, a)].amount;
            var w' := ConsumeFunds(w, a, ref).value;
            && Effect(w, w', ref, HoldsOf(w.holds, ref)[a := Hold(amount, Consumed)], [])
            && w'.ledger == w.ledger
            && Row(w', a) == Row(w, a).(blocked := Row(w, a).blocked - amount)
            && UsableCapacity(Row(w', a)) >= amount
            && forall b | b != a :: Row(w', b) == Row(w, b)
  {
    hide Effect, HoldsOf, MovesOf, Total, Posted;
    BlockedCovers(w, HoldKey(ref, a));
    assert AccountSound(w, a);
    HoldEffect(w, a, ref, w.holds[HoldKey(ref, a)].(status := Consumed));
  }

  /** What one more posting adds to the books. */
  lemma LedgerNext(ledger: seq<Posting>, p: Posting)
    ensures forall a :: Posted(ledger + [p], a) == Posted(ledger, a) + if p.acct == a then p.delta else 0
    ensures forall r ::
            MovesOf(ledger + [p], r) == MovesOf(ledger, r) + if p.ref == r then [Move(p.acct, p.delta, p.side)] else []
    ensures forall i ::
            Adjusted(ledger + [p], i) == Adjusted(ledger, i) +
            if p.ref.Adjustment? && p.acct.instr == i then p.delta else 0
  {
    assert (ledger + [p])[..|ledger|] == ledger;
  }

  /** What a successful posting writes. */
  lemma ApplyWrites(w: Wallet, a: Acct, delta: Signed, ref: Ref, reversalOf: Option<nat>)
    requires ApplyTransaction(w, a, delta, ref, reversalOf).Ok?
    ensures a in w.accounts
    ensures var (w', row) := (ApplyTransaction(w, a, delta, ref, reversalOf).value, w.accounts[a]);
            && w'.accounts == w.accounts[a := row.(balance := row.balance + delta.value)]
            && w'.holds == w.holds
            && w'.ledger == w.ledger + [Posting(a, delta.value, delta.EntrySide(), ref, reversalOf)]
            && row.balance + delta.value >= row.blocked + row.min
  {
    hide Taken;
  }

  lemma RowsAfter(w: Wallet, w': Wallet, a: Acct, row: Account)
    requires w'.accounts == w.accounts[a := row]
    ensures Row(w', a) == row && forall b | b != a :: Row(w', b) == Row(w, b)
  {
  }

  /** A posting that leaves an account covered keeps the wallet sound. */
  lemma PostingSound(w: Wallet, w': Wallet, p: Posting)
    requires Sound(w) && p.acct in w.accounts
    requires var row := w.accounts[p.acct];
             && w'.accounts == w.accounts[p.acct := row.(balance := row.balance + p.delta)]
             && row.balance + p.delta >= row.blocked + row.min
    requires w'.holds == w.holds && w'.ledger == w.ledger + [p]
    ensures Sound(w')
  {
    hide Posted, Total, Blocking;
    LedgerNext(w.ledger, p);
    RowsAfter(w, w', p.acct, w'.accounts[p.acct]);
    forall b ensures AccountSound(w', b) {
      assert AccountSound(w, b);
    }
  }

  lemma NetOfOne(m: Move)
    ensures forall i :: Net([m], i) == if m.acct.instr == i then m.delta else 0
  {
    assert [m][..0] == [];
  }

  lemma ApplyEffect(w: Wallet, a: Acct, delta: Signed, ref: Ref, reversalOf: Option<nat>)
    requires Sound(w) && ApplyTransaction(w, a, delta, ref, reversalOf).Ok? && (reversalOf.Some? ==> ref.Trade?)
    ensures var w' := ApplyTransaction(w, a, delta, ref, reversalOf).value;
            && Effect(w, w', ref, HoldsOf(w.holds, ref), [Move(a, delta.value, delta.EntrySide())])
            && Row(w', a) == Row(w, a).(balance := Row(w, a).balance + delta.value)
            && forall b | b != a :: Row(w', b) == Row(w, b)
  {
    hide ApplyTransaction, Sound, Posted, MovesOf, Adjusted, Held, HoldsOf, Net;
    var w' := ApplyTransaction(w, a, delta, ref, reversalOf).value;
    var p := Posting(a, delta.value, delta.EntrySide(), ref, reversalOf);
    ApplyWrites(w, a, delta, ref, reversalOf);
    PostingSound(w, w', p);
    LedgerNext(w.ledger, p);
    RowsAfter(w, w', a, w'.accounts[a]);
    HeldAfter(w, w', a, w'.accounts[a]);
    NetOfOne(Move(p.acct, p.delta, p.side));
    forall r | r != ref ensures SameFunds(w, w', r) {
      assert MovesOf(w.ledger, r) + [] == MovesOf(w.ledger, r);
    }
  }

  /** The first reservation of a reference. */
  lemma ReserveFresh(w: Wallet, a: Acct, ref: Ref, amount: int)
    requires Sound(w) && amount >= 0 && HoldsOf(w.holds, ref) == map[]
    requires ReserveFunds(w, a, ref, amount).Ok?
    ensures Effect(w, ReserveFunds(w, a, ref, amount).value, ref, map[a := Hold(amount, Reserved)], [])
    ensures ReserveFunds(w, a, ref, amount).value.ledger == w.ledger
  {
    hide Effect, Sound, HoldsOf;
    HoldsRead(w.holds, ref);
    assert a !in HoldsOf(w.holds, ref);
    ReserveEffect(w, a, ref, amount);
  }

  /** The same, for a reference whose only reservation is on `a`. */
  lemma ConsumeHeld(w: Wallet, a: Acct, ref: Ref, amount: int)
    requires Sound(w) && HoldsOf(w.holds, ref) == map[a := Hold(amount, Reserved)]
    ensures ConsumeFunds(w, a, ref).Ok?
    ensures var w' := ConsumeFunds(w, a, ref).value;
            && Effect(w, w', ref, map[a := Hold(amount, Consumed)], [])
            && Sound(w') && w'.ledger == w.ledger && a in w'.accounts && w'.accounts.Keys == w.accounts.Keys
            && HoldsOf(w'.holds, ref) == map[a := Hold(amount, Consumed)]
            && UsableCapacity(Row(w', a)) == UsableCapacity(Row(w, a)) + amount >= amount
            && forall b | b != a :: Row(w', b) == Row(w, b)
  {
    hide HoldsOf, MovesOf, Total, Posted, Adjusted, Held;
    HoldsRead(w.holds, ref);
    assert a in HoldsOf(w.holds, ref);
    ConsumeEffect(w, a, ref);
    assert AccountSound(w, a);
  }

  lemma ReleaseHeld(w: Wallet, a: Acct, ref: Ref, amount: int)
    requires Sound(w) && HoldsOf(w.holds, ref) == map[a := Hold(amount, Reserved)]
    ensures ReleaseFunds(w, a, ref).Ok?
    ensures Effect(w, ReleaseFunds(w, a, ref).value, ref, map[a := Hold(amount, Released)], [])
    ensures ReleaseFunds(w, a, ref).value.ledger == w.ledger
  {
    hide HoldsOf, MovesOf, Total, Posted, Adjusted, Held;
    HoldsRead(w.holds, ref);
    assert a in HoldsOf(w.holds, ref);
    ReleaseEffect(w, a, ref);
  }

  lemma ReleaseAgain(w: Wallet, a: Acct, ref: Ref, amount: int)
    requires Sound(w) && HoldsOf(w.holds, ref) == map[a := Hold(amount, Released)]
    ensures ReleaseFunds(w, a, ref) == Ok(w)
    ensures Effect(w, w, ref, HoldsOf(w.holds, ref), [])
  {
    hide HoldsOf, MovesOf, Total, Posted, Adjusted, Held;
    HoldsRead(w.holds, ref);
    assert a in HoldsOf(w.holds, ref);
    OpenEffect(w, a, ref);
  }

  /** Posting after another step under the same reference. */
  lemma ApplyAfter(w: Wallet, w1: Wallet, a: Acct, delta: Signed, ref: Ref, holds: map<Acct, Hold>, moved: seq<Move>)
    requires Effect(w, w1, ref, holds, moved) && ApplyTransaction(w1, a, delta, ref, None).Ok?
    ensures var w2 := ApplyTransaction(w1, a, delta, ref, None).value;
            && Effect(w, w2, ref, holds, moved + [Move(a, delta.value, delta.EntrySide())])
            && Row(w2, a) == Row(w1, a).(balance := Row(w1, a).balance + delta.value)
            && (forall b | b != a :: Row(w2, b) == Row(w1, b))
            && w2.accounts.Keys == w1.accounts.Keys
            && (forall j | |w1.ledger| <= j < |w2.ledger| :: w2.ledger[j].reversalOf.None?)
            && w2.ledger[..|w1.ledger|] == w1.ledger && |w2.ledger| == |w1.ledger| + 1
            && w2.ledger[|w1.ledger|].acct == a
  {
    var w2 := ApplyTransaction(w1, a, delta, ref, None).value;
    hide Effect, HoldsOf, MovesOf, Sound, ApplyTransaction, Row;
    EffectSound(w, w1, ref, holds, moved);
    ApplyEffect(w1, a, delta, ref, None);
    ApplyWrites(w1, a, delta, ref, None);
    Chain(w, w1, w2, ref, holds, holds, moved, [Move(a, delta.value, delta.EntrySide())]);
  }

  /** Posting on an account that may have to be opened first. */
  lemma OpenAndApply(w: Wallet, a: Acct, delta: Signed, ref: Ref)
    requires Sound(w) && ApplyTransaction(GetOrCreate(w, a), a, delta, ref, None).Ok?
    ensures var w' := ApplyTransaction(GetOrCreate(w, a), a, delta, ref, None).value;
            && Effect(w, w', ref, HoldsOf(w.holds, ref), [Move(a, delta.value, delta.EntrySide())])
            && |w'.ledger| == |w.ledger| + 1 && w.ledger <= w'.ledger && w'.ledger[|w.ledger|].acct == a
            && w'.ledger[|w.ledger|].reversalOf.None?
  {
    hide Effect, HoldsOf, MovesOf, Sound;
    OpenEffect(w, a, ref);
    var w1 := GetOrCreate(w, a);
    ApplyAfter(w, w1, a, delta, ref, HoldsOf(w.holds, ref), []);
    var none: seq<Move> := [];
    assert none + [Move(a, delta.value, delta.EntrySide())] == [Move(a, delta.value, delta.EntrySide())];
  }

  ghost predicate Forward(ledger: seq<Posting>, ledger': seq<Posting>) {
    ledger <= ledger' && forall j | |ledger| <= j < |ledger'| :: ledger'[j].reversalOf.None?
  }

  /** What `PostAll` posts after another step under the same reference. */
  lemma {:induction false} PostAllAfter(w: Wallet, w1: Wallet, legs: seq<(Acct, Signed)>, ref: Ref,
                                        holds: map<Acct, Hold>, moved: seq<Move>)
    requires Effect(w, w1, ref, holds, moved) && PostAll(w1, legs, ref).Ok?
    ensures Effect(w, PostAll(w1, legs, ref).value, ref, holds, moved + MovesFor(legs))
    ensures Forward(w1.ledger, PostAll(w1, legs, ref).value.ledger)
    ensures |PostAll(w1, legs, ref).value.ledger| == |w1.ledger| + |legs|
    decreases |legs|
  {
    hide Effect, ApplyTransaction;
    if legs == [] {
      assert moved + MovesFor(legs) == moved;
    } else {
      var w2 := ApplyTransaction(w1, legs[0].0, legs[0].1, ref, None).value;
      ApplyAfter(w, w1, legs[0].0, legs[0].1, ref, holds, moved);
      PostAllAfter(w, w2, legs[1..], ref, holds, moved + [MoveOf(legs[0].0, legs[0].1)]);
      assert moved + [MoveOf(legs[0].0, legs[0].1)] + MovesFor(legs[1..]) == moved + MovesFor(legs);
    }
  }

  lemma {:induction false} OpenAllAfter(w: Wallet, w1: Wallet, accounts: seq<Acct>, ref: Ref, holds: map<Acct, Hold>,
                                        moved: seq<Move>)
    requires Effect(w, w1, ref, holds, moved)
    ensures Effect(w, OpenAll(w1, accounts), ref, holds, moved)
    ensures OpenAll(w1, accounts).ledger == w1.ledger
    ensures forall b :: Row(OpenAll(w1, accounts), b) == Row(w1, b)
    ensures forall a <- accounts :: a in OpenAll(w1, accounts).accounts
    ensures w1.accounts.Keys <= OpenAll(w1, accounts).accounts.Keys
    decreases |accounts|
  {
    hide Effect, Row;
    if accounts != [] {
      OpenAfter(w, w1, accounts[0], ref, holds, moved);
      OpenAllAfter(w, GetOrCreate(w1, accounts[0]), accounts[1..], ref, holds, moved);
      assert accounts == [accounts[0]] + accounts[1..];
    }
  }

  lemma OpenAfter(w: Wallet, w1: Wallet, a: Acct, ref: Ref, holds: map<Acct, Hold>, moved: seq<Move>)
    requires Effect(w, w1, ref, holds, moved)
    ensures Effect(w, GetOrCreate(w1, a), ref, holds, moved)
    ensures GetOrCreate(w1, a).ledger == w1.ledger
    ensures forall b :: Row(GetOrCreate(w1, a), b) == Row(w1, b)
  {
    assert Sound(w1) && HoldsOf(w1.holds, ref) == holds;
    hide Effect, Sound, HoldsOf, MovesOf;
    OpenEffect(w1, a, ref);
    var none: seq<Move> := [];
    Chain(w, w1, GetOrCreate(w1, a), ref, holds, holds, moved, none);
    assert moved + none == moved;
  }

  /** The reservation guarantee: in a sound wallet a reservation that is still held can be consumed and its
      amount debited, whatever else the wallet went through since it was made. */
  lemma ReservationPays(w: Wallet, a: Acct, ref: Ref, amount: int)
    requires Sound(w) && amount >= 0 && HoldsOf(w.holds, ref) == map[a := Hold(amount, Reserved)]
    requires !Taken(w.ledger, ref, a, Debit)
    ensures ConsumeFunds(w, a, ref).Ok?
    ensures var w1 := ConsumeFunds(w, a, ref).value;
            && w1.ledger == w.ledger && UsableCapacity(Row(w1, a)) >= amount
            && ApplyTransaction(w1, a, Minus(amount), ref, None).Ok?
            && var w2 := ApplyTransaction(w1, a, Minus(amount), ref, None).value;
               && Effect(w, w2, ref, map[a := Hold(amount, Consumed)], [Move(a, -amount, Debit)])
               && w2.accounts.Keys == w.accounts.Keys && a in w.accounts
               && |w2.ledger| == |w.ledger| + 1 && w.ledger <= w2.ledger
               && w2.ledger[|w.ledger|].reversalOf.None? && w2.ledger[|w.ledger|].acct == a
               && (forall b | b != a :: Row(w2, b) == Row(w, b))
               && UsableCapacity(Row(w2, a)) == UsableCapacity(Row(w, a))
  {
    hide Effect, HoldsOf, MovesOf, Sound;
    ConsumeHeld(w, a, ref, amount);
    var w1 := ConsumeFunds(w, a, ref).value;
    ApplyAfter(w, w1, a, Minus(amount), ref, map[a := Hold(amount, Consumed)], []);
    var none: seq<Move> := [];
    assert none + [Move(a, -amount, Debit)] == [Move(a, -amount, Debit)];
  }

  // ---------------------------------------------------------------- when a series of postings goes through

  /** What `legs` post on one account. */
  function On(legs: seq<(Acct, Signed)>, a: Acct): int
    decreases |legs|
  {
    if legs == [] then 0 else (if legs[0].0 == a then legs[0].1.value else 0) + On(legs[1..], a)
  }

  /** All at once: every account can afford what has been posted on it so far, and no two postings
      fall on the same side of the same account. */
  ghost predicate Payable(w: Wallet, legs: seq<(Acct, Signed)>, ref: Ref) {
    && (forall k | 0 <= k < |legs| ::
          && UsableCapacity(Row(w, legs[k].0)) + On(legs[..k + 1], legs[k].0) >= 0
          && !Taken(w.ledger, ref, legs[k].0, legs[k].1.EntrySide()))
    && (forall j, k | 0 <= j < k < |legs| :: legs[j].0 != legs[k].0 || legs[j].1.EntrySide() != legs[k].1.EntrySide())
  }

  lemma {:induction false} OnNext(legs: seq<(Acct, Signed)>, k: nat, a: Acct)
    requires k < |legs|
    ensures On(legs[..k + 1], a) == On(legs[..k], a) + if legs[k].0 == a then legs[k].1.value else 0
    decreases k
  {
    assert legs[..k + 1][1..] == legs[1..][..k];
    if k > 0 {
      assert legs[..k][1..] == legs[1..][..k - 1];
      OnNext(legs[1..], k - 1, a);
    } else {
      assert legs[..1][1..] == [];
    }
  }

  lemma OnTwo(legs: seq<(Acct, Signed)>)
    requires |legs| == 2
    ensures On(legs[..1], legs[0].0) == legs[0].1.value
    ensures On(legs[..2], legs[1].0) == (if legs[0].0 == legs[1].0 then legs[0].1.value else 0) + legs[1].1.value
  {
    OnNext(legs, 0, legs[0].0);
    OnNext(legs, 0, legs[1].0);
    OnNext(legs, 1, legs[1].0);
  }

  lemma TakenAfter(ledger: seq<Posting>, p: Posting, ref: Ref, a: Acct, side: Side)
    ensures Taken(ledger + [p], ref, a, side)
       <==> Taken(ledger, ref, a, side) || (p.ref == ref && p.acct == a && p.side == side)
  {
    assert (ledger + [p])[..|ledger|] == ledger;
    var moves := MovesOf(ledger, ref);
    if p.ref == ref {
      assert (moves + [Move(p.acct, p.delta, p.side)])[|moves|] == Move(p.acct, p.delta, p.side);
    }
  }

  /** Leg `k` of the rest, after the first posting, meets the same conditions as leg `k + 1` of the whole. */
  ghost predicate RestAt(w: Wallet, w1: Wallet, legs: seq<(Acct, Signed)>, ref: Ref, k: nat)
    requires k + 1 < |legs|
  {
    && UsableCapacity(Row(w1, legs[k + 1].0)) + On(legs[1..][..k + 1], legs[k + 1].0)
       == UsableCapacity(Row(w, legs[k + 1].0)) + On(legs[..k + 2], legs[k + 1].0)
    && (Taken(w1.ledger, ref, legs[k + 1].0, legs[k + 1].1.EntrySide())
        <==> Taken(w.ledger, ref, legs[k + 1].0, legs[k + 1].1.EntrySide())
             || (legs[0].0 == legs[k + 1].0 && legs[0].1.EntrySide() == legs[k + 1].1.EntrySide()))
  }

  lemma RestHolds(w: Wallet, w1: Wallet, legs: seq<(Acct, Signed)>, ref: Ref, p: Posting, k: nat)
    requires k + 1 < |legs| && p.acct == legs[0].0 && p.ref == ref && p.side == legs[0].1.EntrySide()
    requires w1.ledger == w.ledger + [p]
    requires Row(w1, legs[0].0) == Row(w, legs[0].0).(balance := Row(w, legs[0].0).balance + legs[0].1.value)
    requires forall b | b != legs[0].0 :: Row(w1, b) == Row(w, b)
    ensures RestAt(w, w1, legs, ref, k)
  {
    hide Taken, MovesOf, Row;
    assert legs[..k + 2][1..] == legs[1..][..k + 1];
    TakenAfter(w.ledger, p, ref, legs[k + 1].0, legs[k + 1].1.EntrySide());
  }

  /** The rest is payable after the first posting exactly when the whole was payable before it. */
  lemma PayableRest(w: Wallet, w1: Wallet, legs: seq<(Acct, Signed)>, ref: Ref)
    requires legs != [] && UsableCapacity(Row(w, legs[0].0)) + legs[0].1.value >= 0
    requires !Taken(w.ledger, ref, legs[0].0, legs[0].1.EntrySide())
    requires forall k: nat | k + 1 < |legs| :: RestAt(w, w1, legs, ref, k)
    ensures Payable(w1, legs[1..], ref) <==> Payable(w, legs, ref)
  {
    hide Taken, MovesOf, Row, UsableCapacity;
    var rest := legs[1..];
    assert On(legs[..1], legs[0].0) == legs[0].1.value by {
      assert legs[..1][1..] == [];
    }
    if Payable(w, legs, ref) {
      forall k | 0 <= k < |rest|
        ensures UsableCapacity(Row(w1, rest[k].0)) + On(rest[..k + 1], rest[k].0) >= 0
        ensures !Taken(w1.ledger, ref, rest[k].0, rest[k].1.EntrySide())
      {
        assert RestAt(w, w1, legs, ref, k);
        assert legs[0].0 != legs[k + 1].0 || legs[0].1.EntrySide() != legs[k + 1].1.EntrySide();
      }
    }
    if Payable(w1, rest, ref) {
      PayableWhole(w, w1, legs, ref);
    }
  }

  lemma PayableWhole(w: Wallet, w1: Wallet, legs: seq<(Acct, Signed)>, ref: Ref)
    requires legs != [] && UsableCapacity(Row(w, legs[0].0)) + legs[0].1.value >= 0
    requires !Taken(w.ledger, ref, legs[0].0, legs[0].1.EntrySide())
    requires forall k: nat | k + 1 < |legs| :: RestAt(w, w1, legs, ref, k)
    requires Payable(w1, legs[1..], ref)
    ensures Payable(w, legs, ref)
  {
    hide Taken, MovesOf, Row, UsableCapacity;
    var rest := legs[1..];
    assert On(legs[..1], legs[0].0) == legs[0].1.value by {
      assert legs[..1][1..] == [];
    }
    forall k | 0 <= k < |legs|
      ensures UsableCapacity(Row(w, legs[k].0)) + On(legs[..k + 1], legs[k].0) >= 0
      ensures !Taken(w.ledger, ref, legs[k].0, legs[k].1.EntrySide())
    {
      if k > 0 {
        assert RestAt(w, w1, legs, ref, k - 1);
        assert rest[k - 1] == legs[k];
      }
    }
    forall j, k | 0 <= j < k < |legs|
      ensures legs[j].0 != legs[k].0 || legs[j].1.EntrySide() != legs[k].1.EntrySide()
    {
      assert RestAt(w, w1, legs, ref, k - 1);
      assert rest[k - 1] == legs[k];
      if j > 0 {
        assert rest[j - 1] == legs[j];
      }
    }
  }

  /** Posting one after the other succeeds exactly when the legs are payable all at once. */
  lemma {:induction false} PostAllIff(w: Wallet, legs: seq<(Acct, Signed)>, ref: Ref)
    requires Sound(w) && forall k | 0 <= k < |legs| :: legs[k].0 in w.accounts
    ensures PostAll(w, legs, ref).Ok? <==> Payable(w, legs, ref)
    decreases |legs|
  {
    if legs != [] {
      hide Sound, HoldsOf, MovesOf, Effect, Taken, Payable;
      var (a, d) := legs[0];
      if ApplyTransaction(w, a, d, ref, None).Ok? {
        var w1 := ApplyTransaction(w, a, d, ref, None).value;
        SoundAfter(w, a, d, ref, None);
        forall k: nat | k + 1 < |legs| ensures RestAt(w, w1, legs, ref, k) {
          RestHolds(w, w1, legs, ref, w1.ledger[|w.ledger|], k);
        }
        PayableRest(w, w1, legs, ref);
        PostAllIff(w1, legs[1..], ref);
      } else if Payable(w, legs, ref) {
        NotPayable(w, legs, ref);
        assert false;
      }
    }
  }

  lemma SoundAfter(w: Wallet, a: Acct, d: Signed, ref: Ref, reversalOf: Option<nat>)
    requires Sound(w) && ApplyTransaction(w, a, d, ref, reversalOf).Ok? && (reversalOf.Some? ==> ref.Trade?)
    ensures Sound(ApplyTransaction(w, a, d, ref, reversalOf).value)
  {
    hide HoldsOf, MovesOf, Held, Adjusted, Taken;
    ApplyEffect(w, a, d, ref, reversalOf);
  }

  lemma NotPayable(w: Wallet, legs: seq<(Acct, Signed)>, ref: Ref)
    requires legs != [] && Payable(w, legs, ref)
    ensures UsableCapacity(Row(w, legs[0].0)) + legs[0].1.value >= 0
    ensures !Taken(w.ledger, ref, legs[0].0, legs[0].1.EntrySide())
  {
    hide Taken;
    assert legs[..1][1..] == [];
    assert legs[..0 + 1] == legs[..1];
    assert On(legs[..1], legs[0].0) == legs[0].1.value;
  }

  lemma BlockedTwo(w: Wallet, w': Wallet, k: HoldKey, l: HoldKey, b: Acct)
    requires k != l && k.acct == l.acct
    requires forall j | j != k && j != l ::
             (j in w.holds <==> j in w'.holds) && (j in w.holds ==> w.holds[j] == w'.holds[j])
    requires BlockedBy(w', k, k.acct) + BlockedBy(w', l, k.acct) == BlockedBy(w, k, k.acct) + BlockedBy(w, l, k.acct)
    ensures Total(w'.holds, Blocking(b)) == Total(w.holds, Blocking(b))
  {
    hide Total;
    ChangeTwo(w.holds, w'.holds, Blocking(b), k, l);
  }

  /** Rows of two references on one account change, and what they block together does not. */
  lemma BlockedKept(w: Wallet, w': Wallet, a: Acct, whole: Ref, part: Ref)
    requires Sound(w) && whole != part && w'.accounts == w.accounts && w'.ledger == w.ledger && a in w.accounts
    requires var (k, l) := (HoldKey(whole, a), HoldKey(part, a));
             && (forall j | j != k && j != l ::
                 (j in w.holds <==> j in w'.holds) && (j in w.holds ==> w.holds[j] == w'.holds[j]))
             && BlockedBy(w', k, a) + BlockedBy(w', l, a) == BlockedBy(w, k, a) + BlockedBy(w, l, a)
             && (k in w'.holds ==> w'.holds[k].amount >= 0) && (l in w'.holds ==> w'.holds[l].amount >= 0)
    ensures Sound(w')
  {
    hide Total, Posted, Blocking, BlockedBy;
    var (k, l) := (HoldKey(whole, a), HoldKey(part, a));
    forall b ensures AccountSound(w', b) {
      assert AccountSound(w, b);
      BlockedTwo(w, w', k, l, b);
    }
    forall j <- w'.holds ensures j.acct in w'.accounts && w'.holds[j].amount >= 0 {
      if j != k && j != l {
        assert j in w.holds && w.holds[j] == w'.holds[j];
      }
    }
  }

  /** `HoldsOf` reads the rows of its reference. */
  lemma HoldsRead(holds: map<HoldKey, Hold>, ref: Ref)
    ensures forall a :: a in HoldsOf(holds, ref) <==> HoldKey(ref, a) in holds
    ensures forall a <- HoldsOf(holds, ref) :: HoldsOf(holds, ref)[a] == holds[HoldKey(ref, a)]
  {
  }

  lemma HoldsOfCut(holds: map<HoldKey, Hold>, k: HoldKey)
    ensures HoldsOf(holds - {k}, k.ref) == HoldsOf(holds, k.ref) - {k.acct}
    ensures forall r | r != k.ref :: HoldsOf(holds - {k}, r) == HoldsOf(holds, r)
  {
    hide HoldsOf;
    forall r ensures HoldsOf(holds - {k}, r) == if r == k.ref then HoldsOf(holds, r) - {k.acct} else HoldsOf(holds, r) {
      HoldsRead(holds, r);
      HoldsRead(holds - {k}, r);
    }
  }

  lemma SplitHoldEffect(w: Wallet, a: Acct, whole: Ref, part: Ref, amount: int, held: Hold)
    requires Sound(w) && whole != part && 0 <= amount <= held.amount
    requires HoldsOf(w.holds, whole) == map[a := held] && HoldsOf(w.holds, part) == map[]
    ensures SplitHold(w, a, whole, part, amount).Ok?
    ensures var w' := SplitHold(w, a, whole, part, amount).value;
            && Sound(w') && w'.accounts == w.accounts && w'.ledger == w.ledger
            && HoldsOf(w'.holds, whole) == map[a := held.(amount := held.amount - amount)]
            && HoldsOf(w'.holds, part) == map[a := held.(amount := amount)]
            && forall r | r != whole && r != part :: SameFunds(w, w', r)
  {
    hide HoldsOf, MovesOf, Sound;
    HoldsRead(w.holds, whole);
    HoldsRead(w.holds, part);
    assert a in HoldsOf(w.holds, whole);
    var w' := SplitHold(w, a, whole, part, amount).value;
    var (k, l) := (HoldKey(whole, a), HoldKey(part, a));
    HoldsOfSet(w.holds, k, w'.holds[k]);
    HoldsOfSet(w.holds[k := w'.holds[k]], l, w'.holds[l]);
    assert a in w.accounts by {
      AccountOpen(w, k);
    }
    BlockedKept(w, w', a, whole, part);
  }

  lemma AccountOpen(w: Wallet, k: HoldKey)
    requires Sound(w) && k in w.holds
    ensures k.acct in w.accounts && w.holds[k].amount >= 0
  {
  }

  /** A slice that is given back is gone, whether or not what it was cut off is still there; only these two are
      touched. */
  lemma MergeHoldFrees(w: Wallet, a: Acct, whole: Ref, part: Ref, amount: int)
    ensures var w' := MergeHold(w, a, whole, part, amount);
            && w'.holds.Keys == w.holds.Keys - {HoldKey(part, a)}
            && forall k <- w'.holds | k != HoldKey(whole, a) :: w'.holds[k] == w.holds[k]
  {
  }

  lemma MergeHoldEffect(w: Wallet, a: Acct, whole: Ref, part: Ref, amount: int, held: Hold)
    requires Sound(w) && whole != part && amount >= 0
    requires HoldsOf(w.holds, whole) == map[a := held] && HoldsOf(w.holds, part) == map[a := held.(amount := amount)]
    ensures var w' := MergeHold(w, a, whole, part, amount);
            && Sound(w') && w'.accounts == w.accounts && w'.ledger == w.ledger
            && HoldsOf(w'.holds, whole) == map[a := held.(amount := held.amount + amount)]
            && HoldsOf(w'.holds, part) == map[]
            && forall r | r != whole && r != part :: SameFunds(w, w', r)
  {
    hide HoldsOf, MovesOf, Sound;
    HoldsRead(w.holds, whole);
    HoldsRead(w.holds, part);
    assert a in HoldsOf(w.holds, whole) && a in HoldsOf(w.holds, part);
    var w' := MergeHold(w, a, whole, part, amount);
    var (k, l) := (HoldKey(whole, a), HoldKey(part, a));
    HoldsOfSet(w.holds, k, w'.holds[k]);
    HoldsOfCut(w.holds[k := w'.holds[k]], l);
    AccountOpen(w, k);
    BlockedKept(w, w', a, whole, part);
  }

  function TransferLegs(from: Acct, to: Acct, amount: int): seq<(Acct, Signed)> {
    [(from, Minus(amount)), (to, Plus(amount))]
  }

  /** The guarantee again, for a transfer: once the sender's funds are held, nothing keeps it from going through,
      not even a receiver who is the sender. */
  lemma TransferPays(w: Wallet, from: Acct, to: Acct, amount: int, ref: Ref)
    requires Sound(w) && amount > 0
    requires HoldsOf(w.holds, ref) == map[from := Hold(amount, Reserved)] && MovesOf(w.ledger, ref) == []
    ensures ConsumeFunds(w, from, ref).Ok?
    ensures var w2 := OpenAll(ConsumeFunds(w, from, ref).value, [from, to]);
            var legs := TransferLegs(from, to, amount);
            && w2.ledger == w.ledger
            && PostAll(w2, legs, ref).Ok?
            && Effect(w, PostAll(w2, legs, ref).value, ref, map[from := Hold(amount, Consumed)], MovesFor(legs))
            && Forward(w.ledger, PostAll(w2, legs, ref).value.ledger)
            && |PostAll(w2, legs, ref).value.ledger| == |w.ledger| + 2
  {
    hide Sound, HoldsOf, MovesOf, Effect, ConsumeFunds, Row, UsableCapacity, OpenAll, PostAll, MovesFor;
    var held := map[from := Hold(amount, Consumed)];
    ConsumeHeld(w, from, ref, amount);
    var w1 := ConsumeFunds(w, from, ref).value;
    OpenAllAfter(w, w1, [from, to], ref, held, []);
    var (w2, legs) := (OpenAll(w1, [from, to]), TransferLegs(from, to, amount));
    EffectSound(w, w2, ref, held, []);
    assert from in [from, to] && to in [from, to];
    UsableAt(w2, to);
    PostAllIff(w2, legs, ref);
    OnTwo(legs);
    assert [] + MovesFor(legs) == MovesFor(legs);
    PostAllAfter(w, w2, legs, ref, held, []);
  }

  lemma UsableAt(w: Wallet, a: Acct)
    requires Sound(w)
    ensures UsableCapacity(Row(w, a)) >= 0
  {
    assert AccountSound(w, a);
  }

  lemma NetOfTransfer(from: Acct, to: Acct, amount: int)
    requires from.instr == to.instr
    ensures forall i :: Net(MovesFor(TransferLegs(from, to, amount)), i) == 0
  {
    var moves := MovesFor(TransferLegs(from, to, amount));
    assert moves == [moves[0], moves[1]];
    forall i ensures Net(moves, i) == 0 {
      NetOfTwo(moves[0], moves[1], i);
    }
  }

  // ---------------------------------------------------------------- what moves come to on one account

  /** The total of the deltas posted on one account. */
  function NetOn(moves: seq<Move>, a: Acct): int {
    if moves == [] then 0 else
      NetOn(moves[..|moves| - 1], a) + if moves[|moves| - 1].acct == a then moves[|moves| - 1].delta else 0
  }

  lemma {:induction false} NetOnAppend(xs: seq<Move>, ys: seq<Move>, a: Acct)
    ensures NetOn(xs + ys, a) == NetOn(xs, a) + NetOn(ys, a)
  {
    if ys == [] {
      assert xs + ys == xs;
    } else {
      assert (xs + ys)[..|xs + ys| - 1] == xs + ys[..|ys| - 1];
      NetOnAppend(xs, ys[..|ys| - 1], a);
    }
  }

  function MovedOn(m: Move, a: Acct): int {
    if m.acct == a then m.delta else 0
  }

  lemma NetOnTwo(x: Move, y: Move, a: Acct)
    ensures NetOn([x, y], a) == MovedOn(x, a) + MovedOn(y, a)
  {
    assert [x, y][..1] == [x] && [x][..0] == [];
    assert NetOn([x], a) == MovedOn(x, a);
  }

  lemma NetOnFour(x: Move, y: Move, z: Move, w: Move, a: Acct)
    ensures NetOn([x, y, z, w], a) == MovedOn(x, a) + MovedOn(y, a) + MovedOn(z, a) + MovedOn(w, a)
  {
    assert [x, y, z, w] == [x, y] + [z, w];
    NetOnTwo(x, y, a);
    NetOnTwo(z, w, a);
    NetOnAppend([x, y], [z, w], a);
  }

  /** The first reservation of a reference succeeds exactly when the account can spare the amount. */
  lemma ReserveIff(w: Wallet, a: Acct, ref: Ref, amount: int)
    requires HoldsOf(w.holds, ref) == map[]
    ensures ReserveFunds(w, a, ref, amount).Ok? <==> UsableCapacity(Row(w, a)) >= amount
  {
    hide HoldsOf;
    HoldsRead(w.holds, ref);
    assert a !in HoldsOf(w.holds, ref);
  }
}
