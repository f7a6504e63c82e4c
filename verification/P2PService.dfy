/** P2PAllocationsService, statement by statement. */
module P2PService {
  import opened Base
  import opened Accounts
  import opened Limits
  import opened State
  import opened Store
  import AccountsService
  import LimitsService
  import opened P2P
  import opened P2PInvariant
  import opened P2PProtocol

  // ---------------------------------------------------------------- slices of reservations

  function Look(rows: map<LimitKey, Hold>, k: LimitKey): Option<Hold> {
    if k in rows then Some(rows[k]) else None
  }

  lemma SameLook(rows: map<LimitKey, Hold>, rows': map<LimitKey, Hold>)
    requires forall k :: Look(rows, k) == Look(rows', k)
    ensures rows == rows'
  {
    forall k ensures k in rows <==> k in rows' {
      assert Look(rows, k) == Look(rows', k);
    }
    forall k <- rows ensures rows[k] == rows'[k] {
      assert Look(rows, k) == Look(rows', k);
    }
  }

  /** What key `k` holds once the reservations in `seen` are split. */
  function SplitLook(q: Quota, whole: Ref, part: Ref, amount: int, seen: set<LimitKey>, k: LimitKey): Option<Hold> {
    var l := LimitKey(whole, k.usage);
    if k.ref == part && l in seen && l in q.limits then Some(Hold(amount, q.limits[l].status))
    else if k in q.limits then Some(if k in seen then q.limits[k].(amount := q.limits[k].amount - amount)
                                    else q.limits[k])
    else None
  }

  ghost predicate SplitSome(q: Quota, rows: map<LimitKey, Hold>, whole: Ref, part: Ref, amount: int,
                            seen: set<LimitKey>)
  {
    forall k :: Look(rows, k) == SplitLook(q, whole, part, amount, seen, k)
  }

  lemma SplitNone(q: Quota, whole: Ref, part: Ref, amount: int)
    ensures SplitSome(q, q.limits, whole, part, amount, {})
  {
  }

  lemma SplitNext(q: Quota, rows: map<LimitKey, Hold>, whole: Ref, part: Ref, amount: int, seen: set<LimitKey>,
                  k: LimitKey)
    requires SplitSome(q, rows, whole, part, amount, seen)
    requires whole != part && k in q.limits && k.ref == whole && k !in seen && forall j <- seen :: j.ref == whole
    ensures k in rows && rows[k] == q.limits[k]
    ensures SplitSome(q,
                      rows[k := q.limits[k].(amount := q.limits[k].amount - amount)]
                          [LimitKey(part, k.usage) := Hold(amount, q.limits[k].status)],
                      whole, part, amount, seen + {k})
  {
    var rows' := rows[k := q.limits[k].(amount := q.limits[k].amount - amount)]
                     [LimitKey(part, k.usage) := Hold(amount, q.limits[k].status)];
    assert Look(rows, k) == SplitLook(q, whole, part, amount, seen, k);
    forall j ensures Look(rows', j) == SplitLook(q, whole, part, amount, seen + {k}, j) {
      assert Look(rows, j) == SplitLook(q, whole, part, amount, seen, j);
      assert k == LimitKey(whole, k.usage);
    }
  }

  lemma SplitAll(q: Quota, rows: map<LimitKey, Hold>, whole: Ref, part: Ref, amount: int, seen: set<LimitKey>)
    requires whole != part && SplitSome(q, rows, whole, part, amount, seen)
    requires forall k :: k in seen <==> k in q.limits && k.ref == whole
    ensures rows == Split(q, whole, part, amount).limits
  {
    var rows' := Split(q, whole, part, amount).limits;
    forall k ensures Look(rows, k) == Look(rows', k) {
      assert Look(rows, k) == SplitLook(q, whole, part, amount, seen, k);
      SplittedLook(q, whole, part, amount, k);
    }
    SameLook(rows, rows');
  }

  lemma SplittedLook(q: Quota, whole: Ref, part: Ref, amount: int, k: LimitKey)
    requires whole != part
    ensures var l := LimitKey(whole, k.usage);
            Look(Split(q, whole, part, amount).limits, k)
            == if k.ref == part && l in q.limits then Some(Hold(amount, q.limits[l].status))
               else if k in q.limits then
                 Some(if k.ref == whole then q.limits[k].(amount := q.limits[k].amount - amount) else q.limits[k])
               else None
  {
    var l := LimitKey(whole, k.usage);
    if k.ref == part && l in q.limits {
      SplitAt(q, whole, part, amount, k.usage);
      assert k == LimitKey(part, k.usage);
    } else if k.ref == whole {
      assert k == l;
    }
  }

  method SplitLimits(tx: Database, whole: Ref, part: Ref, amount: int)
    requires whole != part
    modifies tx`limits
    ensures tx.State() == old(tx.State()).(quota := tx.Counters())
    ensures tx.Counters() == Split(old(tx.Counters()), whole, part, amount)
  {
    hide SplitSome, Split;
    ghost var q := tx.Counters();
    var todo := LimitsService.FindMany(tx, whole);
    ghost var (all, seen) := (todo, {});
    SplitNone(q, whole, part, amount);
    while todo != {}
      invariant seen + todo == all && seen !! todo
      invariant tx.State() == old(tx.State()).(quota := tx.Counters())
      invariant SplitSome(q, tx.limits, whole, part, amount, seen)
      decreases todo
    {
      var k :| k in todo;
      SplitNext(q, tx.limits, whole, part, amount, seen, k);
      var reservation := tx.limits[k];
      tx.limits := tx.limits[k := reservation.(amount := reservation.amount - amount)];
      tx.limits := tx.limits[LimitKey(part, k.usage) := Hold(amount, reservation.status)];
      todo, seen := todo - {k}, seen + {k};
    }
    assert seen == all;
    SplitAll(q, tx.limits, whole, part, amount, seen);
    SplitAgrees(q, whole, part, amount);
  }

  /** What key `k` holds once the reservations in `seen` are merged. */
  function MergeLook(q: Quota, whole: Ref, part: Ref, amount: int, seen: set<LimitKey>, k: LimitKey): Option<Hold> {
    if k !in q.limits || k in seen then None
    else if k.ref == whole && LimitKey(part, k.usage) in seen then
      Some(q.limits[k].(amount := q.limits[k].amount + amount))
    else Some(q.limits[k])
  }

  ghost predicate MergeSome(q: Quota, rows: map<LimitKey, Hold>, whole: Ref, part: Ref, amount: int,
                            seen: set<LimitKey>)
  {
    forall k :: Look(rows, k) == MergeLook(q, whole, part, amount, seen, k)
  }

  lemma MergeNone(q: Quota, whole: Ref, part: Ref, amount: int)
    ensures MergeSome(q, q.limits, whole, part, amount, {})
  {
  }

  function MergeRow(rows: map<LimitKey, Hold>, whole: Ref, amount: int, k: LimitKey): map<LimitKey, Hold> {
    var l := LimitKey(whole, k.usage);
    (if l in rows then rows[l := rows[l].(amount := rows[l].amount + amount)] else rows) - {k}
  }

  lemma MergeNext(q: Quota, rows: map<LimitKey, Hold>, whole: Ref, part: Ref, amount: int, seen: set<LimitKey>,
                  k: LimitKey)
    requires MergeSome(q, rows, whole, part, amount, seen)
    requires whole != part && k in q.limits && k.ref == part && k !in seen && forall j <- seen :: j.ref == part
    ensures MergeSome(q, MergeRow(rows, whole, amount, k), whole, part, amount, seen + {k})
  {
    var rows' := MergeRow(rows, whole, amount, k);
    forall j ensures Look(rows', j) == MergeLook(q, whole, part, amount, seen + {k}, j) {
      assert Look(rows, j) == MergeLook(q, whole, part, amount, seen, j);
      assert k == LimitKey(part, k.usage);
    }
  }

  lemma MergeAll(q: Quota, rows: map<LimitKey, Hold>, whole: Ref, part: Ref, amount: int, seen: set<LimitKey>)
    requires whole != part && MergeSome(q, rows, whole, part, amount, seen)
    requires forall k :: k in seen <==> k in q.limits && k.ref == part
    ensures rows == Merge(q, whole, part, amount).limits
  {
    var rows' := Merge(q, whole, part, amount).limits;
    forall k ensures Look(rows, k) == Look(rows', k) {
      assert Look(rows, k) == MergeLook(q, whole, part, amount, seen, k);
      MergedLook(q, whole, part, amount, k);
    }
    SameLook(rows, rows');
  }

  lemma MergedLook(q: Quota, whole: Ref, part: Ref, amount: int, k: LimitKey)
    ensures Look(Merge(q, whole, part, amount).limits, k)
         == if k !in q.limits || k.ref == part then None
            else if k.ref == whole && LimitKey(part, k.usage) in q.limits then
              Some(q.limits[k].(amount := q.limits[k].amount + amount))
            else Some(q.limits[k])
  {
  }

  method MergeLimits(tx: Database, whole: Ref, part: Ref, amount: int)
    requires whole != part
    modifies tx`limits
    ensures tx.State() == old(tx.State()).(quota := tx.Counters())
    ensures tx.Counters() == Merge(old(tx.Counters()), whole, part, amount)
  {
    hide MergeSome, Merge;
    ghost var q := tx.Counters();
    var todo := LimitsService.FindMany(tx, part);
    ghost var (all, seen) := (todo, {});
    MergeNone(q, whole, part, amount);
    while todo != {}
      invariant seen + todo == all && seen !! todo
      invariant tx.State() == old(tx.State()).(quota := tx.Counters())
      invariant MergeSome(q, tx.limits, whole, part, amount, seen)
      decreases todo
    {
      var k :| k in todo;
      MergeNext(q, tx.limits, whole, part, amount, seen, k);
      var original := LimitKey(whole, k.usage);
      if original in tx.limits {
        tx.limits := tx.limits[original := tx.limits[original].(amount := tx.limits[original].amount + amount)];
      }
      tx.limits := tx.limits - {k};
      todo, seen := todo - {k}, seen + {k};
    }
    assert seen == all;
    MergeAll(q, tx.limits, whole, part, amount, seen);
    MergeAgrees(q, whole, part, amount);
  }

  method SplitReservationForAllocation(tx: Database, withdrawal: Id, a: Acct, allocation: Id, amount: int)
    returns (r: Outcome)
    modifies tx`holds, tx`limits
    ensures tx.State() == old(tx.State()).(wallet := tx.Books(), quota := tx.Counters())
    ensures Wrote(tx.Books(),
                  SplitHold(old(tx.Books()), a, Withdraw(withdrawal), WithdrawAllocation(allocation), amount), r)
    ensures r.Done? ==>
            tx.Counters() == Split(old(tx.Counters()), Withdraw(withdrawal), WithdrawAllocation(allocation), amount)
  {
    hide Split;
    var k := HoldKey(Withdraw(withdrawal), a);
    if k !in tx.holds {
      return Failed(ReservationMissing);
    }
    var reservation := tx.holds[k];
    if reservation.amount < amount {
      return Failed(ReservationInsufficient);
    }
    tx.holds := tx.holds[k := reservation.(amount := reservation.amount - amount)];
    tx.holds := tx.holds[HoldKey(WithdrawAllocation(allocation), a) := Hold(amount, reservation.status)];
    SplitLimits(tx, Withdraw(withdrawal), WithdrawAllocation(allocation), amount);
    return Done;
  }

  method MergeReservationBack(tx: Database, withdrawal: Id, a: Acct, allocation: Id, amount: int)
    modifies tx`holds, tx`limits
    ensures tx.State() == old(tx.State()).(wallet := tx.Books(), quota := tx.Counters())
    ensures tx.Books() == MergeHold(old(tx.Books()), a, Withdraw(withdrawal), WithdrawAllocation(allocation), amount)
    ensures tx.Counters() == Merge(old(tx.Counters()), Withdraw(withdrawal), WithdrawAllocation(allocation), amount)
  {
    hide Merge;
    var (original, slice) := (HoldKey(Withdraw(withdrawal), a), HoldKey(WithdrawAllocation(allocation), a));
    if slice in tx.holds {
      if original in tx.holds {
        tx.holds := tx.holds[original := tx.holds[original].(amount := tx.holds[original].amount + amount)];
      }
      tx.holds := tx.holds - {slice};
    }
    MergeLimits(tx, Withdraw(withdrawal), WithdrawAllocation(allocation), amount);
  }

  // ---------------------------------------------------------------- assignment

  /** The running figures of one deposit in the assignment loop. */
  datatype DepositState = DepositState(assignedTotal: int, remaining: int, settledTotal: int)

  ghost predicate DepositAt(d: DepositRequest, now: DepositRequest, state: DepositState) {
    && now == d.(assignedTotal := now.assignedTotal, remaining := now.remaining, status := now.status)
    && state == DepositState(now.assignedTotal, Remaining(now), now.settledTotal)
  }

  /** The loop's own figures agree with the rows it has written so far. */
  ghost predicate Aligned(begin: Db, now: Db, w: Id, assignedTotal: int, states: map<Id, DepositState>) {
    && w in begin.withdrawals && w in now.withdrawals
    && now.withdrawals[w] == begin.withdrawals[w].(assignedTotal := assignedTotal, status := now.withdrawals[w].status)
    && now.deposits.Keys == begin.deposits.Keys
    && (forall d <- states :: d in begin.deposits && DepositAt(begin.deposits[d], now.deposits[d], states[d]))
  }

  lemma AlignedAtStart(db: Db, w: Id, states: map<Id, DepositState>)
    requires w in db.withdrawals
    requires forall d <- states :: d in db.deposits &&
               states[d] == DepositState(db.deposits[d].assignedTotal, Remaining(db.deposits[d]),
                                         db.deposits[d].settledTotal)
    ensures Aligned(db, db, w, db.withdrawals[w].assignedTotal, states)
  {
  }

  lemma AlignedNext(begin: Db, now: Db, w: Id, assignedTotal: int, states: map<Id, DepositState>, item: Item,
                    expiresAt: int)
    requires Aligned(begin, now, w, assignedTotal, states) && item.deposit in states
    requires AssignOne(now, w, item, expiresAt).Ok?
    ensures var s := states[item.deposit];
            Aligned(begin, AssignOne(now, w, item, expiresAt).value, w, assignedTotal + item.amount,
                    states[item.deposit := DepositState(s.assignedTotal + item.amount, s.remaining - item.amount,
                                                        s.settledTotal)])
  {
    hide SplitHold, Split, DeriveStatus;
    var (now', s) := (AssignOne(now, w, item, expiresAt).value, states[item.deposit]);
    var states' := states[item.deposit :=
                          DepositState(s.assignedTotal + item.amount, s.remaining - item.amount, s.settledTotal)];
    assert DepositAt(begin.deposits[item.deposit], now.deposits[item.deposit], s);
    forall d <- states' ensures d in begin.deposits && DepositAt(begin.deposits[d], now'.deposits[d], states'[d]) {
      assert DepositAt(begin.deposits[d], now.deposits[d], states[d]);
    }
  }

  lemma {:induction false} AssignStops(db: Db, w: Id, items: seq<Item>, expiresAt: int, j: nat)
    requires w in db.withdrawals && j <= |items| && AssignAll(db, w, items[..j], expiresAt).Err?
    ensures AssignAll(db, w, items, expiresAt) == AssignAll(db, w, items[..j], expiresAt)
  {
    hide AssignOne;
    if j < |items| {
      assert items[..|items| - 1][..j] == items[..j];
      AssignStops(db, w, items[..|items| - 1], expiresAt, j);
    } else {
      assert items[..j] == items;
    }
  }

  lemma AssignNext(db: Db, w: Id, items: seq<Item>, expiresAt: int, j: nat)
    requires w in db.withdrawals && j < |items| && AssignAll(db, w, items[..j], expiresAt).Ok?
    ensures w in AssignAll(db, w, items[..j], expiresAt).value.withdrawals
    ensures AssignAll(db, w, items[..j + 1], expiresAt) ==
            AssignOne(AssignAll(db, w, items[..j], expiresAt).value, w, items[j], expiresAt)
  {
    hide AssignOne;
    assert items[..j + 1][..j] == items[..j];
  }

  lemma AssignNothing(db: Db, w: Id, expiresAt: int)
    requires w in db.withdrawals
    ensures AssignAll(db, w, [], expiresAt) == Ok(db)
  {
  }

  /** Writes the rows of the two requests of an allocation. */
  method UpdateRequests(tx: Database, w: Id, withdrawal: Withdrawal, d: Id, deposit: DepositRequest)
    modifies tx`withdrawals, tx`deposits
    ensures tx.State() == old(tx.State()).(withdrawals := old(tx.withdrawals)[w := withdrawal],
                                           deposits := old(tx.deposits)[d := deposit])
  {
    tx.withdrawals := tx.withdrawals[w := withdrawal];
    tx.deposits := tx.deposits[d := deposit];
  }

  /** One turn of the loop, writing from the rows read before it and from its running figures. */
  method AssignTurn(tx: Database, w: Id, withdrawal: Withdrawal, deposit: DepositRequest, item: Item, expiresAt: int,
                    assignedTotal: int, state: DepositState) returns (r: Outcome)
    requires w in tx.withdrawals && item.deposit in tx.deposits
    requires tx.withdrawals[w] == withdrawal.(assignedTotal := assignedTotal, status := tx.withdrawals[w].status)
    requires DepositAt(deposit, tx.deposits[item.deposit], state)
    modifies tx
    ensures Wrote(tx.State(), AssignOne(old(tx.State()), w, item, expiresAt), r)
  {
    hide SplitHold, Split, DeriveStatus;
    if !deposit.purpose.P2P? {
      return Failed(BadRequest);
    }
    if item.amount > state.remaining {
      return Failed(ExceedsRemaining);
    }
    var id := tx.nextId;
    tx.nextId := id + 1;
    tx.allocations := tx.allocations[id := NewAllocation(w, item, expiresAt)];
    :- SplitReservationForAllocation(tx, w, Acct(withdrawal.user, IRR), id, item.amount);
    var newTotal := assignedTotal + item.amount;
    var status := DeriveStatus(withdrawal.amount, newTotal, withdrawal.settledTotal);
    var newWithdrawal := tx.withdrawals[w].(assignedTotal := newTotal, status := status);
    var newAssigned := state.assignedTotal + item.amount;
    var depositStatus := DeriveStatus(deposit.amount, newAssigned, state.settledTotal);
    var newDeposit := tx.deposits[item.deposit].(assignedTotal := newAssigned,
                                                 remaining := Some(state.remaining - item.amount),
                                                 status := depositStatus);
    UpdateRequests(tx, w, newWithdrawal, item.deposit, newDeposit);
    return Done;
  }

  method AssignLoop(tx: Database, w: Id, items: seq<Item>, expiresAt: int) returns (r: Outcome)
    requires w in tx.withdrawals
    modifies tx
    ensures Wrote(tx.State(), AssignAll(old(tx.State()), w, items, expiresAt), r)
  {
    hide AssignAll, AssignOne, Aligned, DepositAt;
    ghost var begin := tx.State();
    var withdrawal, deposits := tx.withdrawals[w], tx.deposits;
    var withdrawalAssignedTotal := withdrawal.assignedTotal;
    var depositState := map d | d in deposits ::
        DepositState(deposits[d].assignedTotal, Remaining(deposits[d]), deposits[d].settledTotal);
    var j := 0;
    AlignedAtStart(begin, w, depositState);
    AssignNothing(begin, w, expiresAt);
    assert items[..0] == [];
    while j < |items|
      invariant 0 <= j <= |items|
      invariant AssignAll(begin, w, items[..j], expiresAt) == Ok(tx.State())
      invariant Aligned(begin, tx.State(), w, withdrawalAssignedTotal, depositState)
      invariant depositState.Keys == deposits.Keys == begin.deposits.Keys
    {
      var item := items[j];
      AssignNext(begin, w, items, expiresAt, j);
      if item.deposit !in deposits {
        MissingDeposit(begin, tx.State(), w, withdrawalAssignedTotal, depositState, item, expiresAt);
        AssignStops(begin, w, items, expiresAt, j + 1);
        return Failed(NotFound);
      }
      var state := depositState[item.deposit];
      AlignedRead(begin, tx.State(), w, withdrawalAssignedTotal, depositState, item.deposit);
      ghost var now := tx.State();
      var turn := AssignTurn(tx, w, withdrawal, deposits[item.deposit], item, expiresAt, withdrawalAssignedTotal,
                             state);
      if turn.Failed? {
        AssignStops(begin, w, items, expiresAt, j + 1);
        return turn;
      }
      AlignedNext(begin, now, w, withdrawalAssignedTotal, depositState, item, expiresAt);
      withdrawalAssignedTotal := withdrawalAssignedTotal + item.amount;
      depositState := depositState[item.deposit :=
        DepositState(state.assignedTotal + item.amount, state.remaining - item.amount, state.settledTotal)];
      j := j + 1;
    }
    assert items[..j] == items;
    return Done;
  }

  lemma AlignedRead(begin: Db, now: Db, w: Id, assignedTotal: int, states: map<Id, DepositState>, d: Id)
    requires Aligned(begin, now, w, assignedTotal, states) && d in states
    ensures w in begin.withdrawals && w in now.withdrawals && d in begin.deposits && d in now.deposits
    ensures now.withdrawals[w] ==
            begin.withdrawals[w].(assignedTotal := assignedTotal, status := now.withdrawals[w].status)
    ensures DepositAt(begin.deposits[d], now.deposits[d], states[d])
  {
    hide DepositAt;
  }

  lemma MissingDeposit(begin: Db, now: Db, w: Id, assignedTotal: int, states: map<Id, DepositState>, item: Item,
                       expiresAt: int)
    requires Aligned(begin, now, w, assignedTotal, states) && item.deposit !in begin.deposits
    ensures w in now.withdrawals && AssignOne(now, w, item, expiresAt) == Err(NotFound)
  {
  }

  /** The total of the items. */
  method TotalOf(items: seq<Item>) returns (total: int, positive: bool)
    ensures total == Sum(items) && (positive <==> Positive(items))
  {
    total, positive := 0, true;
    var j := 0;
    while j < |items|
      invariant 0 <= j <= |items|
      invariant total == Sum(items[..j]) && (positive <==> Positive(items[..j]))
    {
      assert items[..j + 1][..j] == items[..j] && items[..j + 1] == items[..j] + [items[j]];
      total := total + items[j].amount;
      if items[j].amount <= 0 {
        assert items[j] in items[..j + 1];
        positive := false;
      }
      j := j + 1;
    }
    assert items[..j] == items;
  }

  ghost predicate Assigned(before: Db, after: Db, spec: Result<(Db, seq<Id>)>, r: Outcome, made: seq<Id>) {
    match spec
    case Ok((db, ids)) => r.Done? && after == db && made == ids
    case Err(e) => r == Failed(e) && after == before
  }

  method Assign(tx: Database, withdrawal: Id, request: AssignRequest, key: Option<nat>, destinationOk: bool,
                expiresAt: int)
    returns (r: Outcome, made: seq<Id>)
    modifies tx
    ensures Assigned(old(tx.State()), tx.State(),
                     P2P.Assign(old(tx.State()), withdrawal, NormalizeItems(request), key, destinationOk, expiresAt), r,
                     made)
    ensures Inv(old(tx.State())) ==> Inv(tx.State())
  {
    hide AssignAll, Inv;
    if Inv(tx.State()) &&
       P2P.Assign(tx.State(), withdrawal, NormalizeItems(request), key, destinationOk, expiresAt).Ok? {
      AssignKeepsInv(tx.State(), withdrawal, NormalizeItems(request), key, destinationOk, expiresAt);
    }
    made := [];
    var items := NormalizeItems(request);
    if |items| == 0 {
      return Failed(BadRequest), [];
    }
    var total, positive := TotalOf(items);
    if !positive {
      return Failed(BadRequest), [];
    }
    if key.Some? && AssignKey(key.value, withdrawal) in tx.assignments {
      return Done, tx.assignments[AssignKey(key.value, withdrawal)];
    }
    if withdrawal !in tx.withdrawals {
      return Failed(NotFound), [];
    }
    if !tx.withdrawals[withdrawal].purpose.P2P? {
      return Failed(BadRequest), [];
    }
    var remainingToAssign := tx.withdrawals[withdrawal].amount - tx.withdrawals[withdrawal].assignedTotal;
    if total > remainingToAssign {
      return Failed(ExceedsRemaining), [];
    }
    if !destinationOk {
      return Failed(BadRequest), [];
    }
    var before := tx.State();
    made := IdsFrom(tx.nextId, |items|);
    r := AssignLoop(tx, withdrawal, items, expiresAt);
    if r.Failed? {
      tx.Restore(before);
      return r, [];
    }
    if key.Some? {
      tx.assignments := tx.assignments[AssignKey(key.value, withdrawal) := made];
    }
  }

  // ---------------------------------------------------------------- proof and confirmations

  method SubmitProof(tx: Database, id: Id, user: UserId, files: seq<Id>, filesFound: bool, filesOwned: bool, now: int)
    returns (r: Outcome)
    modifies tx
    ensures Committed(old(tx.State()), tx.State(),
                      P2P.SubmitProof(old(tx.State()), id, user, files, filesFound, filesOwned, now), r)
    ensures Inv(old(tx.State())) ==> Inv(tx.State())
  {
    hide Inv;
    if Inv(tx.State()) && P2P.SubmitProof(tx.State(), id, user, files, filesFound, filesOwned, now).Ok? {
      SubmitProofKeepsInv(tx.State(), id, user, files, filesFound, filesOwned, now);
    }
    if files == [] {
      return Failed(BadRequest);
    }
    if !Loaded(tx.State(), id) {
      return Failed(NotFound);
    }
    var allocation := tx.allocations[id];
    if tx.deposits[allocation.deposit].user != user {
      return Failed(Forbidden);
    }
    if allocation.status.Cancelled? || allocation.status.Expired? || allocation.status.Settled? ||
       allocation.status.Disputed? {
      return Failed(BadStatus);
    }
    if !allocation.status.Assigned? && !allocation.status.ProofSubmitted? {
      return Failed(BadStatus);
    }
    if allocation.receiverConfirmed || allocation.adminVerified {
      return Failed(BadStatus);
    }
    if allocation.status.Assigned? && RunOut(allocation, now) {
      return Failed(Error.Expired);
    }
    if ProofsOf(tx.proofs, id) >= 2 {
      return Failed(BadRequest);
    }
    if !filesFound {
      return Failed(BadRequest);
    }
    if !filesOwned {
      return Failed(Forbidden);
    }
    tx.proofs := tx.proofs + ProofsFor(id, files);
    tx.allocations := tx.allocations[id := allocation.(status := ProofSubmitted, proofSubmitted := true)];
    return Done;
  }

  method ReceiverConfirm(tx: Database, id: Id, user: UserId, confirmed: bool, mode: Mode) returns (r: Outcome)
    modifies tx
    ensures Committed(old(tx.State()), tx.State(), P2P.ReceiverConfirm(old(tx.State()), id, user, confirmed, mode), r)
    ensures Inv(old(tx.State())) ==> Inv(tx.State())
  {
    hide Inv;
    if Inv(tx.State()) && P2P.ReceiverConfirm(tx.State(), id, user, confirmed, mode).Ok? {
      ReceiverConfirmKeepsInv(tx.State(), id, user, confirmed, mode);
    }
    if !Loaded(tx.State(), id) {
      return Failed(NotFound);
    }
    var allocation := tx.allocations[id];
    if tx.withdrawals[allocation.withdrawal].user != user {
      return Failed(Forbidden);
    }
    if !allocation.status.ProofSubmitted? && !allocation.status.AdminVerified? {
      return Failed(BadStatus);
    }
    if mode.AdminOnly? {
      return Failed(Forbidden);
    }
    if confirmed {
      var status := if allocation.status.AdminVerified? then allocation.status else ReceiverConfirmed;
      tx.allocations := tx.allocations[id := allocation.(status := status, receiverConfirmed := true)];
    } else {
      tx.allocations := tx.allocations[id := allocation.(status := Disputed)];
    }
    return Done;
  }

  method AdminVerify(tx: Database, id: Id, approved: bool) returns (r: Outcome)
    modifies tx
    ensures Committed(old(tx.State()), tx.State(), P2P.AdminVerify(old(tx.State()), id, approved), r)
    ensures Inv(old(tx.State())) ==> Inv(tx.State())
  {
    hide Inv;
    if Inv(tx.State()) && P2P.AdminVerify(tx.State(), id, approved).Ok? {
      AdminVerifyKeepsInv(tx.State(), id, approved);
    }
    if !Loaded(tx.State(), id) {
      return Failed(NotFound);
    }
    var allocation := tx.allocations[id];
    if !allocation.status.ProofSubmitted? && !allocation.status.ReceiverConfirmed? {
      return Failed(BadStatus);
    }
    if approved {
      tx.allocations := tx.allocations[id := allocation.(status := AdminVerified, adminVerified := true)];
    } else {
      tx.allocations := tx.allocations[id := allocation.(status := Disputed, adminVerified := true)];
    }
    return Done;
  }

  // ---------------------------------------------------------------- settlement, cancellation, expiry

  function SettleWallet(w: Wallet, receiver: Acct, payer: Acct, amount: int, ref: Ref): Result<Wallet> {
    var w1 :- Accounts.ConsumeFunds(w, receiver, ref);
    PostAll(OpenAll(w1, [receiver, payer]), TransferLegs(receiver, payer, amount), ref)
  }

  lemma ConsumedLedger(w: Wallet, a: Acct, accounts: seq<Acct>, ref: Ref)
    ensures Accounts.ConsumeFunds(w, a, ref).Ok? ==>
            OpenAll(Accounts.ConsumeFunds(w, a, ref).value, accounts).ledger == w.ledger
  {
    hide OpenAll;
    if Accounts.ConsumeFunds(w, a, ref).Ok? {
      OpenedLedger(Accounts.ConsumeFunds(w, a, ref).value, accounts);
    }
  }

  lemma {:induction false} OpenedLedger(w: Wallet, accounts: seq<Acct>)
    ensures OpenAll(w, accounts).ledger == w.ledger
    decreases |accounts|
  {
    if accounts != [] {
      OpenedLedger(GetOrCreate(w, accounts[0]), accounts[1..]);
    }
  }

  /** Consumes the slice and moves its amount from the receiver of the payout to its payer. */
  method MoveFunds(tx: Database, receiver: Acct, payer: Acct, amount: int, ref: Ref)
    returns (r: Outcome, debit: nat, credit: nat)
    modifies tx`accounts, tx`holds, tx`ledger, tx`usages, tx`limits
    ensures tx.State() == old(tx.State()).(wallet := tx.Books(), quota := tx.Counters())
    ensures Wrote(tx.Books(), SettleWallet(old(tx.Books()), receiver, payer, amount, ref), r)
    ensures r.Done? ==> tx.Counters() == Consume(old(tx.Counters()), ref)
    ensures r.Done? ==> debit == |old(tx.ledger)| && credit == |old(tx.ledger)| + 1
  {
    hide Accounts.ConsumeFunds, OpenAll, PostAll, TransferLegs, Consume;
    debit, credit := 0, 0;
    ConsumedLedger(tx.Books(), receiver, [receiver, payer], ref);
    r := AccountsService.ConsumeFunds(tx, receiver, ref);
    :- r;
    LimitsService.Consume(tx, ref);
    AccountsService.OpenBoth(tx, receiver, payer);
    r, debit, credit := AccountsService.PostTransfer(tx, receiver, payer, amount, ref);
  }

  method FinalizeBody(tx: Database, id: Id, mode: Mode, now: int) returns (r: Outcome)
    modifies tx
    ensures Wrote(tx.State(), P2P.Finalize(old(tx.State()), id, mode, now), r)
  {
    hide Accounts.ConsumeFunds, OpenAll, PostAll, TransferLegs, Consume, DeriveStatus, Finalizable;
    if !Loaded(tx.State(), id) {
      return Failed(NotFound);
    }
    var allocation := tx.allocations[id];
    var withdrawal, deposit := tx.withdrawals[allocation.withdrawal], tx.deposits[allocation.deposit];
    ConsumedLedger(tx.Books(), Acct(withdrawal.user, IRR), [Acct(withdrawal.user, IRR), Acct(deposit.user, IRR)],
                   WithdrawAllocation(id));
    if allocation.status.Settled? {
      return Done;
    }
    if allocation.status.Cancelled? || allocation.status.Expired? || allocation.status.Disputed? {
      return Failed(BadStatus);
    }
    if allocation.status.Assigned? && RunOut(allocation, now) {
      return Failed(Error.Expired);
    }
    if !Finalizable(allocation, mode) {
      return Failed(NotFinalizable);
    }
    if allocation.debitTx.Some? || allocation.creditTx.Some? {
      return Done;
    }
    var moved, debit, credit :=
        MoveFunds(tx, Acct(withdrawal.user, IRR), Acct(deposit.user, IRR), allocation.amount, WithdrawAllocation(id));
    :- moved;
    tx.allocations := tx.allocations[id :=
                                     allocation.(status := AllocationStatus.Settled, debitTx := Some(debit),
                                                 creditTx := Some(credit))];
    var withdrawalSettled := withdrawal.settledTotal + allocation.amount;
    var depositSettled := deposit.settledTotal + allocation.amount;
    UpdateRequests(tx,
      allocation.withdrawal,
      withdrawal.(settledTotal := withdrawalSettled,
                  status := DeriveStatus(withdrawal.amount, withdrawal.assignedTotal, withdrawalSettled)),
      allocation.deposit,
      deposit.(settledTotal := depositSettled,
               status := DeriveStatus(deposit.amount, deposit.assignedTotal, depositSettled)));
    return Done;
  }

  method Finalize(tx: Database, id: Id, mode: Mode, now: int) returns (r: Outcome)
    modifies tx
    ensures Committed(old(tx.State()), tx.State(), P2P.Finalize(old(tx.State()), id, mode, now), r)
    ensures Inv(old(tx.State())) ==> Inv(tx.State())
  {
    hide Inv, P2P.Finalize;
    if Inv(tx.State()) && P2P.Finalize(tx.State(), id, mode, now).Ok? {
      FinalizeKeepsInv(tx.State(), id, mode, now);
    }
    var before := tx.State();
    r := FinalizeBody(tx, id, mode, now);
    if r.Failed? {
      tx.Restore(before);
    }
  }

  /** Gives the slice of an allocation back and takes it out of the totals of its two requests. */
  method GiveBackSlice(tx: Database, id: Id, status: AllocationStatus)
    requires Loaded(tx.State(), id)
    modifies tx
    ensures tx.State() == GiveBack(old(tx.State()), id, status)
  {
    hide MergeHold, Merge, DeriveStatus;
    var allocation := tx.allocations[id];
    var withdrawal, deposit := tx.withdrawals[allocation.withdrawal], tx.deposits[allocation.deposit];
    MergeReservationBack(tx, allocation.withdrawal, Acct(withdrawal.user, IRR), id, allocation.amount);
    tx.allocations := tx.allocations[id := allocation.(status := status)];
    var withdrawalAssigned := withdrawal.assignedTotal - allocation.amount;
    var depositAssigned := deposit.assignedTotal - allocation.amount;
    UpdateRequests(tx,
      allocation.withdrawal,
      withdrawal.(assignedTotal := withdrawalAssigned,
                  status := DeriveStatus(withdrawal.amount, withdrawalAssigned, withdrawal.settledTotal)),
      allocation.deposit,
      deposit.(assignedTotal := depositAssigned, remaining := Some(Remaining(deposit) + allocation.amount),
               status := DeriveStatus(deposit.amount, depositAssigned, deposit.settledTotal)));
  }

  method Cancel(tx: Database, id: Id) returns (r: Outcome)
    modifies tx
    ensures Committed(old(tx.State()), tx.State(), P2P.Cancel(old(tx.State()), id), r)
    ensures Inv(old(tx.State())) ==> Inv(tx.State())
  {
    hide Inv, GiveBack;
    if Inv(tx.State()) && P2P.Cancel(tx.State(), id).Ok? {
      CancelKeepsInv(tx.State(), id);
    }
    if !Loaded(tx.State(), id) {
      return Failed(NotFound);
    }
    if tx.allocations[id].status.Cancelled? || tx.allocations[id].status.Expired? {
      return Done;
    }
    if tx.allocations[id].status.Settled? {
      return Failed(BadStatus);
    }
    GiveBackSlice(tx, id, AllocationStatus.Cancelled);
    return Done;
  }

  /** All overdue allocations, each once, in some order. */
  method SelectOverdue(tx: Database, now: int) returns (ids: seq<Id>)
    ensures Selection(tx.State(), ids, now)
  {
    ids := [];
    var todo := set id | id in tx.allocations && tx.allocations[id].status.Assigned? &&
        tx.allocations[id].expiresAt < now;
    ghost var all := todo;
    while todo != {}
      invariant todo <= all && forall id :: id in ids <==> id in all && id !in todo
      invariant forall j, k | 0 <= j < k < |ids| :: ids[j] != ids[k]
      decreases todo
    {
      var id :| id in todo;
      todo := todo - {id};
      ids := ids + [id];
    }
  }

  /** The sweep: one transaction per selected allocation, skipping those that are no longer assigned. */
  method ExpireAllocations(tx: Database, now: int) returns (processed: nat, ghost ids: seq<Id>)
    modifies tx
    ensures Selection(old(tx.State()), ids, now)
    ensures tx.State() == ExpireAll(old(tx.State()), ids) && processed == ExpiredCount(old(tx.State()), ids)
    ensures Inv(old(tx.State())) ==>
              && Inv(tx.State()) && (forall id :: !Overdue(tx.State(), id, now))
              && processed == |ids|
  {
    hide Inv, GiveBack, Loaded;
    ghost var begin := tx.State();
    var expired := SelectOverdue(tx, now);
    ids := expired;
    processed := 0;
    var j := 0;
    while j < |expired|
      invariant 0 <= j <= |expired|
      invariant tx.State() == ExpireAll(begin, expired[..j]) && processed == ExpiredCount(begin, expired[..j])
    {
      assert expired[..j + 1][..j] == expired[..j];
      var id := expired[j];
      if Loaded(tx.State(), id) {
        LoadedRow(tx.State(), id);
        if tx.allocations[id].status.Assigned? {
          GiveBackSlice(tx, id, AllocationStatus.Expired);
          processed := processed + 1;
        }
      }
      j := j + 1;
    }
    assert expired[..j] == expired;
    if Inv(begin) {
      Sweep(begin, expired, now);
      assert expired[..|expired|] == expired;
    }
  }

  lemma LoadedRow(db: Db, id: Id)
    requires Loaded(db, id)
    ensures id in db.allocations
  {
  }
}
