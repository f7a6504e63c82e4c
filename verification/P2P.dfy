/** P2PAllocationsService: a withdrawal is paid by allocating slices of it to deposits. */
module P2P {
  import opened Base
  import opened Accounts
  import opened Limits
  import opened State
  import opened Frames

  /** Whose confirmation an allocation needs; fixed by the configuration of the platform. */
  datatype Mode = ReceiverOnly | AdminOnly | ReceiverOrAdmin | ReceiverAndAdmin

  datatype Item = Item(deposit: Id, amount: int)

  /** What an assignment request may carry: a list of items, or one deposit, or candidate, with an amount. */
  datatype AssignRequest = AssignRequest(items: seq<Item>, deposit: Option<Id>, candidate: Option<Id>,
                                         amount: Option<int>)

  function NormalizeItems(request: AssignRequest): seq<Item> {
    var single := if request.deposit.Some? then request.deposit else request.candidate;
    if request.items != [] then request.items
    else if single.Some? && request.amount.Some? then [Item(single.value, request.amount.value)]
    else []
  }

  function WithTotals(r: Withdrawal, assignedTotal: int, settledTotal: int): Withdrawal {
    r.(assignedTotal := assignedTotal, settledTotal := settledTotal,
       status := DeriveStatus(r.amount, assignedTotal, settledTotal))
  }

  function Remaining(d: DepositRequest): int {
    if d.remaining.Some? then d.remaining.value else d.amount
  }

  function DepositWithTotals(d: DepositRequest, remaining: Option<int>, assignedTotal: int,
                             settledTotal: int): DepositRequest
  {
    d.(remaining := remaining, assignedTotal := assignedTotal, settledTotal := settledTotal,
       status := DeriveStatus(d.amount, assignedTotal, settledTotal))
  }

  // ---------------------------------------------------------------- assignment

  function NewAllocation(withdrawal: Id, item: Item, expiresAt: int): Allocation {
    Allocation(withdrawal, item.deposit, item.amount, Assigned, expiresAt, false, false, false, None, None)
  }

  /** One turn of the assignment loop. */
  function AssignOne(db: Db, withdrawal: Id, item: Item, expiresAt: int): Result<Db>
    requires withdrawal in db.withdrawals
  {
    if item.deposit !in db.deposits then Err(NotFound) else
      var (r, d, id) := (db.withdrawals[withdrawal], db.deposits[item.deposit], db.nextId);
      if !d.purpose.P2P? then Err(BadRequest)
      else if item.amount > Remaining(d) then Err(ExceedsRemaining)
      else
        var wallet :- SplitHold(db.wallet, Acct(r.user, IRR), Withdraw(withdrawal), WithdrawAllocation(id),
                                item.amount);
        Ok(db.(wallet := wallet,
               quota := Split(db.quota, Withdraw(withdrawal), WithdrawAllocation(id), item.amount),
               allocations := db.allocations[id := NewAllocation(withdrawal, item, expiresAt)],
               withdrawals := db.withdrawals[withdrawal :=
                                             WithTotals(r, r.assignedTotal + item.amount, r.settledTotal)],
               deposits := db.deposits[item.deposit :=
                 DepositWithTotals(d, Some(Remaining(d) - item.amount), d.assignedTotal + item.amount, d.settledTotal)],
               nextId := id + 1))
  }

  function AssignAll(db: Db, withdrawal: Id, items: seq<Item>, expiresAt: int): (r: Result<Db>)
    requires withdrawal in db.withdrawals
    ensures r.Ok? ==> withdrawal in r.value.withdrawals && Stays(db, r.value) && RemittancesAside(db, r.value)
    ensures r.Ok? ==> r.value.assignments == db.assignments && r.value.quota.usages == db.quota.usages
    ensures r.Ok? ==> r.value.proofs == db.proofs && r.value.requests == db.requests
  {
    if items == [] then Ok(db) else
      var last := |items| - 1;
      var db1 :- AssignAll(db, withdrawal, items[..last], expiresAt);
      AssignOne(db1, withdrawal, items[last], expiresAt)
  }

  function Sum(items: seq<Item>): int {
    if items == [] then 0 else Sum(items[..|items| - 1]) + items[|items| - 1].amount
  }

  /** Consecutive identifiers, as the allocations of one assignment get them. */
  function IdsFrom(first: Id, count: nat): seq<Id> {
    seq(count, k requires 0 <= k < count => first + k)
  }

  /** Returns the new database and the allocations made, or those stored under the idempotency key.
      `destinationOk`: a destination to pay to resolves. */
  function Assign(db: Db, withdrawal: Id, items: seq<Item>, key: Option<nat>, destinationOk: bool,
                  expiresAt: int): (r: Result<(Db, seq<Id>)>)
    ensures r.Ok? ==>
            Stays(db, r.value.0) && RemittancesAside(db, r.value.0) && r.value.0.quota.usages == db.quota.usages
    ensures r.Ok? ==> r.value.0.proofs == db.proofs && r.value.0.requests == db.requests
  {
    if items == [] || (exists item <- items :: item.amount <= 0) then Err(BadRequest)
    else if key.Some? && AssignKey(key.value, withdrawal) in db.assignments then
      Ok((db, db.assignments[AssignKey(key.value, withdrawal)]))
    else if withdrawal !in db.withdrawals then Err(NotFound)
    else if !db.withdrawals[withdrawal].purpose.P2P? then Err(BadRequest)
    else if Sum(items) > db.withdrawals[withdrawal].amount - db.withdrawals[withdrawal].assignedTotal then
      Err(ExceedsRemaining)
    else if !destinationOk then Err(BadRequest)
    else
      var db1 :- AssignAll(db, withdrawal, items, expiresAt);
      var made := IdsFrom(db.nextId, |items|);
      Ok((if key.Some? then db1.(assignments := db1.assignments[AssignKey(key.value, withdrawal) := made]) else db1,
          made))
  }

  // ---------------------------------------------------------------- proof and confirmations

  /** An allocation runs out at its very expiry time; the sweep only takes those past it. */
  predicate RunOut(al: Allocation, now: int) {
    al.expiresAt <= now
  }

  function WithRow(db: Db, id: Id, al: Allocation): Db {
    db.(allocations := db.allocations[id := al])
  }

  /** The request and its two parties; what a query with its relations included returns. */
  predicate Loaded(db: Db, id: Id) {
    && id in db.allocations
    && db.allocations[id].withdrawal in db.withdrawals
    && db.allocations[id].deposit in db.deposits
  }

  /** The files attached to an allocation by one submission. */
  function ProofsFor(allocation: Id, files: seq<Id>): seq<Proof> {
    seq(|files|, k requires 0 <= k < |files| => Proof(allocation, files[k]))
  }

  /** `filesFound`: every file identifier, none repeated, is of a stored file; `filesOwned`: the user uploaded them. */
  function SubmitProof(db: Db, id: Id, user: UserId, files: seq<Id>, filesFound: bool, filesOwned: bool,
                       now: int): (r: Result<Db>)
    ensures r.Ok? ==>
            Stays(db, r.value) && RemittancesAside(db, r.value) && r.value.quota == db.quota &&
            r.value.requests == db.requests
  {
    if files == [] then Err(BadRequest)
    else if !Loaded(db, id) then Err(NotFound)
    else
      var al := db.allocations[id];
      if db.deposits[al.deposit].user != user then Err(Forbidden)
      else if !al.status.Assigned? && !al.status.ProofSubmitted? then Err(BadStatus)
      else if al.receiverConfirmed || al.adminVerified then Err(BadStatus)
      else if al.status.Assigned? && RunOut(al, now) then Err(Error.Expired)
      else if ProofsOf(db.proofs, id) >= 2 then Err(BadRequest)
      else if !filesFound then Err(BadRequest)
      else if !filesOwned then Err(Forbidden)
      else
        Ok(WithRow(db, id, al.(status := ProofSubmitted, proofSubmitted := true)).(proofs := db.proofs +
              ProofsFor(id, files)))
  }

  function ReceiverConfirm(db: Db, id: Id, user: UserId, confirmed: bool, mode: Mode): (r: Result<Db>)
    ensures r.Ok? ==> Stays(db, r.value) && RemittancesAside(db, r.value) && r.value.quota == db.quota
    ensures r.Ok? ==> r.value.proofs == db.proofs && r.value.requests == db.requests
  {
    if !Loaded(db, id) then Err(NotFound) else
      var al := db.allocations[id];
      if db.withdrawals[al.withdrawal].user != user then Err(Forbidden)
      else if !al.status.ProofSubmitted? && !al.status.AdminVerified? then Err(BadStatus)
      else if mode.AdminOnly? then Err(Forbidden)
      else if confirmed then
        Ok(WithRow(db, id, al.(status := if al.status.AdminVerified? then AdminVerified else ReceiverConfirmed,
                               receiverConfirmed := true)))
      else
        Ok(WithRow(db, id, al.(status := Disputed)))
  }

  function AdminVerify(db: Db, id: Id, approved: bool): (r: Result<Db>)
    ensures r.Ok? ==> Stays(db, r.value) && RemittancesAside(db, r.value) && r.value.quota == db.quota
    ensures r.Ok? ==> r.value.proofs == db.proofs && r.value.requests == db.requests
  {
    if !Loaded(db, id) then Err(NotFound) else
      var al := db.allocations[id];
      if !al.status.ProofSubmitted? && !al.status.ReceiverConfirmed? then Err(BadStatus)
      else Ok(WithRow(db, id, al.(status := if approved then AdminVerified else Disputed, adminVerified := true)))
  }

  // ---------------------------------------------------------------- settlement

  predicate Finalizable(al: Allocation, mode: Mode) {
    && !al.status.Disputed?
    && match mode
       case ReceiverOnly => al.status.ReceiverConfirmed?
       case AdminOnly => al.status.AdminVerified?
       case ReceiverOrAdmin => al.receiverConfirmed || al.adminVerified
       case ReceiverAndAdmin => al.receiverConfirmed && al.adminVerified
  }

  /** The two postings of a settled allocation. */
  function SettleLegs(al: Allocation, receiver: UserId, payer: UserId): seq<(Acct, Signed)> {
    TransferLegs(Acct(receiver, IRR), Acct(payer, IRR), al.amount)
  }

  function Finalize(db: Db, id: Id, mode: Mode, now: int): (res: Result<Db>)
    ensures res.Ok? ==>
            Stays(db, res.value) && RemittancesAside(db, res.value) && res.value.proofs == db.proofs &&
            res.value.requests == db.requests
    ensures res.Ok? ==> Decided(db.quota, res.value.quota, WithdrawAllocation(id))
  {
    if !Loaded(db, id) then Err(NotFound) else
      var al := db.allocations[id];
      var (r, d, ref) := (db.withdrawals[al.withdrawal], db.deposits[al.deposit], WithdrawAllocation(id));
      if al.status.Settled? then Ok(db)
      else if al.status.Cancelled? || al.status.Expired? || al.status.Disputed? then Err(BadStatus)
      else if al.status.Assigned? && RunOut(al, now) then Err(Error.Expired)
      else if !Finalizable(al, mode) then Err(NotFinalizable)
      else if al.debitTx.Some? || al.creditTx.Some? then Ok(db)
      else
        var w1 :- ConsumeFunds(db.wallet, Acct(r.user, IRR), ref);
        var w2 := OpenAll(w1, [Acct(r.user, IRR), Acct(d.user, IRR)]);
        var wallet :- PostAll(w2, SettleLegs(al, r.user, d.user), ref);
        Ok(db.(wallet := wallet, quota := Consume(db.quota, ref),
               allocations := db.allocations[id := al.(status := AllocationStatus.Settled,
                                                      debitTx := Some(|w2.ledger|), creditTx := Some(|w2.ledger| + 1))],
               withdrawals := db.withdrawals[al.withdrawal :=
                                             WithTotals(r, r.assignedTotal, r.settledTotal + al.amount)],
               deposits := db.deposits[al.deposit :=
                                       DepositWithTotals(d, d.remaining, d.assignedTotal, d.settledTotal + al.amount)]))
  }

  // ---------------------------------------------------------------- cancellation and expiry

  /** What cancelling and expiring have in common: the slice goes back to the withdrawal and to the deposit. */
  function GiveBack(db: Db, id: Id, status: AllocationStatus): Db
    requires Loaded(db, id)
  {
    var al := db.allocations[id];
    var (r, d) := (db.withdrawals[al.withdrawal], db.deposits[al.deposit]);
    db.(wallet := MergeHold(db.wallet, Acct(r.user, IRR), Withdraw(al.withdrawal), WithdrawAllocation(id), al.amount),
        quota := Merge(db.quota, Withdraw(al.withdrawal), WithdrawAllocation(id), al.amount),
        allocations := db.allocations[id := al.(status := status)],
        withdrawals := db.withdrawals[al.withdrawal := WithTotals(r, r.assignedTotal - al.amount, r.settledTotal)],
        deposits := db.deposits[al.deposit :=
          DepositWithTotals(d, Some(Remaining(d) + al.amount), d.assignedTotal - al.amount, d.settledTotal)])
  }

  function Cancel(db: Db, id: Id): (r: Result<Db>)
    ensures r.Ok? ==> Stays(db, r.value) && RemittancesAside(db, r.value) && r.value.quota.usages == db.quota.usages
    ensures r.Ok? ==> r.value.proofs == db.proofs && r.value.requests == db.requests
  {
    if !Loaded(db, id) then Err(NotFound)
    else if db.allocations[id].status.Cancelled? || db.allocations[id].status.Expired? then Ok(db)
    else if db.allocations[id].status.Settled? then Err(BadStatus)
    else Ok(GiveBack(db, id, AllocationStatus.Cancelled))
  }

  /** One transaction of the expiry sweep: an allocation that is no longer assigned is passed over. */
  function ExpireOne(db: Db, id: Id): (db': Db)
    ensures Stays(db, db') && RemittancesAside(db, db') && db'.quota.usages == db.quota.usages
    ensures db'.proofs == db.proofs && db'.requests == db.requests
  {
    if Loaded(db, id) && db.allocations[id].status.Assigned? then GiveBack(db, id, AllocationStatus.Expired) else db
  }

  function ExpireAll(db: Db, ids: seq<Id>): Db {
    if ids == [] then db else ExpireOne(ExpireAll(db, ids[..|ids| - 1]), ids[|ids| - 1])
  }

  /** What the sweep selects: assigned allocations whose time is past `now`. */
  predicate Overdue(db: Db, id: Id, now: int) {
    id in db.allocations && db.allocations[id].status.Assigned? && db.allocations[id].expiresAt < now
  }
}
