/** The tables of the platform, and what must hold between them after every transaction. */
module State {
  import opened Base
  import opened Sums
  import opened Policy
  import opened Accounts
  import opened Limits

  datatype Purpose = Direct | P2P

  /** Statuses of deposit and withdrawal requests. */
  datatype RequestStatus =
    | Pending
    | Approved
    | Rejected
    | Cancelled
    | Reversed
    | WaitingAssignment
    | PartiallyAssigned
    | FullyAssigned
    | PartiallySettled
    | Settled
    | Expired

  datatype Withdrawal = Withdrawal(
    user: UserId, amount: int, purpose: Purpose, status: RequestStatus,
    assignedTotal: int, settledTotal: int, tx: Option<nat>, created: Stamp)

  datatype DepositRequest = DepositRequest(
    user: UserId, amount: int, purpose: Purpose, status: RequestStatus,
    remaining: Option<int>, assignedTotal: int, settledTotal: int, tx: Option<nat>)

  datatype AllocationStatus =
    | Assigned
    | ProofSubmitted
    | ReceiverConfirmed
    | AdminVerified
    | Settled
    | Disputed
    | Cancelled
    | Expired

  /** The three flags say whether the timestamps are set. */
  datatype Allocation = Allocation(
    withdrawal: Id, deposit: Id, amount: int, status: AllocationStatus, expiresAt: int,
    proofSubmitted: bool, receiverConfirmed: bool, adminVerified: bool, debitTx: Option<nat>, creditTx: Option<nat>)

  /** A stored file attached to an allocation as proof of payment. */
  datatype Proof = Proof(allocation: Id, file: Id)

  datatype TradeSide = Buy | Sell

  datatype TradeStatus = Pending | Approved | Rejected | CancelledByAdmin

  datatype TradeRow = TradeRow(
    client: UserId, instr: Instrument, side: TradeSide, quantity: int, total: int,
    metric: Option<Metric>, product: Id, status: TradeStatus, reversed: bool, created: Stamp)

  datatype MovementKind = In | Out

  datatype MovementStatus = Pending | Approved | Rejected | Cancelled

  datatype Movement = Movement(
    user: UserId, kind: MovementKind, equiv: int, status: MovementStatus, created: Stamp)

  datatype RemittanceStatus = Pending | Partial | Completed | Cancelled

  datatype RemittanceRow = RemittanceRow(
    sender: UserId, receiver: UserId, onBehalfOf: Option<UserId>, instr: Instrument, amount: int,
    status: RemittanceStatus, grouped: bool, posted: bool, created: Stamp)

  /** `leg` settles `amount` of `source`. */
  datatype Link = Link(leg: Id, source: Id, amount: int)

  datatype AssignKey = AssignKey(key: nat, withdrawal: Id)

  /** The unique indexes under which a create request finds the one it repeats. */
  datatype RequestKey =
    | WithdrawalKey(user: UserId, key: nat)
    | TradeKey(user: UserId, key: nat)
    | QuoteKey(user: UserId, quote: Id)
    | MovementKey(user: UserId, key: nat)
    | RemittanceKey(user: UserId, key: nat)

  datatype Db = Db(
    wallet: Wallet, quota: Quota,
    withdrawals: map<Id, Withdrawal>, deposits: map<Id, DepositRequest>, allocations: map<Id, Allocation>,
    assignments: map<AssignKey, seq<Id>>, requests: map<RequestKey, Id>,
    trades: map<Id, TradeRow>, movements: map<Id, Movement>,
    remittances: map<Id, RemittanceRow>, links: seq<Link>, proofs: seq<Proof>, nextId: Id)

  const EMPTY := Db(Wallet(map[], map[], []), Quota(map[], map[]), map[], map[], map[], map[], map[], map[], map[],
                    map[], [], [], 0)

  /** A request made before under this key; one without a key finds nothing. */
  predicate Found(db: Db, key: Option<RequestKey>) {
    key.Some? && key.value in db.requests
  }

  /** A request made without a key is not indexed. */
  function Indexed(requests: map<RequestKey, Id>, key: Option<RequestKey>, id: Id): map<RequestKey, Id> {
    if key.Some? then requests[key.value := id] else requests
  }

  function Stored(db: Db, key: Option<RequestKey>, id: Id): Db {
    db.(requests := Indexed(db.requests, key, id))
  }

  // ---------------------------------------------------------------- what a request owns

  /** Everything in the books that carries one reference. */
  datatype View = View(funds: map<Acct, Hold>, quotas: map<UsageKey, Hold>, moves: seq<Move>)

  const NOTHING := View(map[], map[], [])

  function ViewOf(db: Db, ref: Ref): View {
    View(HoldsOf(db.wallet.holds, ref), LimitsOf(db.quota.limits, ref), MovesOf(db.wallet.ledger, ref))
  }

  function WithdrawalFate(r: Withdrawal): HoldStatus {
    if r.purpose.P2P? || r.status.Pending? then Reserved
    else if r.status.Approved? then Consumed
    else Released
  }

  function WithdrawalView(r: Withdrawal): View {
    var a := Acct(r.user, IRR);
    var h := Hold(r.amount - r.assignedTotal, WithdrawalFate(r));
    View(map[a := h], Both(r.user, WithdrawIrr, NotionalIrr, All, r.created, h),
         if r.purpose.Direct? && r.status.Approved? then [MoveOf(a, Minus(r.amount))] else [])
  }

  predicate Live(status: AllocationStatus) {
    !status.Cancelled? && !status.Expired?
  }

  function AllocationView(al: Allocation, receiver: UserId, payer: UserId, created: Stamp): View {
    if !Live(al.status) then NOTHING else
      var h := Hold(al.amount, if al.status.Settled? then Consumed else Reserved);
      View(map[Acct(receiver, IRR) := h], Both(receiver, WithdrawIrr, NotionalIrr, All, created, h),
           if al.status.Settled?
           then [MoveOf(Acct(receiver, IRR), Minus(al.amount)), MoveOf(Acct(payer, IRR), Plus(al.amount))] else [])
  }

  function DepositView(d: DepositRequest): View {
    var a := Acct(d.user, IRR);
    View(map[], map[],
         if d.status.Approved? then [MoveOf(a, Plus(d.amount))]
         else if d.status.Reversed? then [MoveOf(a, Plus(d.amount)), MoveOf(a, Minus(d.amount))]
         else [])
  }

  function TradeAccount(t: TradeRow): Acct {
    if t.side.Buy? then Acct(t.client, IRR) else Acct(t.client, t.instr)
  }

  function TradeAmount(t: TradeRow): int {
    if t.side.Buy? then t.total else t.quantity
  }

  function TradeAction(t: TradeRow): Action {
    if t.side.Buy? then TradeBuy else TradeSell
  }

  function TradeFate(t: TradeRow): HoldStatus {
    if t.status.Pending? then Reserved else if t.status.Approved? || t.reversed then Consumed else Released
  }

  /** The four postings of an approved trade, in posting order. */
  function TradeLegs(t: TradeRow): seq<(Acct, Signed)> {
    if t.side.Buy? then
      [(Acct(t.client, IRR), Minus(t.total)), (Acct(HOUSE, IRR), Plus(t.total)),
       (Acct(t.client, t.instr), Plus(t.quantity)), (Acct(HOUSE, t.instr), Minus(t.quantity))]
    else
      [(Acct(t.client, t.instr), Minus(t.quantity)), (Acct(HOUSE, t.instr), Plus(t.quantity)),
       (Acct(t.client, IRR), Plus(t.total)), (Acct(HOUSE, IRR), Minus(t.total))]
  }

  /** When the metric usage coincides with the notional one, the notional reservation was made first. */
  function TradeQuotas(t: TradeRow, status: HoldStatus): map<UsageKey, Hold> {
    var notional := Both(t.client, TradeAction(t), NotionalIrr, All, t.created, Hold(t.total, status));
    if t.metric.None? then notional else
      Both(t.client, TradeAction(t), t.metric.value, OfProduct(t.product), t.created, Hold(t.quantity, status)) +
      notional
  }

  function TradeMoves(t: TradeRow): seq<Move> {
    if t.reversed then MovesFor(TradeLegs(t)) + Undone(MovesFor(TradeLegs(t)))
    else if t.status.Approved? then MovesFor(TradeLegs(t))
    else []
  }

  function TradeView(t: TradeRow): View {
    View(map[TradeAccount(t) := Hold(TradeAmount(t), TradeFate(t))], TradeQuotas(t, TradeFate(t)), TradeMoves(t))
  }

  function MovementFate(m: Movement): HoldStatus {
    if m.status.Pending? then Reserved else if m.status.Approved? then Consumed else Released
  }

  function MovementAction(m: Movement): Action {
    if m.kind.In? then CustodyIn else CustodyOut
  }

  function MovementView(m: Movement): View {
    var h := Hold(m.equiv, MovementFate(m));
    View(if m.kind.Out? then map[Acct(m.user, GOLD) := h] else map[],
         Both(m.user, MovementAction(m), Weight750, OfInstrument(GOLD), m.created, h),
         if !m.status.Approved? then []
         else if m.kind.In? then [MoveOf(Acct(m.user, GOLD), Plus(m.equiv)), MoveOf(Acct(HOUSE, GOLD), Minus(m.equiv))]
         else [MoveOf(Acct(m.user, GOLD), Minus(m.equiv)), MoveOf(Acct(HOUSE, GOLD), Plus(m.equiv))])
  }

  function RemittanceMoves(r: RemittanceRow): seq<Move> {
    [MoveOf(Acct(r.sender, r.instr), Minus(r.amount)), MoveOf(Acct(r.receiver, r.instr), Plus(r.amount))]
  }

  /** A remittance made on its own holds its amount; what became of the hold is `fate`. */
  function RemittanceView(r: RemittanceRow, fate: HoldStatus): View {
    var h := Hold(r.amount, fate);
    View(if r.grouped then map[] else map[Acct(r.sender, r.instr) := h],
         if r.grouped then map[] else Both(r.sender, RemittanceSend, NotionalIrr, OfInstrument(r.instr), r.created, h),
         if r.posted then RemittanceMoves(r) else [])
  }

  /** A settlement link can complete a remittance whose hold is still reserved, or already released,
      so only these statuses decide the fate of the hold. */
  predicate RemittanceFate(r: RemittanceRow, fate: HoldStatus) {
    && (r.posted <==> fate == Consumed)
    && (r.status.Pending? ==> fate == Reserved)
    && (r.status.Cancelled? ==> fate == Released)
  }

  /** What carries `ref` in the books is exactly what the status of its request implies. */
  ghost predicate Explained(db: Db, ref: Ref) {
    var v := ViewOf(db, ref);
    match ref
    case Withdraw(id) => v == if id in db.withdrawals then WithdrawalView(db.withdrawals[id]) else NOTHING
    case WithdrawAllocation(id) =>
      if id !in db.allocations then v == NOTHING else
        var al := db.allocations[id];
        && al.withdrawal in db.withdrawals && al.deposit in db.deposits
        && v == AllocationView(al, db.withdrawals[al.withdrawal].user, db.deposits[al.deposit].user,
                               db.withdrawals[al.withdrawal].created)
    case Deposit(id) => v == if id in db.deposits then DepositView(db.deposits[id]) else NOTHING
    case Trade(id) => v == if id in db.trades then TradeView(db.trades[id]) else NOTHING
    case Custody(id) => v == if id in db.movements then MovementView(db.movements[id]) else NOTHING
    case Remittance(id) =>
      if id !in db.remittances then v == NOTHING else
        exists fate :: RemittanceFate(db.remittances[id], fate) && v == RemittanceView(db.remittances[id], fate)
    case Adjustment(_) => v.funds == map[] && v.quotas == map[]
  }

  // ---------------------------------------------------------------- totals of the P2P protocol

  /** The status that the totals of a P2P request imply. */
  function DeriveStatus(amount: int, assignedTotal: int, settledTotal: int): RequestStatus {
    if settledTotal >= amount then RequestStatus.Settled
    else if settledTotal > 0 then PartiallySettled
    else if assignedTotal >= amount then FullyAssigned
    else if assignedTotal > 0 then PartiallyAssigned
    else WaitingAssignment
  }

  function AssignedTo(withdrawal: Id): (Id, Allocation) -> int {
    (id: Id, al: Allocation) => if al.withdrawal == withdrawal && Live(al.status) then al.amount else 0
  }

  function SettledTo(withdrawal: Id): (Id, Allocation) -> int {
    (id: Id, al: Allocation) => if al.withdrawal == withdrawal && al.status.Settled? then al.amount else 0
  }

  function AssignedFrom(deposit: Id): (Id, Allocation) -> int {
    (id: Id, al: Allocation) => if al.deposit == deposit && Live(al.status) then al.amount else 0
  }

  function SettledFrom(deposit: Id): (Id, Allocation) -> int {
    (id: Id, al: Allocation) => if al.deposit == deposit && al.status.Settled? then al.amount else 0
  }

  ghost predicate WithdrawalTotals(id: Id, r: Withdrawal, allocations: map<Id, Allocation>) {
    && r.assignedTotal == Total(allocations, AssignedTo(id))
    && r.settledTotal == Total(allocations, SettledTo(id))
    && r.assignedTotal <= r.amount
    && (r.purpose.P2P? ==> r.status == DeriveStatus(r.amount, r.assignedTotal, r.settledTotal))
  }

  /** Nothing checks that the amount of a deposit is positive. One that is not is never assigned, and keeps
      the status it was created with. */
  ghost predicate DepositTotals(id: Id, d: DepositRequest, allocations: map<Id, Allocation>) {
    && d.assignedTotal == Total(allocations, AssignedFrom(id))
    && d.settledTotal == Total(allocations, SettledFrom(id))
    && (d.purpose.P2P? ==>
          && d.remaining == Some(d.amount - d.assignedTotal)
          && (d.amount > 0 ==>
              d.assignedTotal <= d.amount && d.status == DeriveStatus(d.amount, d.assignedTotal, d.settledTotal))
          && (d.amount <= 0 ==> d.assignedTotal == 0 && d.status == WaitingAssignment))
  }

  ghost predicate WithdrawalsTotal(withdrawals: map<Id, Withdrawal>, allocations: map<Id, Allocation>) {
    forall id <- withdrawals :: WithdrawalTotals(id, withdrawals[id], allocations)
  }

  ghost predicate DepositsTotal(deposits: map<Id, DepositRequest>, allocations: map<Id, Allocation>) {
    forall id <- deposits :: DepositTotals(id, deposits[id], allocations)
  }

  ghost predicate TotalsSound(db: Db) {
    WithdrawalsTotal(db.withdrawals, db.allocations) && DepositsTotal(db.deposits, db.allocations)
  }

  // ---------------------------------------------------------------- single rows

  predicate WithdrawalSound(r: Withdrawal) {
    && r.amount > 0
    && (r.purpose.Direct? ==>
          && r.assignedTotal == 0 && r.settledTotal == 0
          && (r.status.Pending? || r.status.Approved? || r.status.Rejected? || r.status.Cancelled?)
          && (r.tx.Some? <==> r.status.Approved?))
    && (r.purpose.P2P? ==> r.tx.None?)
  }

  predicate DepositSound(d: DepositRequest, ledger: seq<Posting>) {
    && (d.purpose.Direct? ==>
          && d.remaining.None?
          && (d.status.Pending? || d.status.Approved? || d.status.Rejected? || d.status.Cancelled? ||
              d.status.Reversed?)
          && (d.tx.Some? <==> d.status.Approved? || d.status.Reversed?)
          && (d.tx.Some? ==> d.tx.value < |ledger| && ledger[d.tx.value].acct == Acct(d.user, IRR)))
    && (d.purpose.P2P? ==> d.tx.None?)
  }

  /** The status of an allocation agrees with its timestamps. */
  predicate Consistent(al: Allocation) {
    && (al.receiverConfirmed || al.adminVerified ==> al.proofSubmitted)
    && match al.status
       case Assigned | Expired => !al.proofSubmitted
       case ProofSubmitted => al.proofSubmitted && !al.receiverConfirmed && !al.adminVerified
       case ReceiverConfirmed => al.receiverConfirmed && !al.adminVerified
       case AdminVerified => al.adminVerified
       case Settled => al.receiverConfirmed || al.adminVerified
       case Disputed => al.proofSubmitted
       case Cancelled => true
  }

  /** An allocation is between two P2P requests, and has its two postings once it is settled. */
  predicate AllocationSound(al: Allocation, withdrawals: map<Id, Withdrawal>, deposits: map<Id, DepositRequest>) {
    && al.amount > 0
    && al.withdrawal in withdrawals && withdrawals[al.withdrawal].purpose.P2P?
    && al.deposit in deposits && deposits[al.deposit].purpose.P2P?
    && (al.debitTx.Some? <==> al.status.Settled?)
    && (al.creditTx.Some? <==> al.status.Settled?)
    && Consistent(al)
  }

  predicate TradeSound(t: TradeRow) {
    && t.quantity > 0 && t.total > 0
    && (t.reversed ==> t.status.CancelledByAdmin?)
  }

  predicate WithdrawalsSound(withdrawals: map<Id, Withdrawal>) {
    forall id <- withdrawals :: WithdrawalSound(withdrawals[id])
  }

  predicate DepositsSound(deposits: map<Id, DepositRequest>, ledger: seq<Posting>) {
    forall id <- deposits :: DepositSound(deposits[id], ledger)
  }

  predicate AllocationsSound(allocations: map<Id, Allocation>, withdrawals: map<Id, Withdrawal>,
                             deposits: map<Id, DepositRequest>)
  {
    forall id <- allocations :: AllocationSound(allocations[id], withdrawals, deposits)
  }

  predicate TradesSound(trades: map<Id, TradeRow>) {
    forall id <- trades :: TradeSound(trades[id])
  }

  predicate MovementsSound(movements: map<Id, Movement>) {
    forall id <- movements :: movements[id].equiv >= 0
  }

  /** Only an allocation to which proof was submitted has any. Deleting a file can take them all away again. */
  predicate ProofsSound(proofs: seq<Proof>, allocations: map<Id, Allocation>) {
    forall p <- proofs :: p.allocation in allocations && allocations[p.allocation].proofSubmitted
  }

  /** How many files are attached to an allocation as proof, one counted as often as it is attached. */
  function ProofsOf(proofs: seq<Proof>, allocation: Id): nat {
    if proofs == [] then 0 else
      var last := proofs[|proofs| - 1];
      ProofsOf(proofs[..|proofs| - 1], allocation) + if last.allocation == allocation then 1 else 0
  }

  predicate RowsSound(db: Db) {
    && WithdrawalsSound(db.withdrawals)
    && DepositsSound(db.deposits, db.wallet.ledger)
    && AllocationsSound(db.allocations, db.withdrawals, db.deposits)
    && TradesSound(db.trades)
    && MovementsSound(db.movements)
    && ProofsSound(db.proofs, db.allocations)
  }

  // ---------------------------------------------------------------- remittances and links

  function LinkedInto(links: seq<Link>, source: Id): int {
    if links == [] then 0 else
      var l := links[|links| - 1];
      LinkedInto(links[..|links| - 1], source) + if l.source == source then l.amount else 0
  }

  function LinkedFrom(links: seq<Link>, leg: Id): int {
    if links == [] then 0 else
      var l := links[|links| - 1];
      LinkedFrom(links[..|links| - 1], leg) + if l.leg == leg then l.amount else 0
  }

  /** Links into and from a remittance stay within its amount; once it has a link into it, its status says
      exactly whether the links cover the amount. */
  predicate RemittanceSound(id: Id, r: RemittanceRow, links: seq<Link>) {
    var settled := LinkedInto(links, id);
    && r.amount > 0 && r.sender != r.receiver
    && (r.grouped ==> r.posted)
    && 0 <= settled <= r.amount
    && 0 <= LinkedFrom(links, id) <= r.amount
    && (settled > 0 ==> r.status == if settled == r.amount then Completed else Partial)
    && (settled == 0 ==> if r.posted then r.status.Completed? else r.status.Pending? || r.status.Cancelled?)
  }

  predicate LinksSound(remittances: map<Id, RemittanceRow>, links: seq<Link>) {
    && (forall id <- remittances :: RemittanceSound(id, remittances[id], links))
    && (forall j | 0 <= j < |links| ::
          links[j].amount > 0 && links[j].leg in remittances && links[j].source in remittances)
  }

  // ---------------------------------------------------------------- the whole database

  predicate Below<V>(table: map<Id, V>, next: Id) {
    forall id <- table :: id < next
  }

  /** Identifiers in use are below the next one to be handed out. */
  predicate IdsSound(db: Db) {
    && Below(db.withdrawals, db.nextId) && Below(db.deposits, db.nextId) && Below(db.allocations, db.nextId)
    && Below(db.trades, db.nextId) && Below(db.movements, db.nextId) && Below(db.remittances, db.nextId)
  }

  /** Only postings of reversed trades point at an earlier posting, one of the same trade. */
  predicate ReversalsSound(ledger: seq<Posting>, trades: map<Id, TradeRow>) {
    forall j | 0 <= j < |ledger| && ledger[j].reversalOf.Some? ::
      && ledger[j].reversalOf.value < j
      && ledger[j].ref.Trade? && ledger[j].ref == ledger[ledger[j].reversalOf.value].ref
      && ledger[j].ref.id in trades && trades[ledger[j].ref.id].reversed
  }

  function DepositedBy(): (Id, DepositRequest) -> int {
    (id: Id, d: DepositRequest) => if d.status.Approved? then d.amount else 0
  }

  function WithdrawnBy(): (Id, Withdrawal) -> int {
    (id: Id, r: Withdrawal) => if r.status.Approved? then r.amount else 0
  }

  /** What came in from outside and is still in: approved deposits less approved withdrawals, in IRR,
      and adjustments made by an administrator. */
  ghost function Issued(db: Db, i: Instrument): int {
    Adjusted(db.wallet.ledger, i) +
    if i == IRR then Total(db.deposits, DepositedBy()) - Total(db.withdrawals, WithdrawnBy()) else 0
  }

  ghost predicate Conserved(db: Db) {
    forall i :: Held(db.wallet, i) == Issued(db, i)
  }

  ghost predicate Inv(db: Db) {
    && Sound(db.wallet)
    && QuotaSound(db.quota)
    && IdsSound(db)
    && (forall ref :: Explained(db, ref))
    && RowsSound(db)
    && TotalsSound(db)
    && LinksSound(db.remittances, db.links)
    && ReversalsSound(db.wallet.ledger, db.trades)
    && Conserved(db)
  }
}
