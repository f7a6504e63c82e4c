/** What the P2P protocol promises over its life: evidence for every settlement, final states, the actions it offers,
    and the expiry sweep. */
module P2PProtocol {
  import opened Base
  import opened Sums
  import opened Accounts
  import opened Limits
  import opened State
  import opened Frames
  import opened P2P
  import opened P2PInvariant
  import Deposits

  // ---------------------------------------------------------------- conservation of a withdrawal

  /** Amount of a slice that is still held in the wallet on account `a`. */
  function SliceHeld(holds: map<HoldKey, Hold>, w: Id, a: Acct): (Id, Allocation) -> int {
    (id: Id, al: Allocation) =>
      var k := HoldKey(WithdrawAllocation(id), a);
      if al.withdrawal == w && k in holds && holds[k].status == Reserved then holds[k].amount else 0
  }

  function UnsettledTo(w: Id): (Id, Allocation) -> int {
    (id: Id, al: Allocation) => if al.withdrawal == w && Live(al.status) && !al.status.Settled? then al.amount else 0
  }

  lemma SliceHeldAt(db: Db, w: Id, id: Id)
    requires Inv(db) && w in db.withdrawals && id in db.allocations
    ensures SliceHeld(db.wallet.holds, w, Acct(db.withdrawals[w].user, IRR))(id, db.allocations[id])
         == UnsettledTo(w)(id, db.allocations[id])
  {
    hide Inv, HoldsOf, LimitsOf, MovesOf, SliceVolume, SliceMoves, AllocationSound;
    SliceKnown(db, id);
    HoldsRead(db.wallet.holds, WithdrawAllocation(id));
    var a := Acct(db.withdrawals[w].user, IRR);
    assert a in HoldsOf(db.wallet.holds, WithdrawAllocation(id)) <==>
           HoldKey(WithdrawAllocation(id), a) in db.wallet.holds;
  }

  lemma {:induction false} SameWeights(all: map<Id, Allocation>, f: (Id, Allocation) -> int, g: (Id, Allocation) -> int)
    requires forall id <- all :: f(id, all[id]) == g(id, all[id])
    ensures Total(all, f) == Total(all, g)
  {
    Monotone(all, f, g);
    Monotone(all, g, f);
  }

  lemma {:induction false} UnsettledSum(all: map<Id, Allocation>, w: Id)
    ensures Total(all, UnsettledTo(w)) == Total(all, AssignedTo(w)) - Total(all, SettledTo(w))
    decreases |all|
  {
    if all != map[] {
      var k := Pick(all);
      UnsettledSum(all - {k}, w);
      Extract(all, UnsettledTo(w), k);
      Extract(all, AssignedTo(w), k);
      Extract(all, SettledTo(w), k);
    }
  }

  /** What the reservation of the withdrawal and the slices of its allocations still hold is the amount less what
      has settled: assigning, cancelling and expiring only move it about. */
  lemma HeldIsUnsettled(db: Db, w: Id)
    requires Inv(db) && w in db.withdrawals && db.withdrawals[w].purpose.P2P?
    ensures var (r, k) := (db.withdrawals[w], HoldKey(Withdraw(w), Acct(db.withdrawals[w].user, IRR)));
            && k in db.wallet.holds && db.wallet.holds[k].status == Reserved
            && db.wallet.holds[k].amount + Total(db.allocations, SliceHeld(db.wallet.holds, w, k.acct)) ==
               r.amount - r.settledTotal
  {
    hide Inv, HoldsOf, LimitsOf, MovesOf, Total, SliceHeld, UnsettledTo, Both, DeriveStatus;
    var a := Acct(db.withdrawals[w].user, IRR);
    UnassignedHeld(db, w);
    HoldsRead(db.wallet.holds, Withdraw(w));
    assert a in HoldsOf(db.wallet.holds, Withdraw(w));
    forall id <- db.allocations
      ensures SliceHeld(db.wallet.holds, w, a)(id, db.allocations[id]) == UnsettledTo(w)(id, db.allocations[id]) {
      SliceHeldAt(db, w, id);
    }
    SameWeights(db.allocations, SliceHeld(db.wallet.holds, w, a), UnsettledTo(w));
    UnsettledSum(db.allocations, w);
    TotalsKnown(db, w);
  }

  lemma TotalsKnown(db: Db, w: Id)
    requires Inv(db) && w in db.withdrawals
    ensures WithdrawalTotals(w, db.withdrawals[w], db.allocations)
  {
    hide Sound, QuotaSound, Explained, RowsSound, LinksSound, ReversalsSound, IdsSound, Conserved, DepositsTotal,
         WithdrawalTotals;
  }

  /** The status of a P2P deposit is derived from its totals exactly when its amount is positive. */
  lemma DepositStatusIff(db: Db, d: Id)
    requires Inv(db) && d in db.deposits && db.deposits[d].purpose.P2P?
    ensures var p := db.deposits[d];
            p.status == DeriveStatus(p.amount, p.assignedTotal, p.settledTotal) <==> p.amount > 0
  {
    hide Inv, Sound, QuotaSound, Explained;
    TotalsOrdered(db, 0, d);
    DepositKnown(db, d);
    if db.deposits[d].amount <= 0 {
      IdleDeposit(db, d);
    }
  }

  lemma IdleDeposit(db: Db, d: Id)
    requires Inv(db) && d in db.deposits && db.deposits[d].purpose.P2P? && db.deposits[d].amount <= 0
    ensures db.deposits[d].status == WaitingAssignment
  {
    hide Sound, QuotaSound, Explained, RowsSound, LinksSound, ReversalsSound, IdsSound, Conserved, WithdrawalsTotal,
         Total;
    assert DepositTotals(d, db.deposits[d], db.allocations);
  }

  /** What each status of a P2P request says, in amounts. */
  predicate Labelled(status: RequestStatus, amount: int, assignedTotal: int, settledTotal: int) {
    && (status.Settled? <==> settledTotal == amount)
    && (status.PartiallySettled? <==> 0 < settledTotal < amount)
    && (status.FullyAssigned? <==> settledTotal == 0 && assignedTotal == amount)
    && (status.PartiallyAssigned? <==> settledTotal == 0 && 0 < assignedTotal < amount)
    && (status.WaitingAssignment? <==> assignedTotal == 0)
  }

  /** The status of a P2P withdrawal says how much of it its allocations have assigned and settled. */
  lemma WithdrawalLabelled(db: Db, w: Id)
    requires Inv(db) && w in db.withdrawals && db.withdrawals[w].purpose.P2P?
    ensures var r := db.withdrawals[w];
            && r.assignedTotal == Total(db.allocations, AssignedTo(w))
            && r.settledTotal == Total(db.allocations, SettledTo(w))
            && Labelled(r.status, r.amount, Total(db.allocations, AssignedTo(w)), Total(db.allocations, SettledTo(w)))
  {
    hide Inv, Total, HoldsOf, LimitsOf, MovesOf, Both;
    TotalsKnown(db, w);
    TotalsOrdered(db, w, 0);
    UnassignedHeld(db, w);
  }

  /** And so does that of a P2P deposit of a positive amount. */
  lemma DepositLabelled(db: Db, d: Id)
    requires Inv(db) && d in db.deposits && db.deposits[d].purpose.P2P? && db.deposits[d].amount > 0
    ensures var p := db.deposits[d];
            && p.assignedTotal == Total(db.allocations, AssignedFrom(d))
            && p.settledTotal == Total(db.allocations, SettledFrom(d))
            && Labelled(p.status, p.amount, Total(db.allocations, AssignedFrom(d)),
                        Total(db.allocations, SettledFrom(d)))
  {
    hide Inv, Total;
    DepositSumsKnown(db, d);
    TotalsOrdered(db, 0, d);
    DepositKnown(db, d);
  }

  lemma DepositSumsKnown(db: Db, d: Id)
    requires Inv(db) && d in db.deposits
    ensures db.deposits[d].assignedTotal == Total(db.allocations, AssignedFrom(d))
    ensures db.deposits[d].settledTotal == Total(db.allocations, SettledFrom(d))
  {
    hide Sound, QuotaSound, Explained, RowsSound, LinksSound, ReversalsSound, IdsSound, Conserved, WithdrawalsTotal,
         Total, DeriveStatus;
    assert DepositTotals(d, db.deposits[d], db.allocations);
  }

  /** Nothing checks the amount of a deposit: one of nothing, or less, is created, and waits for assignment though its
      totals say it is settled. */
  lemma DepositOfNothing(db: Db, user: UserId, amount: int)
    requires amount <= 0
    ensures var (db', id) := (Deposits.Create(db, user, amount, Purpose.P2P), db.nextId);
            && id in db'.deposits && db'.deposits[id].status == WaitingAssignment
            && DeriveStatus(amount, db'.deposits[id].assignedTotal, db'.deposits[id].settledTotal) ==
               RequestStatus.Settled
  {
  }

  // ---------------------------------------------------------------- how one allocation evolves

  /** The confirmations that a settlement rests on: in each mode exactly those the mode demands. */
  predicate Evidence(al: Allocation, mode: Mode) {
    && al.proofSubmitted
    && match mode
       case ReceiverOnly => al.receiverConfirmed && !al.adminVerified
       case AdminOnly => al.adminVerified && !al.receiverConfirmed
       case ReceiverOrAdmin => al.receiverConfirmed || al.adminVerified
       case ReceiverAndAdmin => al.receiverConfirmed && al.adminVerified
  }

  predicate ModeSound(db: Db, mode: Mode) {
    forall id <- db.allocations ::
      && (mode.AdminOnly? ==> !db.allocations[id].receiverConfirmed)
      && (db.allocations[id].status.Settled? ==> Evidence(db.allocations[id], mode))
  }

  /** The moves the protocol has. Settled, cancelled and expired allocations have none; disputed ones can only be
      cancelled. */
  predicate CanBecome(s: AllocationStatus, t: AllocationStatus, mode: Mode) {
    s == t ||
    match s
    case Assigned => t.ProofSubmitted? || t.Cancelled? || t.Expired?
    case ProofSubmitted => (t.ReceiverConfirmed? && !mode.AdminOnly?) || t.AdminVerified? || t.Disputed? || t.Cancelled?
    case ReceiverConfirmed =>
      t.AdminVerified? || t.Disputed? || t.Cancelled? || (t.Settled? && (mode.ReceiverOnly? || mode.ReceiverOrAdmin?))
    case AdminVerified => (t.Disputed? && !mode.AdminOnly?) || t.Cancelled? || (t.Settled? && !mode.ReceiverOnly?)
    case Disputed => t.Cancelled?
    case Settled | Cancelled | Expired => false
  }

  /** Where a status can get to in any number of moves. */
  predicate Reaches(s: AllocationStatus, t: AllocationStatus, mode: Mode) {
    s == t ||
    match s
    case Assigned | ProofSubmitted =>
      !t.Assigned? && (t.Expired? ==> s.Assigned?) && (t.ReceiverConfirmed? ==> !mode.AdminOnly?)
    case ReceiverConfirmed => t.AdminVerified? || t.Disputed? || t.Cancelled? || t.Settled?
    case AdminVerified => (t.Disputed? && !mode.AdminOnly?) || t.Cancelled? || (t.Settled? && !mode.ReceiverOnly?)
    case Disputed => t.Cancelled?
    case Settled | Cancelled | Expired => false
  }

  predicate Evolved(al: Allocation, al': Allocation, mode: Mode) {
    && al'.withdrawal == al.withdrawal && al'.deposit == al.deposit && al'.amount == al.amount &&
       al'.expiresAt == al.expiresAt
    && CanBecome(al.status, al'.status, mode)
    && (al.proofSubmitted ==> al'.proofSubmitted)
    && (!Live(al.status) || al.status.Settled? ==> al' == al)
    && (mode.AdminOnly? && !al.receiverConfirmed ==> !al'.receiverConfirmed)
    && (al'.status.Settled? && !al.status.Settled? && (mode.AdminOnly? ==> !al.receiverConfirmed) ==>
        Evidence(al', mode))
  }

  ghost predicate Evolves(db: Db, db': Db, mode: Mode) {
    && (forall id <- db.allocations :: id in db'.allocations && Evolved(db.allocations[id], db'.allocations[id], mode))
    && (forall id <- db'.allocations | id !in db.allocations ::
        db'.allocations[id].status.Assigned? && !db'.allocations[id].receiverConfirmed)
  }

  /** No allocation is newly marked as having had proof submitted. */
  ghost predicate NoneMarked(db: Db, db': Db) {
    forall id <- db'.allocations | db'.allocations[id].proofSubmitted ::
           id in db.allocations && db.allocations[id].proofSubmitted
  }

  /** What the protocol itself rests on: identifiers in use are below the next one, statuses agree with timestamps, and
      only what was submitted is attached. */
  predicate ProtocolSound(db: Db) {
    && Below(db.allocations, db.nextId)
    && (forall id <- db.allocations :: Consistent(db.allocations[id]))
    && ProofsSound(db.proofs, db.allocations)
  }

  lemma InvGivesProtocol(db: Db)
    requires Inv(db)
    ensures ProtocolSound(db)
  {
    hide Sound, QuotaSound, Explained, TotalsSound, LinksSound, ReversalsSound, Conserved;
    forall id <- db.allocations ensures Consistent(db.allocations[id]) {
      assert AllocationSound(db.allocations[id], db.withdrawals, db.deposits);
    }
  }

  lemma EvolvesKeepsMode(db: Db, db': Db, mode: Mode)
    requires ModeSound(db, mode) && Evolves(db, db', mode)
    ensures ModeSound(db', mode)
  {
    hide Evidence;
    forall id <- db'.allocations
      ensures mode.AdminOnly? ==> !db'.allocations[id].receiverConfirmed
      ensures db'.allocations[id].status.Settled? ==> Evidence(db'.allocations[id], mode)
    {
      if id in db.allocations {
        assert Evolved(db.allocations[id], db'.allocations[id], mode);
      }
    }
  }

  lemma SoundAt(db: Db, id: Id)
    requires Inv(db) && id in db.allocations
    ensures AllocationSound(db.allocations[id], db.withdrawals, db.deposits)
  {
    hide Inv, HoldsOf, LimitsOf, MovesOf, SliceFunds, SliceVolume, SliceMoves, AllocationSound;
    SliceKnown(db, id);
  }

  lemma Unmoved(db: Db, db': Db, mode: Mode)
    requires db'.allocations == db.allocations
    ensures Evolves(db, db', mode) && NoneMarked(db, db')
    ensures ProtocolSound(db) && db.nextId <= db'.nextId && (forall p <- db'.proofs :: p in db.proofs) ==>
            ProtocolSound(db')
  {
  }

  lemma OneEvolved(db: Db, db': Db, id: Id, mode: Mode)
    requires id in db.allocations && id in db'.allocations &&
             db'.allocations == db.allocations[id := db'.allocations[id]]
    requires Evolved(db.allocations[id], db'.allocations[id], mode)
    ensures Evolves(db, db', mode)
    ensures db'.allocations[id].proofSubmitted == db.allocations[id].proofSubmitted ==> NoneMarked(db, db')
    ensures && ProtocolSound(db) && Consistent(db'.allocations[id]) && db'.nextId == db.nextId
            && (forall p <- db'.proofs ::
                p in db.proofs || (p.allocation == id && db'.allocations[id].proofSubmitted)) ==>
              ProtocolSound(db')
  {
    hide Evolved, Consistent;
    EvolvedProof(db.allocations[id], db'.allocations[id], mode);
    forall k <- db.allocations | k != id ensures Evolved(db.allocations[k], db'.allocations[k], mode) {
      EvolvedSame(db.allocations[k], mode);
    }
  }

  lemma EvolvedProof(al: Allocation, al': Allocation, mode: Mode)
    requires Evolved(al, al', mode)
    ensures al.proofSubmitted ==> al'.proofSubmitted
  {
  }

  lemma EvolvedSame(al: Allocation, mode: Mode)
    ensures Evolved(al, al, mode)
  {
  }

  lemma SubmitProofEvolves(db: Db, id: Id, user: UserId, files: seq<Id>, filesFound: bool, filesOwned: bool, now: int,
                           mode: Mode)
    requires ProtocolSound(db) && SubmitProof(db, id, user, files, filesFound, filesOwned, now).Ok?
    ensures var db' := SubmitProof(db, id, user, files, filesFound, filesOwned, now).value;
            && Evolves(db, db', mode) && ProtocolSound(db')
            && id in db'.allocations && db'.allocations[id].proofSubmitted &&
               db'.allocations == db.allocations[id := db'.allocations[id]]
            && db'.proofs == db.proofs + ProofsFor(id, files) && ProofsOf(db.proofs, id) < 2 && files != []
  {
    hide Evolves, ProofsOf;
    OneEvolved(db, SubmitProof(db, id, user, files, filesFound, filesOwned, now).value, id, mode);
  }

  lemma ReceiverConfirmEvolves(db: Db, id: Id, user: UserId, confirmed: bool, mode: Mode)
    requires ProtocolSound(db) && ReceiverConfirm(db, id, user, confirmed, mode).Ok?
    ensures var db' := ReceiverConfirm(db, id, user, confirmed, mode).value;
            Evolves(db, db', mode) && ProtocolSound(db') && NoneMarked(db, db')
  {
    hide Evolves;
    OneEvolved(db, ReceiverConfirm(db, id, user, confirmed, mode).value, id, mode);
  }

  lemma AdminVerifyEvolves(db: Db, id: Id, approved: bool, mode: Mode)
    requires ProtocolSound(db) && AdminVerify(db, id, approved).Ok?
    ensures var db' := AdminVerify(db, id, approved).value;
            Evolves(db, db', mode) && ProtocolSound(db') && NoneMarked(db, db')
  {
    hide Evolves;
    OneEvolved(db, AdminVerify(db, id, approved).value, id, mode);
  }

  /** All that settling writes of allocations, and when. */
  lemma FinalizeRow(db: Db, id: Id, mode: Mode, now: int)
    requires Finalize(db, id, mode, now).Ok?
    ensures var db' := Finalize(db, id, mode, now).value;
            && id in db.allocations && db'.nextId == db.nextId && db'.proofs == db.proofs
            && (db'.allocations == db.allocations ||
                var al := db.allocations[id];
                && Live(al.status) && !al.status.Settled? && Finalizable(al, mode) && id in db'.allocations
                && db'.allocations == db.allocations[id := db'.allocations[id]]
                && db'.allocations[id] == al.(status := AllocationStatus.Settled,
                                              debitTx := db'.allocations[id].debitTx,
                                              creditTx := db'.allocations[id].creditTx))
  {
    hide ConsumeFunds, OpenAll, PostAll, Consume, DeriveStatus, Finalizable, Stays, RemittancesAside, Decided;
  }

  lemma SettlingEvolves(al: Allocation, al': Allocation, mode: Mode)
    requires Consistent(al) && Live(al.status) && !al.status.Settled? && Finalizable(al, mode)
    requires al' == al.(status := AllocationStatus.Settled, debitTx := al'.debitTx, creditTx := al'.creditTx)
    ensures Evolved(al, al', mode) && Consistent(al')
  {
  }

  /** A settlement moves along the protocol and rests on the evidence its mode demands. */
  lemma FinalizeEvolves(db: Db, id: Id, mode: Mode, now: int)
    requires ProtocolSound(db) && Finalize(db, id, mode, now).Ok?
    ensures var db' := Finalize(db, id, mode, now).value;
            Evolves(db, db', mode) && ProtocolSound(db') && NoneMarked(db, db')
  {
    hide Finalize, Consistent, Evolved, Evolves, Finalizable;
    var db' := Finalize(db, id, mode, now).value;
    FinalizeRow(db, id, mode, now);
    if db'.allocations != db.allocations {
      SettlingEvolves(db.allocations[id], db'.allocations[id], mode);
      OneEvolved(db, db', id, mode);
    } else {
      Unmoved(db, db', mode);
    }
  }

  lemma CancelEvolves(db: Db, id: Id, mode: Mode)
    requires ProtocolSound(db) && Cancel(db, id).Ok?
    ensures var db' := Cancel(db, id).value;
            Evolves(db, db', mode) && ProtocolSound(db') && NoneMarked(db, db')
  {
    hide MergeHold, Merge, DeriveStatus, Evolves;
    var db' := Cancel(db, id).value;
    if db'.allocations != db.allocations {
      OneEvolved(db, db', id, mode);
    } else {
      Unmoved(db, db', mode);
    }
  }

  lemma ExpireOneEvolves(db: Db, id: Id, mode: Mode)
    requires ProtocolSound(db)
    ensures var db' := ExpireOne(db, id);
            Evolves(db, db', mode) && ProtocolSound(db') && NoneMarked(db, db')
  {
    hide MergeHold, Merge, DeriveStatus, Evolves;
    var db' := ExpireOne(db, id);
    if db'.allocations != db.allocations {
      OneEvolved(db, db', id, mode);
    } else {
      Unmoved(db, db', mode);
    }
  }

  lemma AssignOneNew(db: Db, w: Id, item: Item, expiresAt: int)
    requires ProtocolSound(db) && w in db.withdrawals && AssignOne(db, w, item, expiresAt).Ok?
    ensures var db' := AssignOne(db, w, item, expiresAt).value;
            && ProtocolSound(db') && db'.nextId == db.nextId + 1 && db.nextId !in db.allocations
            && db'.allocations == db.allocations[db.nextId := NewAllocation(w, item, expiresAt)]
  {
    hide SplitHold, Split, DeriveStatus;
  }

  /** An assignment makes new allocations and leaves the old ones as they are. */
  lemma {:induction false} AssignAllNew(db: Db, w: Id, items: seq<Item>, expiresAt: int)
    requires ProtocolSound(db) && w in db.withdrawals && AssignAll(db, w, items, expiresAt).Ok?
    ensures var db' := AssignAll(db, w, items, expiresAt).value;
            && ProtocolSound(db') && db.nextId <= db'.nextId
            && (forall id <- db.allocations :: id in db'.allocations && db'.allocations[id] == db.allocations[id])
            && (forall id <- db'.allocations | id !in db.allocations ::
                  && db'.allocations[id].status.Assigned? && !db'.allocations[id].receiverConfirmed
                  && !db'.allocations[id].proofSubmitted)
  {
    hide AssignOne, Consistent;
    if items != [] {
      var (front, last) := (items[..|items| - 1], items[|items| - 1]);
      AssignAllNew(db, w, front, expiresAt);
      AssignOneNew(AssignAll(db, w, front, expiresAt).value, w, last, expiresAt);
    }
  }

  lemma AssignEvolves(db: Db, w: Id, items: seq<Item>, key: Option<nat>, destinationOk: bool, expiresAt: int,
                      mode: Mode)
    requires ProtocolSound(db) && Assign(db, w, items, key, destinationOk, expiresAt).Ok?
    ensures var db' := Assign(db, w, items, key, destinationOk, expiresAt).value.0;
            Evolves(db, db', mode) && ProtocolSound(db') && NoneMarked(db, db')
  {
    hide AssignAll, Consistent, Evolved;
    var db' := Assign(db, w, items, key, destinationOk, expiresAt).value.0;
    forall al {
      EvolvedSame(al, mode);
    }
    if !Replays(db, w, key) {
      AssignAllNew(db, w, items, expiresAt);
    }
  }

  // ---------------------------------------------------------------- what an answer leaves behind

  /** Nothing but this row is written. */
  predicate WritesRow(db: Db, db': Db, id: Id) {
    id in db.allocations && id in db'.allocations
    && db' == db.(allocations := db.allocations[id := db'.allocations[id]], proofs := db'.proofs)
  }

  /** What the administrator answers decides where the allocation goes. */
  lemma AdminAnswers(db: Db, id: Id, approved: bool)
    requires AdminVerify(db, id, approved).Ok?
    ensures var db' := AdminVerify(db, id, approved).value;
            && WritesRow(db, db', id) && db'.proofs == db.proofs
            && var (al, al') := (db.allocations[id], db'.allocations[id]);
               && (al'.status.AdminVerified? <==> approved) && (al'.status.Disputed? <==> !approved)
               && al' == al.(status := al'.status, adminVerified := true)
  {
    hide Stays, RemittancesAside;
  }

  /** And what the receiver answers; a confirmation after the administrator's leaves the status to that. */
  lemma ReceiverAnswers(db: Db, id: Id, user: UserId, confirmed: bool, mode: Mode)
    requires ReceiverConfirm(db, id, user, confirmed, mode).Ok?
    ensures var db' := ReceiverConfirm(db, id, user, confirmed, mode).value;
            && WritesRow(db, db', id) && db'.proofs == db.proofs
            && var (al, al') := (db.allocations[id], db'.allocations[id]);
               && (al'.status.Disputed? <==> !confirmed)
               && (al'.status.ReceiverConfirmed? <==> confirmed && al.status.ProofSubmitted?)
               && (al'.status.AdminVerified? <==> confirmed && al.status.AdminVerified?)
               && al' == al.(status := al'.status, receiverConfirmed := al.receiverConfirmed || confirmed)
  {
    hide Stays, RemittancesAside;
  }

  /** A submission attaches its files, in order, and marks the allocation. */
  lemma SubmissionRecorded(db: Db, id: Id, user: UserId, files: seq<Id>, found: bool, mine: bool, now: int)
    requires SubmitProof(db, id, user, files, found, mine, now).Ok?
    ensures var db' := SubmitProof(db, id, user, files, found, mine, now).value;
            && WritesRow(db, db', id)
            && db'.allocations[id] == db.allocations[id].(status := ProofSubmitted, proofSubmitted := true)
            && |db'.proofs| == |db.proofs| + |files| && db.proofs <= db'.proofs
            && forall k: nat | k < |files| :: db'.proofs[|db.proofs| + k] == Proof(id, files[k])
  {
    hide Stays, RemittancesAside, ProofsOf;
  }

  /** Settling and cancelling leave the allocation settled, or cancelled, unless it had run out. */
  lemma DecisionRecorded(db: Db, id: Id, mode: Mode, now: int)
    requires Inv(db) && id in db.allocations
    ensures Finalize(db, id, mode, now).Ok? ==>
              id in Finalize(db, id, mode, now).value.allocations
              && Finalize(db, id, mode, now).value.allocations[id].status.Settled?
    ensures Cancel(db, id).Ok? ==>
              id in Cancel(db, id).value.allocations
              && Cancel(db, id).value.allocations[id].status ==
                   if db.allocations[id].status.Expired? then AllocationStatus.Expired else AllocationStatus.Cancelled
  {
    hide Inv, Finalize, MergeHold, Merge, DeriveStatus, Stays, RemittancesAside;
    SoundAt(db, id);
    if Finalize(db, id, mode, now).Ok? {
      FinalizeSettles(db, id, mode, now);
    }
  }

  /** Proof is accepted exactly from the payer, with files that are there and the payer's own, while it can be
      submitted. */
  lemma SubmitAccepted(db: Db, id: Id, user: UserId, files: seq<Id>, found: bool, mine: bool, now: int)
    requires Loaded(db, id)
    ensures SubmitProof(db, id, user, files, found, mine, now).Ok?
       <==> && user == db.deposits[db.allocations[id].deposit].user
            && files != [] && found && mine
            && PayerCanSubmitProof(db.allocations[id], ProofsOf(db.proofs, id), now)
    ensures user != db.deposits[db.allocations[id].deposit].user && files != [] ==>
              SubmitProof(db, id, user, files, found, mine, now) == Err(Forbidden)
  {
    hide Stays, RemittancesAside;
  }

  /** An answer is taken exactly from the receiver of the payout, in a mode that asks for one, while there is something
      to answer. */
  lemma ConfirmAccepted(db: Db, id: Id, user: UserId, confirmed: bool, mode: Mode)
    requires Loaded(db, id)
    ensures ReceiverConfirm(db, id, user, confirmed, mode).Ok?
       <==> && user == db.withdrawals[db.allocations[id].withdrawal].user && !mode.AdminOnly?
            && (db.allocations[id].status.ProofSubmitted? || db.allocations[id].status.AdminVerified?)
    ensures user != db.withdrawals[db.allocations[id].withdrawal].user ==>
              ReceiverConfirm(db, id, user, confirmed, mode) == Err(Forbidden)
  {
    hide Stays, RemittancesAside;
  }

  /** When an allocation that is neither settled nor given up can be settled, mode by mode. */
  predicate Settleable(al: Allocation, mode: Mode) {
    && (|| al.status.Assigned? || al.status.ProofSubmitted? || al.status.ReceiverConfirmed? || al.status.AdminVerified?)
    && (mode.ReceiverOnly? ==> al.status.ReceiverConfirmed?)
    && (mode.AdminOnly? ==> al.status.AdminVerified?)
    && (mode.ReceiverOrAdmin? ==> al.receiverConfirmed || al.adminVerified)
    && (mode.ReceiverAndAdmin? ==> al.receiverConfirmed && al.adminVerified)
  }

  lemma FinalizeAccepted(db: Db, id: Id, mode: Mode, now: int)
    requires Inv(db)
    ensures Finalize(db, id, mode, now).Ok?
       <==> id in db.allocations && (db.allocations[id].status.Settled? || Settleable(db.allocations[id], mode))
  {
    hide Inv, Finalize;
    FinalizeSucceedsIff(db, id, mode, now);
  }

  /** What refuses an allocation that cannot be settled: its status, then its expiry while nothing was submitted, then
      the want of confirmations. */
  lemma FinalizeRefused(db: Db, id: Id, mode: Mode, now: int)
    requires Inv(db) && id in db.allocations && !Finalize(db, id, mode, now).Ok?
    ensures var al := db.allocations[id];
            Finalize(db, id, mode, now).error ==
              if al.status.Disputed? || al.status.Cancelled? || al.status.Expired? then BadStatus
              else if al.status.Assigned? && al.expiresAt <= now then Error.Expired
              else NotFinalizable
  {
    hide Inv, ConsumeFunds, OpenAll, PostAll, Consume, DeriveStatus, Stays, RemittancesAside, Decides, SettleLegs;
    SoundAt(db, id);
    if Finalizable(db.allocations[id], mode) {
      FinalizeAccepted(db, id, mode, now);
    }
  }

  /** Where one confirmation is enough, it is: what the administrator approves, or the receiver confirms, can be settled
      at once. */
  lemma ConfirmedSettles(db: Db, id: Id, user: UserId, now: int)
    requires Inv(db) && id in db.allocations
    ensures AdminVerify(db, id, true).Ok? ==> Finalize(AdminVerify(db, id, true).value, id, AdminOnly, now).Ok?
    ensures ReceiverConfirm(db, id, user, true, ReceiverOnly).Ok? && db.allocations[id].status.ProofSubmitted? ==>
              Finalize(ReceiverConfirm(db, id, user, true, ReceiverOnly).value, id, ReceiverOnly, now).Ok?
  {
    hide Inv, Finalize, AdminVerify, ReceiverConfirm, P2POnly, Evolves;
    if AdminVerify(db, id, true).Ok? {
      AdminAnswers(db, id, true);
      AdminVerifyKeepsInv(db, id, true);
      FinalizeAccepted(AdminVerify(db, id, true).value, id, AdminOnly, now);
    }
    if ReceiverConfirm(db, id, user, true, ReceiverOnly).Ok? && db.allocations[id].status.ProofSubmitted? {
      ReceiverAnswers(db, id, user, true, ReceiverOnly);
      ReceiverConfirmKeepsInv(db, id, user, true, ReceiverOnly);
      FinalizeAccepted(ReceiverConfirm(db, id, user, true, ReceiverOnly).value, id, ReceiverOnly, now);
    }
  }

  // ---------------------------------------------------------------- the actions offered

  /** `proofs`: the number of files attached. */
  predicate PayerCanSubmitProof(al: Allocation, proofs: nat, now: int) {
    && proofs < 2
    && (al.status.Assigned? || al.status.ProofSubmitted?)
    && !al.receiverConfirmed && !al.adminVerified
    && (al.status.Assigned? ==> !RunOut(al, now))
  }

  /** Also what enables a dispute. */
  predicate ReceiverCanConfirm(al: Allocation, mode: Mode) {
    (mode.ReceiverOnly? || mode.ReceiverAndAdmin?) && al.status.ProofSubmitted?
  }

  predicate AdminCanVerify(al: Allocation) {
    al.status.ProofSubmitted? || al.status.ReceiverConfirmed?
  }

  predicate AdminCanFinalize(al: Allocation, mode: Mode) {
    Finalizable(al, mode) && !al.status.Settled?
  }

  predicate AdminCanCancel(al: Allocation) {
    al.status.Assigned? || al.status.ProofSubmitted? || al.status.ReceiverConfirmed? || al.status.AdminVerified?
  }

  /** Given well-formed files, proof is accepted from the payer exactly when it is offered. */
  lemma ProofOffered(db: Db, id: Id, files: seq<Id>, now: int)
    requires Inv(db) && id in db.allocations && files != []
    ensures Loaded(db, id)
    ensures SubmitProof(db, id, db.deposits[db.allocations[id].deposit].user, files, true, true, now).Ok?
       <==> PayerCanSubmitProof(db.allocations[id], ProofsOf(db.proofs, id), now)
  {
    hide Inv;
    SoundAt(db, id);
  }

  /** Where confirming is offered it is accepted. The service accepts more: it lets the receiver answer where either
      party may confirm, and after the administrator has verified. */
  lemma ConfirmOffered(db: Db, id: Id, confirmed: bool, mode: Mode)
    requires Inv(db) && id in db.allocations
    ensures Loaded(db, id)
    ensures ReceiverConfirm(db, id, db.withdrawals[db.allocations[id].withdrawal].user, confirmed, mode).Ok?
       <==> || ReceiverCanConfirm(db.allocations[id], mode)
            || (mode.ReceiverOrAdmin? && db.allocations[id].status.ProofSubmitted?)
            || (!mode.AdminOnly? && db.allocations[id].status.AdminVerified?)
  {
    hide Inv;
    SoundAt(db, id);
  }

  lemma VerifyOffered(db: Db, id: Id, approved: bool)
    requires Inv(db) && id in db.allocations
    ensures AdminVerify(db, id, approved).Ok? <==> AdminCanVerify(db.allocations[id])
  {
    hide Inv;
    SoundAt(db, id);
  }

  /** Cancelling changes an allocation exactly where it is offered, and one in dispute besides. */
  lemma CancelOffered(db: Db, id: Id)
    requires Inv(db) && id in db.allocations
    ensures AdminCanCancel(db.allocations[id]) || db.allocations[id].status.Disputed?
       <==> Cancel(db, id).Ok? && Cancel(db, id).value.allocations != db.allocations
  {
    hide Inv, MergeHold, Merge, DeriveStatus;
    SoundAt(db, id);
    var al := db.allocations[id];
    assert db.allocations[id := al.(status := AllocationStatus.Cancelled)][id] ==
           al.(status := AllocationStatus.Cancelled);
  }

  /** Where settling is offered it is accepted, except on an allocation that was cancelled after it had been confirmed;
      in the two modes with a single confirmer that exception cannot occur. */
  lemma FinalizeOffered(db: Db, id: Id, mode: Mode, now: int)
    requires Inv(db) && id in db.allocations && AdminCanFinalize(db.allocations[id], mode)
    ensures Finalize(db, id, mode, now).Ok? <==> !db.allocations[id].status.Cancelled?
    ensures mode.ReceiverOnly? || mode.AdminOnly? ==> Finalize(db, id, mode, now).Ok?
  {
    hide Inv, Finalize;
    SoundAt(db, id);
    FinalizeSucceedsIff(db, id, mode, now);
  }

  /** And where that exception comes from: an allocation that the receiver has just confirmed is cancelled, and settling
      it stays offered. */
  lemma CancelledStillOffered(db: Db, id: Id, user: UserId, mode: Mode, now: int)
    requires ReceiverConfirm(db, id, user, true, mode).Ok?
    requires mode.ReceiverOrAdmin? || (mode.ReceiverAndAdmin? && db.allocations[id].adminVerified)
    ensures var cancelled := Cancel(ReceiverConfirm(db, id, user, true, mode).value, id);
            && cancelled.Ok? && id in cancelled.value.allocations
            && AdminCanFinalize(cancelled.value.allocations[id], mode)
            && Finalize(cancelled.value, id, mode, now) == Err(BadStatus)
  {
    hide MergeHold, Merge, DeriveStatus;
  }

  /** In receiver mode an allocation that the administrator verified is stuck: it is neither settled nor offered. */
  lemma VerifiedNotFinalizable(db: Db, id: Id, now: int)
    requires Inv(db) && id in db.allocations && db.allocations[id].status.AdminVerified?
    ensures Finalize(db, id, ReceiverOnly, now) == Err(NotFinalizable)
    ensures forall t: AllocationStatus :: CanBecome(AdminVerified, t, ReceiverOnly) ==> !t.Settled?
  {
    hide Inv;
    SoundAt(db, id);
  }

  // ---------------------------------------------------------------- the expiry sweep

  /** The selection of a sweep: all overdue allocations, each once. */
  ghost predicate Selection(db: Db, ids: seq<Id>, now: int) {
    && (forall id :: id in ids <==> Overdue(db, id, now))
    && (forall j, k | 0 <= j < k < |ids| :: ids[j] != ids[k])
  }

  /** The sweep counts the allocations it moves. */
  function ExpiredCount(db: Db, ids: seq<Id>): nat {
    if ids == [] then 0 else
      var before := ExpireAll(db, ids[..|ids| - 1]);
      var id := ids[|ids| - 1];
      ExpiredCount(db, ids[..|ids| - 1]) +
      if Loaded(before, id) && before.allocations[id].status.Assigned? then 1 else 0
  }

  lemma ExpireOneRow(db: Db, id: Id)
    requires Loaded(db, id) && db.allocations[id].status.Assigned?
    ensures var db' := ExpireOne(db, id);
            && db'.allocations == db.allocations[id := db.allocations[id].(status := AllocationStatus.Expired)]
            && db'.withdrawals.Keys == db.withdrawals.Keys && db'.deposits.Keys == db.deposits.Keys
  {
    hide MergeHold, Merge, DeriveStatus;
  }

  /** Of the rows of `db`, exactly those in `ids` have expired in `db'`. */
  ghost predicate ExpiredRows(db: Db, db': Db, ids: seq<Id>) {
    && db'.allocations.Keys == db.allocations.Keys
    && db'.withdrawals.Keys == db.withdrawals.Keys && db'.deposits.Keys == db.deposits.Keys
    && forall id <- db.allocations ::
         db'.allocations[id] == if id in ids then db.allocations[id].(status := AllocationStatus.Expired)
         else db.allocations[id]
  }

  lemma StillAssigned(db: Db, db': Db, ids: seq<Id>, id: Id)
    requires ExpiredRows(db, db', ids) && Loaded(db, id) && db.allocations[id].status.Assigned? && id !in ids
    ensures Loaded(db', id) && db'.allocations[id] == db.allocations[id]
  {
  }

  lemma ExpiredNext(db: Db, db': Db, ids: seq<Id>, id: Id)
    requires ExpiredRows(db, db', ids) && Loaded(db, id) && db.allocations[id].status.Assigned? && id !in ids
    ensures Loaded(db', id) && db'.allocations[id] == db.allocations[id]
    ensures ExpiredRows(db, ExpireOne(db', id), ids + [id])
  {
    hide ExpireOne;
    StillAssigned(db, db', ids, id);
    ExpireOneRow(db', id);
  }

  lemma {:induction false} ExpireAllRows(db: Db, ids: seq<Id>)
    requires forall id <- ids :: Loaded(db, id) && db.allocations[id].status.Assigned?
    requires forall j, k | 0 <= j < k < |ids| :: ids[j] != ids[k]
    ensures ExpiredRows(db, ExpireAll(db, ids), ids) && ExpiredCount(db, ids) == |ids|
  {
    hide ExpireOne, ExpiredRows;
    if ids == [] {
      ExpiredNone(db);
    } else {
      var (front, last) := (ids[..|ids| - 1], ids[|ids| - 1]);
      assert ids == front + [last];
      assert last !in front;
      ExpireAllRows(db, front);
      ExpiredNext(db, ExpireAll(db, front), front, last);
    }
  }

  lemma ExpiredNone(db: Db)
    ensures ExpiredRows(db, db, [])
  {
  }

  /** A sweep run alone leaves no overdue allocation, moves exactly the overdue ones, returns how many it moved, and
      the invariant holds after each of its transactions. */
  lemma Sweep(db: Db, ids: seq<Id>, now: int)
    requires Inv(db) && Selection(db, ids, now)
    ensures var db' := ExpireAll(db, ids);
            && (forall id :: !Overdue(db', id, now))
            && (forall id <- db.allocations :: id in db'.allocations &&
                  db'.allocations[id] ==
                    if Overdue(db, id, now) then db.allocations[id].(status := AllocationStatus.Expired)
                    else db.allocations[id])
            && db'.allocations.Keys == db.allocations.Keys
            && ExpiredCount(db, ids) == |ids|
    ensures forall k | 0 <= k <= |ids| :: Inv(ExpireAll(db, ids[..k]))
  {
    hide Inv, ExpireAll, ExpiredCount;
    forall id <- ids ensures Loaded(db, id) && db.allocations[id].status.Assigned? {
      assert Overdue(db, id, now);
      SoundAt(db, id);
    }
    ExpireAllRows(db, ids);
    forall k | 0 <= k <= |ids| ensures Inv(ExpireAll(db, ids[..k])) {
      ExpireAllKeepsInv(db, ids[..k]);
    }
  }

  /** Nothing is attached to an allocation to which nothing was submitted. */
  lemma {:induction false} NoProofs(proofs: seq<Proof>, allocations: map<Id, Allocation>, id: Id)
    requires ProofsSound(proofs, allocations) && id in allocations && !allocations[id].proofSubmitted
    ensures ProofsOf(proofs, id) == 0
  {
    if proofs != [] {
      assert proofs[|proofs| - 1] in proofs;
      NoProofs(proofs[..|proofs| - 1], allocations, id);
    }
  }

  lemma Unproved(db: Db, id: Id)
    requires Inv(db) && id in db.allocations && db.allocations[id].status.Assigned?
    ensures ProofsOf(db.proofs, id) == 0
  {
    hide Inv, Sound, QuotaSound, Explained, TotalsSound, LinksSound, ReversalsSound, IdsSound, ProofsSound, ProofsOf;
    Known(db, WithdrawAllocation(id));
    SoundAt(db, id);
    NoProofs(db.proofs, db.allocations, id);
  }

  /** The one instant at which an assigned allocation takes no proof any more and is not yet overdue is its very expiry
      time. */
  lemma AtExpiry(db: Db, id: Id, files: seq<Id>, now: int)
    requires Inv(db) && id in db.allocations && db.allocations[id].status.Assigned? && files != []
    ensures Loaded(db, id)
    ensures var al := db.allocations[id];
            SubmitProof(db, id, db.deposits[al.deposit].user, files, true, true, now).Err? && !Overdue(db, id, now) <==>
            now == al.expiresAt
  {
    hide Inv, ProofsOf;
    SoundAt(db, id);
    Unproved(db, id);
  }
}
