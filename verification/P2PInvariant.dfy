/** Every step of the P2P protocol keeps the invariant. */
module P2PInvariant {
  import opened Base
  import opened Sums
  import opened Policy
  import opened Accounts
  import opened Limits
  import opened State
  import opened Frames
  import opened P2P

  /** Only the books of withdrawals and of their allocations differ. */
  ghost predicate P2POnly(db: Db, db': Db) {
    forall r: Ref | !r.Withdraw? && !r.WithdrawAllocation? :: SameView(db, db', r)
  }

  // ---------------------------------------------------------------- totals

  /** What an allocation that may not exist counts for. */
  function LiveAmount(allocations: map<Id, Allocation>, id: Id): int {
    if id in allocations && Live(allocations[id].status) then allocations[id].amount else 0
  }

  function SettledAmount(allocations: map<Id, Allocation>, id: Id): int {
    if id in allocations && allocations[id].status.Settled? then allocations[id].amount else 0
  }

  /** One allocation is written, new or between the same parties, and the rows of its two requests follow. */
  ghost predicate Moves(db: Db, db': Db, id: Id) {
    && id in db'.allocations
    && var al := db'.allocations[id];
       var (live, settled) := (LiveAmount(db'.allocations, id) - LiveAmount(db.allocations, id),
                               SettledAmount(db'.allocations, id) - SettledAmount(db.allocations, id));
       && db'.allocations == db.allocations[id := al]
       && (id in db.allocations ==>
             && db.allocations[id].withdrawal == al.withdrawal && db.allocations[id].deposit == al.deposit
             && (db.allocations[id].proofSubmitted ==> al.proofSubmitted))
       && al.withdrawal in db.withdrawals && al.deposit in db.deposits
       && var (r, d) := (db.withdrawals[al.withdrawal], db.deposits[al.deposit]);
          && r.purpose.P2P? && d.purpose.P2P? && d.remaining.Some?
          && db'.withdrawals ==
             db.withdrawals[al.withdrawal := WithTotals(r, r.assignedTotal + live, r.settledTotal + settled)]
          && db'.deposits == db.deposits[al.deposit :=
               DepositWithTotals(d, Some(d.remaining.value - live), d.assignedTotal + live, d.settledTotal + settled)]
          && r.assignedTotal + live <= r.amount
          && d.amount > 0 && d.assignedTotal + live <= d.amount
  }

  lemma WithdrawalSums(db: Db, db': Db, id: Id, w: Id)
    requires Moves(db, db', id)
    ensures var here := db'.allocations[id].withdrawal == w;
            && Total(db'.allocations, AssignedTo(w)) == Total(db.allocations, AssignedTo(w))
                 + (if here then LiveAmount(db'.allocations, id) - LiveAmount(db.allocations, id) else 0)
            && Total(db'.allocations, SettledTo(w)) == Total(db.allocations, SettledTo(w))
                 + (if here then SettledAmount(db'.allocations, id) - SettledAmount(db.allocations, id) else 0)
  {
    SetRow(db.allocations, AssignedTo(w), id, db'.allocations[id]);
    SetRow(db.allocations, SettledTo(w), id, db'.allocations[id]);
  }

  lemma DepositSums(db: Db, db': Db, id: Id, d: Id)
    requires Moves(db, db', id)
    ensures var here := db'.allocations[id].deposit == d;
            && Total(db'.allocations, AssignedFrom(d)) == Total(db.allocations, AssignedFrom(d))
                 + (if here then LiveAmount(db'.allocations, id) - LiveAmount(db.allocations, id) else 0)
            && Total(db'.allocations, SettledFrom(d)) == Total(db.allocations, SettledFrom(d))
                 + (if here then SettledAmount(db'.allocations, id) - SettledAmount(db.allocations, id) else 0)
  {
    SetRow(db.allocations, AssignedFrom(d), id, db'.allocations[id]);
    SetRow(db.allocations, SettledFrom(d), id, db'.allocations[id]);
  }

  lemma TotalsMoved(db: Db, db': Db, id: Id)
    requires TotalsSound(db) && Moves(db, db', id)
    ensures TotalsSound(db')
  {
    hide Total, DeriveStatus, LiveAmount, SettledAmount;
    forall w <- db'.withdrawals ensures WithdrawalTotals(w, db'.withdrawals[w], db'.allocations) {
      assert WithdrawalTotals(w, db.withdrawals[w], db.allocations);
      WithdrawalSums(db, db', id, w);
    }
    forall d <- db'.deposits ensures DepositTotals(d, db'.deposits[d], db'.allocations) {
      assert DepositTotals(d, db.deposits[d], db.allocations);
      DepositSums(db, db', id, d);
    }
  }

  /** In every sound state settled is at most assigned, and assigned at most the amount. */
  lemma TotalsOrdered(db: Db, w: Id, d: Id)
    requires Inv(db)
    ensures w in db.withdrawals ==> var r := db.withdrawals[w];
              0 <= r.settledTotal <= r.assignedTotal <= r.amount
    ensures d in db.deposits && db.deposits[d].purpose.P2P? ==> var p := db.deposits[d];
              && 0 <= p.settledTotal <= p.assignedTotal && p.remaining == Some(p.amount - p.assignedTotal)
              && (p.amount >= 0 ==> p.assignedTotal <= p.amount)
  {
    hide Inv, Total, DeriveStatus, Sound, QuotaSound, Explained, LinksSound, ReversalsSound, RowsSound, IdsSound;
    Known(db, Withdraw(w));
    AmountsKnown(db);
    SumsOrdered(db.allocations, w, d);
    assert w in db.withdrawals ==> WithdrawalTotals(w, db.withdrawals[w], db.allocations);
    assert d in db.deposits ==> DepositTotals(d, db.deposits[d], db.allocations);
  }

  lemma SumsOrdered(all: map<Id, Allocation>, w: Id, d: Id)
    requires forall id <- all :: all[id].amount > 0
    ensures 0 <= Total(all, SettledTo(w)) <= Total(all, AssignedTo(w))
    ensures 0 <= Total(all, SettledFrom(d)) <= Total(all, AssignedFrom(d))
  {
    hide Total;
    Monotone(all, SettledTo(w), AssignedTo(w));
    Bounds(all, SettledTo(w), 0);
    Monotone(all, SettledFrom(d), AssignedFrom(d));
    Bounds(all, SettledFrom(d), 0);
  }

  lemma AmountsKnown(db: Db)
    requires RowsSound(db)
    ensures forall id <- db.allocations :: db.allocations[id].amount > 0
  {
    hide WithdrawalsSound, DepositsSound, TradesSound, MovementsSound;
    forall id <- db.allocations ensures db.allocations[id].amount > 0 {
      assert AllocationSound(db.allocations[id], db.withdrawals, db.deposits);
    }
  }

  // ---------------------------------------------------------------- the frame of one allocation

  /** Nothing outside the P2P tables is written. */
  ghost predicate P2PTables(db: Db, db': Db) {
    && db'.trades == db.trades && db'.movements == db.movements
    && db'.remittances == db.remittances && db'.links == db.links && db'.proofs == db.proofs
    && db.nextId <= db'.nextId
    && Forward(db.wallet.ledger, db'.wallet.ledger)
  }

  lemma RowsMoved(db: Db, db': Db, id: Id)
    requires RowsSound(db) && IdsSound(db) && Moves(db, db', id) && P2PTables(db, db') && id < db'.nextId
    requires AllocationSound(db'.allocations[id], db.withdrawals, db.deposits)
    ensures RowsSound(db') && IdsSound(db')
  {
    hide LiveAmount, SettledAmount, DeriveStatus, TradesSound, MovementsSound, Live;
    DepositsExtend(db.deposits, db.wallet.ledger, db'.wallet.ledger);
    var al := db'.allocations[id];
    assert WithdrawalSound(db'.withdrawals[al.withdrawal]);
    assert DepositSound(db'.deposits[al.deposit], db'.wallet.ledger);
    forall k <- db'.allocations ensures AllocationSound(db'.allocations[k], db'.withdrawals, db'.deposits) {
      if k != id {
        assert AllocationSound(db.allocations[k], db.withdrawals, db.deposits);
      }
    }
  }

  /** P2P requests never count as money that came in or went out. */
  lemma IssuedMoved(db: Db, db': Db, id: Id)
    requires TotalsSound(db) && Moves(db, db', id)
    requires forall i :: Adjusted(db'.wallet.ledger, i) == Adjusted(db.wallet.ledger, i)
    ensures forall i :: Issued(db', i) == Issued(db, i)
  {
    hide Total, Adjusted, LiveAmount, SettledAmount;
    var al := db'.allocations[id];
    assert WithdrawalTotals(al.withdrawal, db.withdrawals[al.withdrawal], db.allocations);
    assert DepositTotals(al.deposit, db.deposits[al.deposit], db.allocations);
    SetRow(db.withdrawals, WithdrawnBy(), al.withdrawal, db'.withdrawals[al.withdrawal]);
    SetRow(db.deposits, DepositedBy(), al.deposit, db'.deposits[al.deposit]);
  }

  lemma OthersExplained(db: Db, db': Db, id: Id, ref: Ref)
    requires Moves(db, db', id) && P2PTables(db, db') && TotalsSound(db)
    requires Explained(db, ref) && SameView(db, db', ref)
    requires ref != Withdraw(db'.allocations[id].withdrawal) && ref != WithdrawAllocation(id)
    ensures Explained(db', ref)
  {
    hide HoldsOf, LimitsOf, MovesOf, WithdrawalView, AllocationView, TradeView, MovementView, RemittanceView,
         RemittanceFate, Total, LiveAmount, SettledAmount, WithdrawalsTotal;
    if ref.Deposit? && ref.id == db'.allocations[id].deposit {
      assert DepositTotals(ref.id, db.deposits[ref.id], db.allocations);
    } else {
      hide DepositView;
    }
  }

  lemma MovesKeepInv(db: Db, db': Db, id: Id)
    requires Inv(db) && id in db'.allocations && Moves(db, db', id) && P2PTables(db, db') && id < db'.nextId
    requires AllocationSound(db'.allocations[id], db.withdrawals, db.deposits)
    requires Sound(db'.wallet) && QuotaSound(db'.quota)
    requires forall i ::
             Held(db'.wallet, i) == Held(db.wallet, i) &&
             Adjusted(db'.wallet.ledger, i) == Adjusted(db.wallet.ledger, i)
    requires var w := Withdraw(db'.allocations[id].withdrawal);
             && Explained(db', w) && Explained(db', WithdrawAllocation(id))
             && (forall r | r != w && r != WithdrawAllocation(id) :: SameFunds(db.wallet, db'.wallet, r))
             && (forall r | r != w && r != WithdrawAllocation(id) :: SameLimits(db.quota, db'.quota, r))
    ensures Inv(db') && P2POnly(db, db')
  {
    hide Sound, QuotaSound, HoldsOf, LimitsOf, MovesOf, Explained, IdsSound, RowsSound, LinksSound, TotalsSound,
         AllocationSound, ReversalsSound, Issued, Held, Net, Adjusted, Moves;
    RowsMoved(db, db', id);
    TotalsMoved(db, db', id);
    IssuedMoved(db, db', id);
    ReversalsKept(db.wallet.ledger, db'.wallet.ledger, db.trades, db'.trades);
    var w := Withdraw(db'.allocations[id].withdrawal);
    forall r | r != w && r != WithdrawAllocation(id) ensures SameView(db, db', r) {
      assert SameFunds(db.wallet, db'.wallet, r) && SameLimits(db.quota, db'.quota, r);
    }
    forall r ensures Explained(db', r) {
      if r != w && r != WithdrawAllocation(id) {
        OthersExplained(db, db', id, r);
      }
    }
  }

  // ---------------------------------------------------------------- the books of a withdrawal and of an allocation

  function ReceiverAccount(r: Withdrawal): Acct {
    Acct(r.user, IRR)
  }

  function Volume(r: Withdrawal, h: Hold): map<UsageKey, Hold> {
    Both(r.user, WithdrawIrr, NotionalIrr, All, r.created, h)
  }

  /** The central fact about a P2P withdrawal: in every sound state what is not assigned of it is held on the receiver's
      account and charged to the receiver's day and month, and nothing is posted. */
  lemma UnassignedHeld(db: Db, w: Id)
    requires Inv(db) && w in db.withdrawals && db.withdrawals[w].purpose.P2P?
    ensures var (r, ref) := (db.withdrawals[w], Withdraw(w));
            var h := Hold(r.amount - r.assignedTotal, Reserved);
            && r.amount > 0 && r.assignedTotal <= r.amount
            && HoldsOf(db.wallet.holds, ref) == map[ReceiverAccount(r) := h]
            && LimitsOf(db.quota.limits, ref) == Volume(r, h)
            && MovesOf(db.wallet.ledger, ref) == []
            && r.status == DeriveStatus(r.amount, r.assignedTotal, r.settledTotal)
  {
    hide HoldsOf, LimitsOf, MovesOf, Both, Sound, QuotaSound, Total, DepositsTotal, LinksSound, ReversalsSound,
         AllocationsSound;
    assert Explained(db, Withdraw(w));
    assert WithdrawalTotals(w, db.withdrawals[w], db.allocations);
    assert WithdrawalSound(db.withdrawals[w]);
  }

  function SliceFunds(al: Allocation, r: Withdrawal): map<Acct, Hold> {
    if !Live(al.status) then map[]
    else map[ReceiverAccount(r) := Hold(al.amount, if al.status.Settled? then Consumed else Reserved)]
  }

  function SliceVolume(al: Allocation, r: Withdrawal): map<UsageKey, Hold> {
    if !Live(al.status) then map[] else Volume(r, Hold(al.amount, if al.status.Settled? then Consumed else Reserved))
  }

  function SliceMoves(al: Allocation, r: Withdrawal, d: DepositRequest): seq<Move> {
    if al.status.Settled? then MovesFor(SettleLegs(al, r.user, d.user)) else []
  }

  /** And about an allocation: while live it has a slice of exactly its amount in the funds held and in both usages,
      consumed once it is settled; cancelled or expired it has none. It posts only when it settles, one debit and one
      equal credit. */
  lemma SliceKnown(db: Db, id: Id)
    requires Inv(db) && id in db.allocations
    ensures var (al, ref) := (db.allocations[id], WithdrawAllocation(id));
            && AllocationSound(al, db.withdrawals, db.deposits) && id < db.nextId
            && HoldsOf(db.wallet.holds, ref) == SliceFunds(al, db.withdrawals[al.withdrawal])
            && LimitsOf(db.quota.limits, ref) == SliceVolume(al, db.withdrawals[al.withdrawal])
            && MovesOf(db.wallet.ledger, ref) == SliceMoves(al, db.withdrawals[al.withdrawal], db.deposits[al.deposit])
  {
    hide HoldsOf, LimitsOf, MovesOf, Both, Sound, QuotaSound, TotalsSound, LinksSound, ReversalsSound, AllocationSound,
         WithdrawalsSound, DepositsSound;
    assert Explained(db, WithdrawAllocation(id));
    var al := db.allocations[id];
    assert AllocationSound(al, db.withdrawals, db.deposits);
    AllocationParties(al, db.withdrawals, db.deposits);
    var (r, d) := (db.withdrawals[al.withdrawal], db.deposits[al.deposit]);
    SliceShows(al, r, d);
  }

  lemma AllocationParties(al: Allocation, withdrawals: map<Id, Withdrawal>, deposits: map<Id, DepositRequest>)
    requires AllocationSound(al, withdrawals, deposits)
    ensures al.amount > 0 && al.withdrawal in withdrawals && al.deposit in deposits
    ensures withdrawals[al.withdrawal].purpose.P2P? && deposits[al.deposit].purpose.P2P?
  {
  }

  lemma SliceShows(al: Allocation, r: Withdrawal, d: DepositRequest)
    ensures AllocationView(al, r.user, d.user, r.created) ==
            View(SliceFunds(al, r), SliceVolume(al, r), SliceMoves(al, r, d))
  {
    hide Both;
    assert MovesFor(SettleLegs(al, r.user, d.user))
        == [MoveOf(Acct(r.user, IRR), Minus(al.amount)), MoveOf(Acct(d.user, IRR), Plus(al.amount))];
  }

  lemma SliceShown(db: Db, id: Id)
    requires id in db.allocations
    requires var al := db.allocations[id];
             && al.withdrawal in db.withdrawals && al.deposit in db.deposits
             && ViewOf(db, WithdrawAllocation(id)) == View(SliceFunds(al, db.withdrawals[al.withdrawal]),
                  SliceVolume(al, db.withdrawals[al.withdrawal]),
                  SliceMoves(al, db.withdrawals[al.withdrawal], db.deposits[al.deposit]))
    ensures Explained(db, WithdrawAllocation(id))
  {
    hide ViewOf, AllocationView, SliceFunds, SliceVolume, SliceMoves;
    var al := db.allocations[id];
    SliceShows(al, db.withdrawals[al.withdrawal], db.deposits[al.deposit]);
  }

  lemma UnassignedShown(db: Db, w: Id)
    requires w in db.withdrawals && db.withdrawals[w].purpose.P2P? && !db.withdrawals[w].status.Approved?
    requires var (r, ref) := (db.withdrawals[w], Withdraw(w));
             var h := Hold(r.amount - r.assignedTotal, Reserved);
             && HoldsOf(db.wallet.holds, ref) == map[ReceiverAccount(r) := h]
             && LimitsOf(db.quota.limits, ref) == Volume(r, h)
             && MovesOf(db.wallet.ledger, ref) == []
    ensures Explained(db, Withdraw(w))
  {
    hide HoldsOf, LimitsOf, MovesOf, Both;
  }

  // ---------------------------------------------------------------- assignment

  lemma DepositKnown(db: Db, d: Id)
    requires Inv(db) && d in db.deposits && db.deposits[d].purpose.P2P?
    ensures var p := db.deposits[d];
            && p.remaining == Some(p.amount - p.assignedTotal)
            && (p.amount > 0 ==>
                p.assignedTotal <= p.amount && p.status == DeriveStatus(p.amount, p.assignedTotal, p.settledTotal))
            && (p.amount <= 0 ==> p.assignedTotal == 0)
  {
    hide Total, DeriveStatus, Sound, QuotaSound, Explained, LinksSound, ReversalsSound, RowsSound, IdsSound,
         WithdrawalsTotal, Conserved;
    assert DepositTotals(d, db.deposits[d], db.allocations);
  }

  lemma AssignOneMoves(db: Db, w: Id, item: Item, expiresAt: int)
    requires Inv(db) && w in db.withdrawals && db.withdrawals[w].purpose.P2P? && item.amount > 0
    requires item.amount <= db.withdrawals[w].amount - db.withdrawals[w].assignedTotal
    requires AssignOne(db, w, item, expiresAt).Ok?
    ensures Moves(db, AssignOne(db, w, item, expiresAt).value, db.nextId)
    ensures AllocationSound(NewAllocation(w, item, expiresAt), db.withdrawals, db.deposits)
    ensures db.nextId !in db.allocations
  {
    hide Inv, Sound, QuotaSound, SplitHold, Split, DeriveStatus, IdsSound, RowsSound, TotalsSound, LinksSound,
         ReversalsSound, Explained;
    Known(db, Withdraw(w));
    IdUnused(db);
    DepositKnown(db, item.deposit);
  }

  /** The reservation of the withdrawal holds what is not assigned, so the slice can be cut from it. */
  lemma SliceCut(db: Db, w: Id, amount: int)
    requires Inv(db) && w in db.withdrawals && db.withdrawals[w].purpose.P2P?
    requires 0 < amount <= db.withdrawals[w].amount - db.withdrawals[w].assignedTotal
    ensures var (r, part, h) :=
            (db.withdrawals[w], WithdrawAllocation(db.nextId),
             Hold(db.withdrawals[w].amount - db.withdrawals[w].assignedTotal, Reserved));
            var cut := SplitHold(db.wallet, ReceiverAccount(r), Withdraw(w), part, amount);
            && cut.Ok? && Sound(cut.value) && cut.value.accounts == db.wallet.accounts &&
               cut.value.ledger == db.wallet.ledger
            && HoldsOf(cut.value.holds, Withdraw(w)) == map[ReceiverAccount(r) := h.(amount := h.amount - amount)]
            && HoldsOf(cut.value.holds, part) == map[ReceiverAccount(r) := h.(amount := amount)]
            && (forall other | other != Withdraw(w) && other != part :: SameFunds(db.wallet, cut.value, other))
  {
    hide Inv, Sound, QuotaSound, HoldsOf, LimitsOf, MovesOf, Explained, IdsSound, RowsSound, LinksSound, TotalsSound,
         ReversalsSound, SplitHold, Both, DeriveStatus, SameFunds;
    Known(db, Withdraw(w));
    UnassignedHeld(db, w);
    FreshReference(db, WithdrawAllocation(db.nextId));
    SplitHoldEffect(db.wallet, ReceiverAccount(db.withdrawals[w]), Withdraw(w), WithdrawAllocation(db.nextId), amount,
                    Hold(db.withdrawals[w].amount - db.withdrawals[w].assignedTotal, Reserved));
  }

  lemma VolumeCut(db: Db, w: Id, amount: int)
    requires Inv(db) && w in db.withdrawals && db.withdrawals[w].purpose.P2P?
    requires 0 < amount <= db.withdrawals[w].amount - db.withdrawals[w].assignedTotal
    ensures var (r, part) := (db.withdrawals[w], WithdrawAllocation(db.nextId));
            var (h, q') := (Hold(r.amount - r.assignedTotal, Reserved), Split(db.quota, Withdraw(w), part, amount));
            && QuotaSound(q')
            && LimitsOf(q'.limits, Withdraw(w)) == Volume(r, h.(amount := h.amount - amount))
            && LimitsOf(q'.limits, part) == Volume(r, h.(amount := amount))
            && (forall other | other != Withdraw(w) && other != part :: SameLimits(db.quota, q', other))
  {
    hide Inv, Sound, QuotaSound, HoldsOf, LimitsOf, MovesOf, Explained, IdsSound, RowsSound, LinksSound, TotalsSound,
         ReversalsSound, Split, Volume, DeriveStatus, SameLimits;
    var (r, part) := (db.withdrawals[w], WithdrawAllocation(db.nextId));
    Known(db, part);
    UnassignedHeld(db, w);
    FreshReference(db, part);
    VolumeOf(r, Hold(r.amount - r.assignedTotal, Reserved), amount);
    VolumeGrown(r, Hold(r.amount - r.assignedTotal, Reserved), -amount);
    SplitLimitEffect(db.quota, Withdraw(w), part, amount);
  }

  lemma AssignOneShown(db: Db, w: Id, item: Item, expiresAt: int)
    requires Inv(db) && w in db.withdrawals && db.withdrawals[w].purpose.P2P? && item.amount > 0
    requires item.amount <= db.withdrawals[w].amount - db.withdrawals[w].assignedTotal &&
             AssignOne(db, w, item, expiresAt).Ok?
    ensures Explained(AssignOne(db, w, item, expiresAt).value, Withdraw(w))
    ensures Explained(AssignOne(db, w, item, expiresAt).value, WithdrawAllocation(db.nextId))
  {
    hide Inv, Sound, QuotaSound, HoldsOf, LimitsOf, MovesOf, Explained, SplitHold, Split, Both, DeriveStatus, SameFunds,
         SameLimits;
    var (r, id) := (db.withdrawals[w], db.nextId);
    UnassignedHeld(db, w);
    FreshReference(db, WithdrawAllocation(id));
    SliceCut(db, w, item.amount);
    VolumeCut(db, w, item.amount);
    NeverApproved(r.amount, r.assignedTotal + item.amount, r.settledTotal);
    var db' := AssignOne(db, w, item, expiresAt).value;
    UnassignedShown(db', w);
    SliceShown(db', id);
  }

  lemma AssignOneKeepsInv(db: Db, w: Id, item: Item, expiresAt: int)
    requires Inv(db) && w in db.withdrawals && db.withdrawals[w].purpose.P2P? && item.amount > 0
    requires item.amount <= db.withdrawals[w].amount - db.withdrawals[w].assignedTotal &&
             AssignOne(db, w, item, expiresAt).Ok?
    ensures Inv(AssignOne(db, w, item, expiresAt).value) && P2POnly(db, AssignOne(db, w, item, expiresAt).value)
  {
    hide Inv, Sound, QuotaSound, HoldsOf, LimitsOf, MovesOf, Explained, AllocationSound, Held, Adjusted, Moves,
         SplitHold, Split, Volume, DeriveStatus, P2POnly, SameFunds, SameLimits;
    SliceCut(db, w, item.amount);
    VolumeCut(db, w, item.amount);
    AssignOneMoves(db, w, item, expiresAt);
    AssignOneShown(db, w, item, expiresAt);
    var db' := AssignOne(db, w, item, expiresAt).value;
    UnmovedSame(db.wallet, db'.wallet);
    MovesKeepInv(db, db', db.nextId);
  }

  /** An assignment of one slice goes through exactly when it fits the withdrawal and the deposit: the guards on the
      reservation it is cut from never fire. */
  lemma AssignOneIff(db: Db, w: Id, item: Item, expiresAt: int)
    requires Inv(db) && w in db.withdrawals && db.withdrawals[w].purpose.P2P? && item.amount > 0
    requires item.amount <= db.withdrawals[w].amount - db.withdrawals[w].assignedTotal
    ensures AssignOne(db, w, item, expiresAt).Ok?
       <==> item.deposit in db.deposits && db.deposits[item.deposit].purpose.P2P? &&
            item.amount <= Remaining(db.deposits[item.deposit])
    ensures AssignOne(db, w, item, expiresAt).Ok? ==>
              Inv(AssignOne(db, w, item, expiresAt).value) && P2POnly(db, AssignOne(db, w, item, expiresAt).value)
  {
    hide Inv, Sound, HoldsOf, P2POnly, SplitHold, Split, DeriveStatus, SameFunds;
    SliceCut(db, w, item.amount);
    if AssignOne(db, w, item, expiresAt).Ok? {
      AssignOneKeepsInv(db, w, item, expiresAt);
    }
  }

  lemma NeverApproved(amount: int, assignedTotal: int, settledTotal: int)
    ensures var s := DeriveStatus(amount, assignedTotal, settledTotal);
            !s.Approved? && !s.Reversed? && !s.Pending? && !s.Rejected? && !s.Cancelled?
  {
  }

  lemma UnmovedSame(w: Wallet, w': Wallet)
    requires w'.accounts == w.accounts && w'.ledger == w.ledger
    ensures forall i :: Held(w', i) == Held(w, i) && Adjusted(w'.ledger, i) == Adjusted(w.ledger, i)
  {
  }

  lemma VolumeOf(r: Withdrawal, h: Hold, amount: int)
    ensures WithAmount(Volume(r, h), amount) == Volume(r, h.(amount := amount))
    ensures forall u <- Volume(r, h) :: Volume(r, h)[u] == h
  {
    hide DayKey, MonthKey;
  }

  lemma VolumeGrown(r: Withdrawal, h: Hold, delta: int)
    ensures Grown(Volume(r, h), delta) == Volume(r, h.(amount := h.amount + delta))
  {
    hide DayKey, MonthKey;
  }

  // ---------------------------------------------------------------- settlement

  lemma FinalizeMoves(db: Db, id: Id, mode: Mode, now: int)
    requires Inv(db) && Loaded(db, id) && Finalize(db, id, mode, now).Ok? && !db.allocations[id].status.Settled?
    ensures Moves(db, Finalize(db, id, mode, now).value, id)
    ensures AllocationSound(Finalize(db, id, mode, now).value.allocations[id], db.withdrawals, db.deposits)
    ensures Live(db.allocations[id].status)
  {
    hide Inv, Sound, QuotaSound, ConsumeFunds, OpenAll, PostAll, Consume, DeriveStatus, IdsSound, RowsSound,
         TotalsSound, LinksSound, ReversalsSound, Explained, HoldsOf, LimitsOf, MovesOf, SliceFunds, SliceVolume,
         SliceMoves;
    var al := db.allocations[id];
    SliceKnown(db, id);
    LiveFits(db, id);
    DepositKnown(db, al.deposit);
    UnassignedHeld(db, al.withdrawal);
    assert AllocationSound(al, db.withdrawals, db.deposits);
  }

  /** A live allocation is part of what its deposit has assigned, so that deposit asked for a positive amount. */
  lemma LiveFits(db: Db, id: Id)
    requires Inv(db) && id in db.allocations && Live(db.allocations[id].status)
    ensures var al := db.allocations[id];
            && al.deposit in db.deposits && al.withdrawal in db.withdrawals
            && 0 < al.amount <= db.deposits[al.deposit].assignedTotal && db.deposits[al.deposit].amount > 0
            && al.amount <= db.withdrawals[al.withdrawal].assignedTotal
  {
    hide Inv, Sound, QuotaSound, Total, DeriveStatus, IdsSound, RowsSound, LinksSound, ReversalsSound, Explained,
         WithdrawalsSound, DepositsSound, HoldsOf, LimitsOf, MovesOf, SliceFunds, SliceVolume, SliceMoves,
         AllocationSound;
    var al := db.allocations[id];
    SliceKnown(db, id);
    Known(db, WithdrawAllocation(id));
    AllocationParties(al, db.withdrawals, db.deposits);
    AmountsKnown(db);
    Bounds(db.allocations, AssignedFrom(al.deposit), id);
    Bounds(db.allocations, AssignedTo(al.withdrawal), id);
    assert DepositTotals(al.deposit, db.deposits[al.deposit], db.allocations);
    assert WithdrawalTotals(al.withdrawal, db.withdrawals[al.withdrawal], db.allocations);
  }

  /** The wallet and the quota after a settlement. */
  lemma SettleBooks(db: Db, id: Id)
    requires Inv(db) && id in db.allocations && Live(db.allocations[id].status) && !db.allocations[id].status.Settled?
    ensures Loaded(db, id)
    ensures var (al, ref) := (db.allocations[id], WithdrawAllocation(id));
            var (r, d) := (db.withdrawals[al.withdrawal], db.deposits[al.deposit]);
            && ConsumeFunds(db.wallet, ReceiverAccount(r), ref).Ok?
            && var w2 := OpenAll(ConsumeFunds(db.wallet, ReceiverAccount(r), ref).value,
                                 [Acct(r.user, IRR), Acct(d.user, IRR)]);
               var legs := SettleLegs(al, r.user, d.user);
               && w2.ledger == db.wallet.ledger
               && PostAll(w2, legs, ref).Ok?
               && Effect(db.wallet, PostAll(w2, legs, ref).value, ref,
                         map[ReceiverAccount(r) := Hold(al.amount, Consumed)], MovesFor(legs))
               && Forward(db.wallet.ledger, PostAll(w2, legs, ref).value.ledger)
               && QuotaEffect(db.quota, Consume(db.quota, ref), ref, Volume(r, Hold(al.amount, Consumed)))
  {
    hide Inv, Sound, QuotaSound, ConsumeFunds, OpenAll, PostAll, Consume, IdsSound, RowsSound, TotalsSound, LinksSound,
         ReversalsSound, Explained, HoldsOf, LimitsOf, MovesOf, AllocationSound, Effect, MovesFor, TransferLegs,
         QuotaEffect, Both;
    var (al, ref) := (db.allocations[id], WithdrawAllocation(id));
    SliceKnown(db, id);
    Known(db, ref);
    AllocationParties(al, db.withdrawals, db.deposits);
    var (r, d) := (db.withdrawals[al.withdrawal], db.deposits[al.deposit]);
    TransferPays(db.wallet, ReceiverAccount(r), Acct(d.user, IRR), al.amount, ref);
    SettleBoth(db.quota, ref, r.user, WithdrawIrr, NotionalIrr, All, r.created, al.amount);
  }

  /** Settling an allocation that may be settled never fails for lack of funds. */
  lemma FinalizeSucceedsIff(db: Db, id: Id, mode: Mode, now: int)
    requires Inv(db)
    ensures Finalize(db, id, mode, now).Ok?
       <==> && id in db.allocations
            && (db.allocations[id].status.Settled?
                || (Live(db.allocations[id].status) && Finalizable(db.allocations[id], mode)))
  {
    hide Inv, Sound, QuotaSound, ConsumeFunds, OpenAll, PostAll, Consume, DeriveStatus, IdsSound, RowsSound,
         TotalsSound, LinksSound, ReversalsSound, Explained, HoldsOf, LimitsOf, MovesOf, SliceFunds, SliceVolume,
         SliceMoves;
    if id in db.allocations {
      SliceKnown(db, id);
      assert AllocationSound(db.allocations[id], db.withdrawals, db.deposits);
      if Live(db.allocations[id].status) && !db.allocations[id].status.Settled? {
        SettleBooks(db, id);
      }
    }
  }

  lemma FinalizeKeepsInv(db: Db, id: Id, mode: Mode, now: int)
    requires Inv(db) && Finalize(db, id, mode, now).Ok?
    ensures Inv(Finalize(db, id, mode, now).value) && P2POnly(db, Finalize(db, id, mode, now).value)
    ensures SameHeld(db, Finalize(db, id, mode, now).value)
  {
    hide Inv, Sound, QuotaSound, HoldsOf, LimitsOf, MovesOf, Explained, IdsSound, RowsSound, LinksSound, TotalsSound,
         AllocationSound, Net, ReversalsSound, Held, Adjusted, Moves, ConsumeFunds, OpenAll, PostAll, Consume, Both,
         DeriveStatus, SameFunds, SameLimits, MovesFor;
    if Loaded(db, id) && !db.allocations[id].status.Settled? {
      var (db', ref, al) := (Finalize(db, id, mode, now).value, WithdrawAllocation(id), db.allocations[id]);
      var (r, d) := (db.withdrawals[al.withdrawal], db.deposits[al.deposit]);
      FinalizeMoves(db, id, mode, now);
      SettleBooks(db, id);
      SliceKnown(db, id);
      AllocationParties(al, db.withdrawals, db.deposits);
      UnassignedHeld(db, al.withdrawal);
      NotDone(al, db.withdrawals, db.deposits);
      NetOfTransfer(ReceiverAccount(r), Acct(d.user, IRR), al.amount);
      NeverApproved(r.amount, r.assignedTotal, r.settledTotal + al.amount);
      SameSlice(al, db'.allocations[id], r, db'.withdrawals[al.withdrawal], d, db'.deposits[al.deposit]);
      hide Finalize, TransferLegs, Live, SettleLegs;
      assert SameFunds(db.wallet, db'.wallet, Withdraw(al.withdrawal)) &&
             SameLimits(db.quota, db'.quota, Withdraw(al.withdrawal));
      OfSame(db, db', Withdraw(al.withdrawal));
      UnassignedShown(db', al.withdrawal);
      SliceShown(db', id);
      MovesKeepInv(db, db', id);
    }
  }

  /** A settled allocation has moved its amount from the receiver of the payout to its payer. */
  lemma SettledNets(db: Db, id: Id)
    requires Inv(db) && id in db.allocations && db.allocations[id].status.Settled?
    ensures var (al, moves) := (db.allocations[id], MovesOf(db.wallet.ledger, WithdrawAllocation(id)));
            && al.withdrawal in db.withdrawals && al.deposit in db.deposits
            && var (r, d) := (db.withdrawals[al.withdrawal], db.deposits[al.deposit]);
               && (r.user != d.user ==>
                   NetOn(moves, Acct(r.user, IRR)) == -al.amount && NetOn(moves, Acct(d.user, IRR)) == al.amount)
               && (r.user == d.user ==> NetOn(moves, Acct(r.user, IRR)) == 0)
  {
    hide Inv, HoldsOf, LimitsOf, MovesOf, SliceFunds, SliceVolume, AllocationSound, NetOn;
    SliceKnown(db, id);
    AllocationParties(db.allocations[id], db.withdrawals, db.deposits);
    var al := db.allocations[id];
    var (r, d) := (db.withdrawals[al.withdrawal], db.deposits[al.deposit]);
    var moves := MovesFor(SettleLegs(al, r.user, d.user));
    assert moves == [moves[0], moves[1]];
    NetOnTwo(moves[0], moves[1], Acct(r.user, IRR));
    NetOnTwo(moves[0], moves[1], Acct(d.user, IRR));
  }

  /** Settling happens once: asked again, in any mode and at any time, it posts nothing and changes nothing. */
  lemma FinalizeOnce(db: Db, id: Id, mode: Mode, now: int, mode': Mode, now': int)
    requires Inv(db) && Finalize(db, id, mode, now).Ok?
    ensures Finalize(Finalize(db, id, mode, now).value, id, mode', now') == Ok(Finalize(db, id, mode, now).value)
  {
    hide Inv, Finalize;
    FinalizeSettles(db, id, mode, now);
    SettledAgain(Finalize(db, id, mode, now).value, id, mode', now');
  }

  lemma FinalizeSettles(db: Db, id: Id, mode: Mode, now: int)
    requires Inv(db) && Finalize(db, id, mode, now).Ok?
    ensures var db' := Finalize(db, id, mode, now).value; Loaded(db', id) && db'.allocations[id].status.Settled?
  {
    hide Inv, ConsumeFunds, OpenAll, PostAll, Consume, DeriveStatus, HoldsOf, LimitsOf, MovesOf, SliceFunds,
         SliceVolume, SliceMoves, Finalizable;
    SliceKnown(db, id);
    assert AllocationSound(db.allocations[id], db.withdrawals, db.deposits);
  }

  lemma SettledAgain(db: Db, id: Id, mode: Mode, now: int)
    requires Loaded(db, id) && db.allocations[id].status.Settled?
    ensures Finalize(db, id, mode, now) == Ok(db)
  {
    hide ConsumeFunds, OpenAll, PostAll, Consume, DeriveStatus, Finalizable;
  }

  lemma OfSame(db: Db, db': Db, ref: Ref)
    requires SameFunds(db.wallet, db'.wallet, ref) && SameLimits(db.quota, db'.quota, ref)
    ensures HoldsOf(db'.wallet.holds, ref) == HoldsOf(db.wallet.holds, ref)
    ensures LimitsOf(db'.quota.limits, ref) == LimitsOf(db.quota.limits, ref)
    ensures MovesOf(db'.wallet.ledger, ref) == MovesOf(db.wallet.ledger, ref)
  {
  }

  /** An allocation that is not settled has no postings to its name. */
  lemma NotDone(al: Allocation, withdrawals: map<Id, Withdrawal>, deposits: map<Id, DepositRequest>)
    requires AllocationSound(al, withdrawals, deposits) && !al.status.Settled?
    ensures al.debitTx.None? && al.creditTx.None?
  {
  }

  lemma SameSlice(al: Allocation, al': Allocation, r: Withdrawal, r': Withdrawal, d: DepositRequest, d': DepositRequest)
    requires al'.amount == al.amount && r'.user == r.user && r'.created == r.created && d'.user == d.user
    ensures al'.status.Settled? ==>
              && SliceFunds(al', r') == map[ReceiverAccount(r) := Hold(al.amount, Consumed)]
              && SliceVolume(al', r') == Volume(r, Hold(al.amount, Consumed))
              && SliceMoves(al', r', d') == MovesFor(SettleLegs(al, r.user, d.user))
    ensures al'.status == al.status ||
            (Live(al.status) && !al.status.Settled? && Live(al'.status) && !al'.status.Settled?) ==>
              && SliceFunds(al', r') == SliceFunds(al, r) && SliceVolume(al', r') == SliceVolume(al, r)
              && SliceMoves(al', r', d') == SliceMoves(al, r, d)
  {
  }

  // ---------------------------------------------------------------- cancellation and expiry

  /** After a slice was given back the withdrawal holds it again, and nothing else is touched. */
  lemma SliceJoined(db: Db, id: Id)
    requires Inv(db) && id in db.allocations && Live(db.allocations[id].status) && !db.allocations[id].status.Settled?
    ensures Loaded(db, id)
    ensures var (al, part) := (db.allocations[id], WithdrawAllocation(id));
            var (r, whole) := (db.withdrawals[al.withdrawal], Withdraw(al.withdrawal));
            var w' := MergeHold(db.wallet, ReceiverAccount(r), whole, part, al.amount);
            && Sound(w') && w'.accounts == db.wallet.accounts && w'.ledger == db.wallet.ledger
            && HoldsOf(w'.holds, whole) ==
               map[ReceiverAccount(r) := Hold(r.amount - r.assignedTotal + al.amount, Reserved)]
            && HoldsOf(w'.holds, part) == map[]
            && (forall other | other != whole && other != part :: SameFunds(db.wallet, w', other))
  {
    hide Inv, Sound, QuotaSound, HoldsOf, LimitsOf, MovesOf, Explained, IdsSound, RowsSound, LinksSound, TotalsSound,
         AllocationSound, ReversalsSound, MergeHold, SliceVolume, SliceMoves, Volume, DeriveStatus, SameFunds;
    var (al, part) := (db.allocations[id], WithdrawAllocation(id));
    SliceKnown(db, id);
    AllocationParties(al, db.withdrawals, db.deposits);
    var r := db.withdrawals[al.withdrawal];
    Known(db, part);
    UnassignedHeld(db, al.withdrawal);
    MergeHoldEffect(db.wallet, ReceiverAccount(r), Withdraw(al.withdrawal), part, al.amount,
                    Hold(r.amount - r.assignedTotal, Reserved));
  }

  /** And so it is with the volume charged. */
  lemma VolumeJoined(db: Db, id: Id)
    requires Inv(db) && id in db.allocations && Live(db.allocations[id].status) && !db.allocations[id].status.Settled?
    ensures Loaded(db, id)
    ensures var (al, part) := (db.allocations[id], WithdrawAllocation(id));
            var (r, whole) := (db.withdrawals[al.withdrawal], Withdraw(al.withdrawal));
            var q' := Merge(db.quota, whole, part, al.amount);
            && QuotaSound(q')
            && LimitsOf(q'.limits, whole) == Volume(r, Hold(r.amount - r.assignedTotal + al.amount, Reserved))
            && LimitsOf(q'.limits, part) == map[]
            && (forall other | other != whole && other != part :: SameLimits(db.quota, q', other))
  {
    hide Inv, Sound, QuotaSound, HoldsOf, LimitsOf, MovesOf, Explained, IdsSound, RowsSound, LinksSound, TotalsSound,
         AllocationSound, ReversalsSound, Merge, SliceFunds, SliceMoves, Volume, DeriveStatus, SameLimits;
    var (al, part) := (db.allocations[id], WithdrawAllocation(id));
    SliceKnown(db, id);
    AllocationParties(al, db.withdrawals, db.deposits);
    var r := db.withdrawals[al.withdrawal];
    Known(db, part);
    UnassignedHeld(db, al.withdrawal);
    VolumeOf(r, Hold(r.amount - r.assignedTotal, Reserved), al.amount);
    VolumeGrown(r, Hold(r.amount - r.assignedTotal, Reserved), al.amount);
    MergeLimitEffect(db.quota, Withdraw(al.withdrawal), part, al.amount);
  }

  lemma GiveBackShown(db: Db, id: Id, status: AllocationStatus)
    requires Inv(db) && id in db.allocations && Live(db.allocations[id].status) && !db.allocations[id].status.Settled?
    requires !Live(status)
    ensures Loaded(db, id)
    ensures Explained(GiveBack(db, id, status), Withdraw(db.allocations[id].withdrawal))
    ensures Explained(GiveBack(db, id, status), WithdrawAllocation(id))
  {
    hide Inv, Sound, QuotaSound, HoldsOf, LimitsOf, MovesOf, Explained, AllocationSound, MergeHold, Merge, Both,
         DeriveStatus, SameFunds, SameLimits;
    var al := db.allocations[id];
    SliceKnown(db, id);
    SliceJoined(db, id);
    VolumeJoined(db, id);
    AllocationParties(al, db.withdrawals, db.deposits);
    UnassignedHeld(db, al.withdrawal);
    var (r, db') := (db.withdrawals[al.withdrawal], GiveBack(db, id, status));
    NeverApproved(r.amount, r.assignedTotal - al.amount, r.settledTotal);
    UnassignedShown(db', al.withdrawal);
    SliceShown(db', id);
  }

  lemma GiveBackKeepsInv(db: Db, id: Id, status: AllocationStatus)
    requires Inv(db) && id in db.allocations && Live(db.allocations[id].status) && !db.allocations[id].status.Settled?
    requires status.Cancelled? || (status.Expired? && db.allocations[id].status.Assigned?)
    ensures Loaded(db, id) && Inv(GiveBack(db, id, status)) && P2POnly(db, GiveBack(db, id, status))
  {
    hide Inv, Sound, QuotaSound, HoldsOf, LimitsOf, MovesOf, Explained, AllocationSound, Held, Adjusted, Moves,
         MergeHold, Merge, Both, DeriveStatus, P2POnly, SameFunds, SameLimits;
    SliceJoined(db, id);
    VolumeJoined(db, id);
    GiveBackMoves(db, id, status);
    GiveBackShown(db, id, status);
    var db' := GiveBack(db, id, status);
    UnmovedSame(db.wallet, db'.wallet);
    IdKnown(db, id);
    MovesKeepInv(db, db', id);
  }

  lemma IdKnown(db: Db, id: Id)
    requires Inv(db) && id in db.allocations
    ensures id < db.nextId
  {
    hide Sound, QuotaSound, Explained, RowsSound, TotalsSound, LinksSound, ReversalsSound, Conserved;
  }

  lemma GiveBackMoves(db: Db, id: Id, status: AllocationStatus)
    requires Inv(db) && Loaded(db, id) && Live(db.allocations[id].status) && !db.allocations[id].status.Settled?
    requires status.Cancelled? || (status.Expired? && db.allocations[id].status.Assigned?)
    ensures var db' := GiveBack(db, id, status);
            && Moves(db, db', id)
            && AllocationSound(db'.allocations[id], db.withdrawals, db.deposits)
  {
    hide Inv, Sound, QuotaSound, MergeHold, Merge, DeriveStatus, IdsSound, RowsSound, TotalsSound, LinksSound,
         ReversalsSound, Explained, HoldsOf, LimitsOf, MovesOf, SliceFunds, SliceVolume, SliceMoves;
    var al := db.allocations[id];
    SliceKnown(db, id);
    LiveFits(db, id);
    DepositKnown(db, al.deposit);
    UnassignedHeld(db, al.withdrawal);
    assert AllocationSound(al, db.withdrawals, db.deposits);
  }

  lemma CancelKeepsInv(db: Db, id: Id)
    requires Inv(db) && Cancel(db, id).Ok?
    ensures Inv(Cancel(db, id).value) && P2POnly(db, Cancel(db, id).value)
  {
    hide Inv, GiveBack, SameView;
    if Cancel(db, id).value != db {
      GiveBackKeepsInv(db, id, AllocationStatus.Cancelled);
    } else {
      SameBooks(db);
    }
  }

  lemma SameBooks(db: Db)
    ensures P2POnly(db, db)
  {
  }

  lemma ExpireOneKeepsInv(db: Db, id: Id)
    requires Inv(db)
    ensures Inv(ExpireOne(db, id)) && P2POnly(db, ExpireOne(db, id))
  {
    hide Inv, GiveBack, SameView;
    if id in db.allocations && db.allocations[id].status.Assigned? {
      GiveBackKeepsInv(db, id, AllocationStatus.Expired);
    } else {
      SameBooks(db);
    }
  }

  lemma {:induction false} ExpireAllKeepsInv(db: Db, ids: seq<Id>)
    requires Inv(db)
    ensures Inv(ExpireAll(db, ids)) && P2POnly(db, ExpireAll(db, ids))
  {
    hide Inv, ExpireOne, HoldsOf, LimitsOf, MovesOf;
    if ids == [] {
      SameBooks(db);
    } else {
      var db1 := ExpireAll(db, ids[..|ids| - 1]);
      ExpireAllKeepsInv(db, ids[..|ids| - 1]);
      ExpireOneKeepsInv(db1, ids[|ids| - 1]);
      P2PChain(db, db1, ExpireAll(db, ids));
    }
  }

  lemma P2PChain(db: Db, db1: Db, db2: Db)
    requires P2POnly(db, db1) && P2POnly(db1, db2)
    ensures P2POnly(db, db2)
  {
    hide HoldsOf, LimitsOf, MovesOf;
    forall r: Ref | !r.Withdraw? && !r.WithdrawAllocation? ensures SameView(db, db2, r) {
      assert SameView(db, db1, r) && SameView(db1, db2, r);
    }
  }

  // ---------------------------------------------------------------- proof and confirmations

  /** A live allocation is written back with another status, still unsettled: no total and no reservation moves. */
  lemma StatusKeepsInv(db: Db, id: Id, al': Allocation)
    requires Inv(db) && id in db.allocations && Live(db.allocations[id].status) && !db.allocations[id].status.Settled?
    requires var al := db.allocations[id];
             && al' == al.(status := al'.status, proofSubmitted := al'.proofSubmitted,
                           receiverConfirmed := al'.receiverConfirmed, adminVerified := al'.adminVerified)
             && (al.proofSubmitted ==> al'.proofSubmitted) && Live(al'.status) && !al'.status.Settled?
             && (AllocationSound(al, db.withdrawals, db.deposits) ==> AllocationSound(al', db.withdrawals, db.deposits))
    ensures Inv(WithRow(db, id, al')) && P2POnly(db, WithRow(db, id, al'))
  {
    hide Inv, Sound, QuotaSound, HoldsOf, LimitsOf, MovesOf, Explained, IdsSound, RowsSound, LinksSound, TotalsSound,
         AllocationSound, ReversalsSound, Held, Adjusted, Both, DeriveStatus, P2POnly, MovesFor;
    var (al, db') := (db.allocations[id], WithRow(db, id, al'));
    SliceKnown(db, id);
    Known(db, WithdrawAllocation(id));
    LiveFits(db, id);
    AllocationParties(al, db.withdrawals, db.deposits);
    UnassignedHeld(db, al.withdrawal);
    DepositKnown(db, al.deposit);
    var (r, d) := (db.withdrawals[al.withdrawal], db.deposits[al.deposit]);
    assert db.withdrawals == db.withdrawals[al.withdrawal := r] && db.deposits == db.deposits[al.deposit := d];
    assert Moves(db, db', id);
    hide Moves;
    SameSlice(al, al', r, r, d, d);
    NeverApproved(r.amount, r.assignedTotal, r.settledTotal);
    hide Live, SliceFunds, SliceVolume, SliceMoves;
    UnassignedShown(db', al.withdrawal);
    SliceShown(db', id);
    MovesKeepInv(db, db', id);
  }

  lemma ProofsAdded(db: Db, id: Id, files: seq<Id>)
    requires ProofsSound(db.proofs, db.allocations) && id in db.allocations && db.allocations[id].proofSubmitted
    ensures ProofsSound(db.proofs + ProofsFor(id, files), db.allocations)
  {
  }

  /** Nothing else rests on the proofs. */
  lemma ProofsKeepInv(db: Db, db': Db)
    requires Inv(db) && db' == db.(proofs := db'.proofs) && ProofsSound(db'.proofs, db.allocations)
    ensures Inv(db') && P2POnly(db, db')
  {
    hide HoldsOf, LimitsOf, MovesOf;
    ProofsApart(db, db');
  }

  lemma SubmitProofKeepsInv(db: Db, id: Id, user: UserId, files: seq<Id>, filesFound: bool, filesOwned: bool, now: int)
    requires Inv(db) && SubmitProof(db, id, user, files, filesFound, filesOwned, now).Ok?
    ensures var db' := SubmitProof(db, id, user, files, filesFound, filesOwned, now).value; Inv(db') && P2POnly(db, db')
  {
    hide Inv, P2POnly, ProofsSound;
    var db' := SubmitProof(db, id, user, files, filesFound, filesOwned, now).value;
    var db1 := WithRow(db, id, db'.allocations[id]);
    StatusKeepsInv(db, id, db'.allocations[id]);
    Known(db1, Withdraw(0));
    ProofsAdded(db1, id, files);
    ProofsKeepInv(db1, db');
    P2PChain(db, db1, db');
  }

  lemma ReceiverConfirmKeepsInv(db: Db, id: Id, user: UserId, confirmed: bool, mode: Mode)
    requires Inv(db) && ReceiverConfirm(db, id, user, confirmed, mode).Ok?
    ensures var db' := ReceiverConfirm(db, id, user, confirmed, mode).value; Inv(db') && P2POnly(db, db')
  {
    hide Inv, SameView;
    StatusKeepsInv(db, id, ReceiverConfirm(db, id, user, confirmed, mode).value.allocations[id]);
  }

  lemma AdminVerifyKeepsInv(db: Db, id: Id, approved: bool)
    requires Inv(db) && AdminVerify(db, id, approved).Ok?
    ensures Inv(AdminVerify(db, id, approved).value) && P2POnly(db, AdminVerify(db, id, approved).value)
  {
    hide Inv, SameView;
    StatusKeepsInv(db, id, AdminVerify(db, id, approved).value.allocations[id]);
  }

  // ---------------------------------------------------------------- the assignment loop

  /** What the items ask of one deposit, repeats included. */
  function SumFor(items: seq<Item>, deposit: Id): int {
    if items == [] then 0 else
      var last := items[|items| - 1];
      SumFor(items[..|items| - 1], deposit) + if last.deposit == deposit then last.amount else 0
  }

  /** All at once: every deposit is a P2P request with room for everything that is asked of it. */
  predicate FitsDeposits(deposits: map<Id, DepositRequest>, items: seq<Item>) {
    forall item <- items ::
      && item.deposit in deposits && deposits[item.deposit].purpose.P2P?
      && SumFor(items, item.deposit) <= Remaining(deposits[item.deposit])
  }

  predicate Positive(items: seq<Item>) {
    forall item <- items :: item.amount > 0
  }

  lemma FitsLast(deposits: map<Id, DepositRequest>, items: seq<Item>)
    requires items != [] && Positive(items)
    ensures var (front, last) := (items[..|items| - 1], items[|items| - 1]);
            && last.amount > 0 && Positive(front)
            && (FitsDeposits(deposits, items)
                <==> && FitsDeposits(deposits, front)
                     && last.deposit in deposits && deposits[last.deposit].purpose.P2P?
                     && SumFor(front, last.deposit) + last.amount <= Remaining(deposits[last.deposit]))
  {
    var (front, last) := (items[..|items| - 1], items[|items| - 1]);
    assert items == front + [last];
    assert forall item <- front :: item in items;
  }

  /** One new allocation per item, in order; the old ones stay as they were. */
  ghost predicate Made(before: map<Id, Allocation>, after: map<Id, Allocation>, first: Id, w: Id, items: seq<Item>,
                       expiresAt: int)
  {
    && (forall id <- before :: id in after && after[id] == before[id])
    && (forall k: nat | k < |items| :: Holds(after, first + k, NewAllocation(w, items[k], expiresAt)))
  }

  predicate Holds(allocations: map<Id, Allocation>, id: Id, al: Allocation) {
    id in allocations && allocations[id] == al
  }

  /** Where the loop stands after some items. */
  ghost predicate Progress(db: Db, db': Db, w: Id, items: seq<Item>, expiresAt: int) {
    && Inv(db') && P2POnly(db, db')
    && w in db.withdrawals && w in db'.withdrawals
    && db'.withdrawals[w] == db.withdrawals[w].(assignedTotal := db.withdrawals[w].assignedTotal + Sum(items),
                                                status := db'.withdrawals[w].status)
    && (forall d :: d in db'.deposits <==> d in db.deposits)
    && (forall d <- db.deposits :: db'.deposits[d].purpose == db.deposits[d].purpose
          && Remaining(db'.deposits[d]) == Remaining(db.deposits[d]) - SumFor(items, d))
    && db'.nextId == db.nextId + |items|
    && db'.assignments == db.assignments
    && Made(db.allocations, db'.allocations, db.nextId, w, items, expiresAt)
  }

  lemma MadeNext(before: map<Id, Allocation>, after: map<Id, Allocation>, first: Id, w: Id, items: seq<Item>,
                 expiresAt: int)
    requires items != [] && Made(before, after, first, w, items[..|items| - 1], expiresAt) &&
             first + |items| - 1 !in after
    ensures Made(before, after[first + |items| - 1 := NewAllocation(w, items[|items| - 1], expiresAt)], first, w, items,
                 expiresAt)
  {
    var after' := after[first + |items| - 1 := NewAllocation(w, items[|items| - 1], expiresAt)];
    forall k: nat | k < |items| ensures Holds(after', first + k, NewAllocation(w, items[k], expiresAt)) {
      if k < |items| - 1 {
        assert Holds(after, first + k, NewAllocation(w, items[..|items| - 1][k], expiresAt));
      }
    }
  }

  lemma NextUnused(db: Db)
    requires Inv(db)
    ensures db.nextId !in db.allocations
  {
    hide Inv, Sound, QuotaSound, Explained, RowsSound, TotalsSound, LinksSound, ReversalsSound;
    Known(db, Withdraw(0));
  }

  lemma ProgressNext(db: Db, db1: Db, w: Id, items: seq<Item>, expiresAt: int)
    requires items != [] && Progress(db, db1, w, items[..|items| - 1], expiresAt) &&
             AssignOne(db1, w, items[|items| - 1], expiresAt).Ok?
    requires Inv(db1)
    requires var db' := AssignOne(db1, w, items[|items| - 1], expiresAt).value; Inv(db') && P2POnly(db1, db')
    ensures Progress(db, AssignOne(db1, w, items[|items| - 1], expiresAt).value, w, items, expiresAt)
  {
    hide Inv, P2POnly, SplitHold, Split, DeriveStatus, Made;
    NextUnused(db1);
    MadeNext(db.allocations, db1.allocations, db.nextId, w, items, expiresAt);
    P2PChain(db, db1, AssignOne(db1, w, items[|items| - 1], expiresAt).value);
  }

  /** The loop of running checks goes through exactly when everything fits at once. */
  lemma {:induction false} AssignAllIff(db: Db, w: Id, items: seq<Item>, expiresAt: int)
    requires Inv(db) && w in db.withdrawals && db.withdrawals[w].purpose.P2P? && Positive(items)
    requires Sum(items) <= db.withdrawals[w].amount - db.withdrawals[w].assignedTotal
    ensures AssignAll(db, w, items, expiresAt).Ok? <==> FitsDeposits(db.deposits, items)
    ensures AssignAll(db, w, items, expiresAt).Ok? ==>
            Progress(db, AssignAll(db, w, items, expiresAt).value, w, items, expiresAt)
  {
    hide Inv, P2POnly, AssignOne;
    if items == [] {
      SameBooks(db);
    } else {
      hide Positive, FitsDeposits;
      var (front, last) := (items[..|items| - 1], items[|items| - 1]);
      FitsLast(db.deposits, items);
      AssignAllIff(db, w, front, expiresAt);
      if AssignAll(db, w, front, expiresAt).Ok? {
        var db1 := AssignAll(db, w, front, expiresAt).value;
        AssignOneIff(db1, w, last, expiresAt);
        if AssignOne(db1, w, last, expiresAt).Ok? {
          ProgressNext(db, db1, w, items, expiresAt);
        }
      }
    }
  }

  /** What an assignment must meet, given that its key is new and a destination resolves. */
  predicate Assignable(db: Db, w: Id, items: seq<Item>) {
    && items != [] && Positive(items)
    && w in db.withdrawals && db.withdrawals[w].purpose.P2P?
    && Sum(items) <= db.withdrawals[w].amount - db.withdrawals[w].assignedTotal
    && FitsDeposits(db.deposits, items)
  }

  predicate Replays(db: Db, w: Id, key: Option<nat>) {
    key.Some? && AssignKey(key.value, w) in db.assignments
  }

  /** An assignment succeeds exactly when it is assignable, and then all of it is made. */
  lemma AssignSucceedsIff(db: Db, w: Id, items: seq<Item>, key: Option<nat>, expiresAt: int)
    requires Inv(db) && !Replays(db, w, key)
    ensures Assign(db, w, items, key, true, expiresAt).Ok? <==> Assignable(db, w, items)
    ensures Assign(db, w, items, key, true, expiresAt).Ok? ==>
              var (db', made) := Assign(db, w, items, key, true, expiresAt).value;
              && db'.withdrawals[w].assignedTotal == db.withdrawals[w].assignedTotal + Sum(items)
              && (forall d <- db.deposits ::
                  d in db'.deposits && Remaining(db'.deposits[d]) == Remaining(db.deposits[d]) - SumFor(items, d))
              && made == IdsFrom(db.nextId, |items|) &&
                 Made(db.allocations, db'.allocations, db.nextId, w, items, expiresAt)
  {
    hide Inv, AssignAll, FitsDeposits, P2POnly, Made;
    if items != [] && Positive(items) && w in db.withdrawals && db.withdrawals[w].purpose.P2P?
       && Sum(items) <= db.withdrawals[w].amount - db.withdrawals[w].assignedTotal {
      AssignAllIff(db, w, items, expiresAt);
    }
  }

  /** An allocation as it starts out: nothing submitted, confirmed or posted. */
  predicate Starts(allocations: map<Id, Allocation>, id: Id, w: Id, deposit: Id, amount: int, expiresAt: int) {
    id in allocations
    && allocations[id] == Allocation(w, deposit, amount, Assigned, expiresAt, false, false, false, None, None)
  }

  /** A request may name a list of items, or one deposit, or a candidate, with an amount: the list counts if there is
      one, and the deposit before the candidate. With a destination to pay to, what is assigned is exactly that. */
  lemma RequestAssigned(db: Db, w: Id, request: AssignRequest, key: Option<nat>, destinationOk: bool, expiresAt: int)
    requires Inv(db) && !Replays(db, w, key)
    requires Assign(db, w, NormalizeItems(request), key, destinationOk, expiresAt).Ok?
    ensures destinationOk
    ensures var (db', made) := Assign(db, w, NormalizeItems(request), key, destinationOk, expiresAt).value;
            if request.items != [] then
              && |made| == |request.items|
              && forall k: nat | k < |made| ::
                   Starts(db'.allocations, made[k], w, request.items[k].deposit, request.items[k].amount, expiresAt)
            else
              && request.amount.Some? && (request.deposit.Some? || request.candidate.Some?) && |made| == 1
              && Starts(db'.allocations, made[0], w, if request.deposit.Some? then request.deposit.value
                                                     else request.candidate.value, request.amount.value, expiresAt)
  {
    hide Inv, AssignAll, FitsDeposits, P2POnly;
    var items := NormalizeItems(request);
    AssignSucceedsIff(db, w, items, key, expiresAt);
    var (db', made) := Assign(db, w, items, key, destinationOk, expiresAt).value;
    forall k: nat | k < |items|
      ensures Starts(db'.allocations, made[k], w, items[k].deposit, items[k].amount, expiresAt) {
      assert made[k] == db.nextId + k;
      assert Holds(db'.allocations, made[k], NewAllocation(w, items[k], expiresAt));
    }
  }

  lemma AssignKeepsInv(db: Db, w: Id, items: seq<Item>, key: Option<nat>, destinationOk: bool, expiresAt: int)
    requires Inv(db) && Assign(db, w, items, key, destinationOk, expiresAt).Ok?
    ensures var db' := Assign(db, w, items, key, destinationOk, expiresAt).value.0; Inv(db') && P2POnly(db, db')
  {
    hide Inv, AssignAll, FitsDeposits, P2POnly;
    if Replays(db, w, key) {
      SameBooks(db);
    } else {
      AssignAllIff(db, w, items, expiresAt);
      AssignmentsApart(AssignAll(db, w, items, expiresAt).value, db,
                       Assign(db, w, items, key, destinationOk, expiresAt).value.0);
    }
  }

  /** The stored responses are not part of what must hold. */
  lemma AssignmentsApart(db1: Db, db: Db, db': Db)
    requires Inv(db1) && P2POnly(db, db1) && db' == db1.(assignments := db'.assignments)
    ensures Inv(db') && P2POnly(db, db')
  {
    hide Inv, HoldsOf, LimitsOf, MovesOf;
    IndexApart(db1, db');
    forall r: Ref | !r.Withdraw? && !r.WithdrawAllocation? ensures SameView(db, db', r) {
      assert SameView(db, db1, r);
    }
  }

  /** Repeating an assignment under its key returns what was stored and changes nothing, whatever happened in between
      as long as the stored responses are kept. */
  lemma AssignReplays(db: Db, w: Id, items: seq<Item>, key: nat, destinationOk: bool, expiresAt: int,
                      later: Db, items': seq<Item>, destinationOk': bool, expiresAt': int)
    requires Assign(db, w, items, Some(key), destinationOk, expiresAt).Ok? && items' != [] && Positive(items')
    requires var db' := Assign(db, w, items, Some(key), destinationOk, expiresAt).value.0;
             forall k <- db'.assignments :: k in later.assignments && later.assignments[k] == db'.assignments[k]
    ensures Assign(later, w, items', Some(key), destinationOk', expiresAt')
         == Ok((later, Assign(db, w, items, Some(key), destinationOk, expiresAt).value.1))
  {
    hide AssignAll;
  }
}
