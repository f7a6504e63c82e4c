/** What a transaction that works on one reference leaves alone. */
module Frames {
  import opened Base
  import opened Sums
  import opened Accounts
  import opened Limits
  import opened State

  ghost predicate SameView(db: Db, db': Db, ref: Ref) {
    ViewOf(db', ref) == ViewOf(db, ref)
  }

  /** What the other references carry in the books is left alone. */
  ghost predicate OnlyOn(db: Db, db': Db, ref: Ref) {
    forall r | r != ref :: SameView(db, db', r)
  }

  /** The total over all accounts is what it was, in every instrument. */
  ghost predicate SameHeld(db: Db, db': Db) {
    forall i :: Held(db'.wallet, i) == Held(db.wallet, i)
  }

  /** Two tables that may differ in one row. */
  ghost predicate SameBut<V>(m: map<Id, V>, m': map<Id, V>, id: Id) {
    forall k | k != id :: (k in m <==> k in m') && (k in m ==> m[k] == m'[k])
  }

  /** Every request other than the one `ref` names kept its row, and no request changed hands. */
  ghost predicate Agree(db: Db, db': Db, ref: Ref) {
    && (if ref.Withdraw? then SameBut(db.withdrawals, db'.withdrawals, ref.id) else db'.withdrawals == db.withdrawals)
    && (if ref.WithdrawAllocation? then SameBut(db.allocations, db'.allocations, ref.id)
        else db'.allocations == db.allocations)
    && (if ref.Deposit? then SameBut(db.deposits, db'.deposits, ref.id) else db'.deposits == db.deposits)
    && (if ref.Trade? then SameBut(db.trades, db'.trades, ref.id) else db'.trades == db.trades)
    && (if ref.Custody? then SameBut(db.movements, db'.movements, ref.id) else db'.movements == db.movements)
    && (if ref.Remittance? then SameBut(db.remittances, db'.remittances, ref.id) else db'.remittances == db.remittances)
    && Parties(db, db')
  }

  ghost predicate Parties(db: Db, db': Db) {
    && (forall id <- db.withdrawals :: id in db'.withdrawals && db'.withdrawals[id].user == db.withdrawals[id].user
          && db'.withdrawals[id].created == db.withdrawals[id].created)
    && (forall id <- db.deposits :: id in db'.deposits && db'.deposits[id].user == db.deposits[id].user)
  }

  /** Indexed requests stay where their keys lead. */
  ghost predicate RequestsKept(db: Db, db': Db) {
    forall k <- db.requests :: k in db'.requests && db'.requests[k] == db.requests[k]
  }

  /** Responses to assignments are stored once, and stay. */
  ghost predicate AssignmentsKept(db: Db, db': Db) {
    forall k <- db.assignments :: k in db'.assignments && db'.assignments[k] == db.assignments[k]
  }

  /** What no transaction ever takes back. */
  ghost predicate Stays(db: Db, db': Db) {
    RequestsKept(db, db') && AssignmentsKept(db, db') && db.nextId <= db'.nextId
  }

  predicate RemittancesAside(db: Db, db': Db) {
    db'.remittances == db.remittances && db'.links == db.links
  }

  /** A transaction of any service but the P2P one. */
  ghost predicate Aside(db: Db, db': Db) {
    db'.allocations == db.allocations && db'.proofs == db.proofs && Stays(db, db')
  }

  /** A new request of one of these services, before it is indexed. */
  predicate Adds(db: Db, db': Db) {
    && db'.allocations == db.allocations && db'.proofs == db.proofs
    && db'.assignments == db.assignments && db'.requests == db.requests
    && db'.links == db.links && db'.nextId == db.nextId + 1 && db.remittances.Keys <= db'.remittances.Keys
  }

  /** All that a decision on a request may do to the counters. */
  predicate Decided(q: Quota, q': Quota, ref: Ref) {
    q' == q || q' == Consume(q, ref) || q' == Release(q, ref)
  }

  /** A decision on the request that `ref` names. */
  predicate Decides(db: Db, db': Db, ref: Ref) {
    && db'.allocations == db.allocations && db'.proofs == db.proofs
    && db'.assignments == db.assignments && db'.requests == db.requests
    && db'.nextId == db.nextId && db'.links == db.links
    && (ref.Remittance? || db'.remittances == db.remittances)
    && Decided(db.quota, db'.quota, ref)
  }

  lemma DecidesAside(db: Db, db': Db, ref: Ref)
    requires Decides(db, db', ref)
    ensures Aside(db, db') && (!ref.Remittance? ==> RemittancesAside(db, db'))
  {
  }

  lemma StillExplained(db: Db, db': Db, ref: Ref, other: Ref)
    requires Explained(db, other) && SameView(db, db', other) && Agree(db, db', ref) && other != ref
    ensures Explained(db', other)
  {
    hide HoldsOf, LimitsOf, MovesOf, WithdrawalView, AllocationView, DepositView, TradeView, MovementView,
         RemittanceView, RemittanceFate;
  }

  /** The parts of the invariant that the lemmas about one request start from. */
  lemma Known(db: Db, ref: Ref)
    requires Inv(db)
    ensures Sound(db.wallet) && QuotaSound(db.quota) && Explained(db, ref)
    ensures IdsSound(db) && RowsSound(db) && TotalsSound(db) && LinksSound(db.remittances, db.links)
    ensures ReversalsSound(db.wallet.ledger, db.trades)
  {
  }

  /** An identifier that has not been handed out carries nothing in the books. */
  lemma FreshReference(db: Db, ref: Ref)
    requires Inv(db) && ref.id >= db.nextId && !ref.Adjustment?
    ensures HoldsOf(db.wallet.holds, ref) == map[] && LimitsOf(db.quota.limits, ref) == map[]
    ensures MovesOf(db.wallet.ledger, ref) == []
  {
    hide HoldsOf, LimitsOf, MovesOf, Sound, QuotaSound, RowsSound, TotalsSound, LinksSound, ReversalsSound, Conserved;
    assert Explained(db, ref);
  }

  lemma IdUnused(db: Db)
    requires IdsSound(db)
    ensures db.nextId !in db.withdrawals && db.nextId !in db.deposits && db.nextId !in db.allocations
    ensures db.nextId !in db.trades && db.nextId !in db.movements && db.nextId !in db.remittances
  {
  }

  lemma ReversalsKept(ledger: seq<Posting>, ledger': seq<Posting>, trades: map<Id, TradeRow>,
                      trades': map<Id, TradeRow>)
    requires ReversalsSound(ledger, trades) && ledger <= ledger'
    requires forall j | |ledger| <= j < |ledger'| :: ledger'[j].reversalOf.None?
    requires forall id <- trades :: id in trades' && (trades[id].reversed ==> trades'[id].reversed)
    ensures ReversalsSound(ledger', trades')
  {
    forall j | 0 <= j < |ledger'| && ledger'[j].reversalOf.Some?
      ensures ledger'[j].reversalOf.value < j
      ensures ledger'[j].ref.Trade? && ledger'[j].ref == ledger'[ledger'[j].reversalOf.value].ref
      ensures ledger'[j].ref.id in trades' && trades'[ledger'[j].ref.id].reversed
    {
      assert j < |ledger| && ledger'[j] == ledger[j];
      assert ledger'[ledger[j].reversalOf.value] == ledger[ledger[j].reversalOf.value];
    }
  }

  lemma DepositsExtend(deposits: map<Id, DepositRequest>, ledger: seq<Posting>, ledger': seq<Posting>)
    requires DepositsSound(deposits, ledger) && ledger <= ledger'
    ensures DepositsSound(deposits, ledger')
  {
  }

  /** The tables after one withdrawal row of a P2P-free change: all but its status stays. */
  lemma WithdrawalRow(db: Db, db': Db, id: Id, r: Withdrawal)
    requires IdsSound(db) && RowsSound(db) && TotalsSound(db)
    requires db'.withdrawals == db.withdrawals[id := r] && id in db.withdrawals
    requires WithdrawalSound(r) && r.purpose.Direct? && r == db.withdrawals[id].(status := r.status, tx := r.tx)
    requires db'.deposits == db.deposits && db'.allocations == db.allocations && db'.proofs == db.proofs &&
             db'.trades == db.trades
    requires db'.movements == db.movements && db'.remittances == db.remittances && db'.nextId == db.nextId
    requires db.wallet.ledger <= db'.wallet.ledger
    ensures Agree(db, db', Withdraw(id)) && IdsSound(db') && RowsSound(db') && TotalsSound(db')
  {
    hide DepositsTotal, DepositsSound, TradesSound, MovementsSound, Total, DeriveStatus;
    DepositsExtend(db.deposits, db.wallet.ledger, db'.wallet.ledger);
    assert WithdrawalTotals(id, db.withdrawals[id], db.allocations);
  }

  lemma FreshWithdrawal(db: Db, db': Db, r: Withdrawal)
    requires IdsSound(db) && RowsSound(db) && TotalsSound(db)
    requires db'.withdrawals == db.withdrawals[db.nextId := r] && db'.nextId == db.nextId + 1
    requires WithdrawalSound(r) && r.assignedTotal == 0 && r.settledTotal == 0
    requires r.purpose.P2P? ==> r.status == WaitingAssignment
    requires db'.deposits == db.deposits && db'.allocations == db.allocations && db'.proofs == db.proofs &&
             db'.trades == db.trades
    requires db'.movements == db.movements && db'.remittances == db.remittances && db'.wallet.ledger == db.wallet.ledger
    ensures Agree(db, db', Withdraw(db.nextId)) && IdsSound(db') && RowsSound(db') && TotalsSound(db')
  {
    hide DepositsTotal, DepositsSound, TradesSound, MovementsSound, WithdrawalsTotal, AllocationsSound, Total,
         WithdrawalTotals, WithdrawalSound;
    IdUnused(db);
    NothingAssigned(db.allocations, db.withdrawals, db.deposits, db.nextId);
    FreshTotalsOf(db.withdrawals, db.allocations, db.nextId, r);
    AllocationsExtend(db.allocations, db.withdrawals, db.deposits, db.nextId, r);
  }

  lemma NothingAssigned(allocations: map<Id, Allocation>, withdrawals: map<Id, Withdrawal>,
                        deposits: map<Id, DepositRequest>, id: Id)
    requires AllocationsSound(allocations, withdrawals, deposits) && id !in withdrawals
    ensures Total(allocations, AssignedTo(id)) == 0 == Total(allocations, SettledTo(id))
  {
    hide Total, Consistent;
    forall k <- allocations ensures allocations[k].withdrawal != id {
      assert AllocationSound(allocations[k], withdrawals, deposits);
    }
    AllZero(allocations, AssignedTo(id));
    AllZero(allocations, SettledTo(id));
  }

  lemma FreshTotalsOf(withdrawals: map<Id, Withdrawal>, allocations: map<Id, Allocation>, id: Id, r: Withdrawal)
    requires WithdrawalsTotal(withdrawals, allocations) && r.assignedTotal == 0 && r.settledTotal == 0 &&
             WithdrawalSound(r)
    requires r.purpose.P2P? ==> r.status == WaitingAssignment
    requires Total(allocations, AssignedTo(id)) == 0 == Total(allocations, SettledTo(id))
    ensures WithdrawalsTotal(withdrawals[id := r], allocations)
  {
    hide Total, AssignedTo, SettledTo;
    assert WithdrawalTotals(id, r, allocations);
    hide WithdrawalTotals;
  }

  lemma AllocationsExtend(allocations: map<Id, Allocation>, withdrawals: map<Id, Withdrawal>,
                          deposits: map<Id, DepositRequest>, id: Id, r: Withdrawal)
    requires AllocationsSound(allocations, withdrawals, deposits) && id !in withdrawals
    ensures AllocationsSound(allocations, withdrawals[id := r], deposits)
  {
    hide Consistent;
    forall k <- allocations ensures AllocationSound(allocations[k], withdrawals[id := r], deposits) {
      assert AllocationSound(allocations[k], withdrawals, deposits);
    }
  }

  lemma IssuedAfterWithdrawal(db: Db, db': Db, id: Id, r: Withdrawal)
    requires db'.withdrawals == db.withdrawals[id := r] && db'.deposits == db.deposits
    requires forall i :: Adjusted(db'.wallet.ledger, i) == Adjusted(db.wallet.ledger, i)
    ensures forall i :: Issued(db', i) == Issued(db, i) -
              if i == IRR then WithdrawnBy()(id, r) - At(db.withdrawals, WithdrawnBy(), id) else 0
  {
    hide Total, Adjusted;
    SetRow(db.withdrawals, WithdrawnBy(), id, r);
  }

  lemma DepositRow(db: Db, db': Db, id: Id, d: DepositRequest)
    requires IdsSound(db) && RowsSound(db) && TotalsSound(db)
    requires db'.deposits == db.deposits[id := d] && id in db.deposits
    requires DepositSound(d, db'.wallet.ledger) && d.purpose.Direct? &&
             d == db.deposits[id].(status := d.status, tx := d.tx)
    requires db'.withdrawals == db.withdrawals && db'.allocations == db.allocations && db'.proofs == db.proofs &&
             db'.trades == db.trades
    requires db'.movements == db.movements && db'.remittances == db.remittances && db'.nextId == db.nextId
    requires db.wallet.ledger <= db'.wallet.ledger
    ensures Agree(db, db', Ref.Deposit(id)) && IdsSound(db') && RowsSound(db') && TotalsSound(db')
  {
    hide WithdrawalsTotal, WithdrawalsSound, TradesSound, MovementsSound, Total, DeriveStatus;
    DepositsExtend(db.deposits, db.wallet.ledger, db'.wallet.ledger);
    assert DepositTotals(id, db.deposits[id], db.allocations);
  }

  /** Nothing is allocated to a deposit that does not exist yet. */
  lemma NoAllocations(db: Db)
    requires IdsSound(db) && RowsSound(db)
    ensures Total(db.allocations, AssignedFrom(db.nextId)) == 0 == Total(db.allocations, SettledFrom(db.nextId))
  {
    hide WithdrawalsSound, DepositsSound, TradesSound, MovementsSound, Total;
    forall k <- db.allocations ensures db.allocations[k].deposit != db.nextId {
      assert AllocationSound(db.allocations[k], db.withdrawals, db.deposits);
    }
    AllZero(db.allocations, AssignedFrom(db.nextId));
    AllZero(db.allocations, SettledFrom(db.nextId));
  }

  lemma FreshDeposit(db: Db, db': Db, d: DepositRequest)
    requires IdsSound(db) && RowsSound(db) && TotalsSound(db)
    requires db'.deposits == db.deposits[db.nextId := d] && db'.nextId == db.nextId + 1
    requires d.assignedTotal == 0 && d.settledTotal == 0 && d.tx.None?
    requires if d.purpose.P2P? then d.status == WaitingAssignment && d.remaining == Some(d.amount)
             else d.status == RequestStatus.Pending && d.remaining == None
    requires db'.withdrawals == db.withdrawals && db'.allocations == db.allocations && db'.proofs == db.proofs &&
             db'.trades == db.trades
    requires db'.movements == db.movements && db'.remittances == db.remittances && db'.wallet.ledger == db.wallet.ledger
    ensures Agree(db, db', Ref.Deposit(db.nextId)) && IdsSound(db') && RowsSound(db') && TotalsSound(db')
  {
    hide WithdrawalsTotal, DepositsTotal, WithdrawalsSound, TradesSound, MovementsSound, DepositTotals;
    NoAllocations(db);
    FreshTotals(db.deposits, db.allocations, db.nextId, d);
  }

  lemma FreshTotals(deposits: map<Id, DepositRequest>, allocations: map<Id, Allocation>, id: Id, d: DepositRequest)
    requires DepositsTotal(deposits, allocations) && d.assignedTotal == 0 && d.settledTotal == 0
    requires d.purpose.P2P? ==> d.status == WaitingAssignment && d.remaining == Some(d.amount)
    requires Total(allocations, AssignedFrom(id)) == 0 == Total(allocations, SettledFrom(id))
    ensures DepositsTotal(deposits[id := d], allocations)
  {
    hide Total, AssignedFrom, SettledFrom;
    assert DepositTotals(id, d, allocations);
    hide DepositTotals;
  }

  lemma IssuedAfterDeposit(db: Db, db': Db, id: Id, d: DepositRequest)
    requires db'.deposits == db.deposits[id := d] && db'.withdrawals == db.withdrawals
    requires forall i :: Adjusted(db'.wallet.ledger, i) == Adjusted(db.wallet.ledger, i)
    ensures forall i :: Issued(db', i) == Issued(db, i) +
              if i == IRR then DepositedBy()(id, d) - At(db.deposits, DepositedBy(), id) else 0
  {
    hide Total, Adjusted;
    SetRow(db.deposits, DepositedBy(), id, d);
  }

  lemma IssuedUnmoved(db: Db, db': Db)
    requires db'.deposits == db.deposits && db'.withdrawals == db.withdrawals
    requires forall i :: Adjusted(db'.wallet.ledger, i) == Adjusted(db.wallet.ledger, i)
    ensures forall i :: Issued(db', i) == Issued(db, i)
  {
  }

  /** The tables after one trade row is written, new or old. */
  lemma TradeWritten(db: Db, db': Db, id: Id, t: TradeRow)
    requires IdsSound(db) && RowsSound(db) && TotalsSound(db)
    requires db'.trades == db.trades[id := t] && id < db'.nextId && db.nextId <= db'.nextId && TradeSound(t)
    requires db'.withdrawals == db.withdrawals && db'.deposits == db.deposits && db'.allocations == db.allocations
    requires db'.proofs == db.proofs
    requires db'.movements == db.movements && db'.remittances == db.remittances
    requires db.wallet.ledger <= db'.wallet.ledger
    ensures Agree(db, db', Ref.Trade(id)) && IdsSound(db') && RowsSound(db') && TotalsSound(db')
  {
    hide WithdrawalsTotal, DepositsTotal, WithdrawalsSound, DepositsSound, AllocationsSound, MovementsSound;
    DepositsExtend(db.deposits, db.wallet.ledger, db'.wallet.ledger);
  }

  lemma MovementWritten(db: Db, db': Db, id: Id, m: Movement)
    requires IdsSound(db) && RowsSound(db) && TotalsSound(db)
    requires db'.movements == db.movements[id := m] && id < db'.nextId && db.nextId <= db'.nextId && m.equiv >= 0
    requires db'.withdrawals == db.withdrawals && db'.deposits == db.deposits && db'.allocations == db.allocations
    requires db'.proofs == db.proofs
    requires db'.trades == db.trades && db'.remittances == db.remittances
    requires db.wallet.ledger <= db'.wallet.ledger
    ensures Agree(db, db', Custody(id)) && IdsSound(db') && RowsSound(db') && TotalsSound(db')
  {
    hide WithdrawalsTotal, DepositsTotal, WithdrawalsSound, DepositsSound, AllocationsSound, TradesSound;
    DepositsExtend(db.deposits, db.wallet.ledger, db'.wallet.ledger);
  }

  /** The tables after one remittance row is written, new or old; its links are the caller's business. */
  lemma RemittanceWritten(db: Db, db': Db, id: Id, r: RemittanceRow)
    requires IdsSound(db) && RowsSound(db) && TotalsSound(db)
    requires db'.remittances == db.remittances[id := r] && id < db'.nextId && db.nextId <= db'.nextId
    requires db'.withdrawals == db.withdrawals && db'.deposits == db.deposits && db'.allocations == db.allocations
    requires db'.proofs == db.proofs
    requires db'.trades == db.trades && db'.movements == db.movements
    requires db.wallet.ledger <= db'.wallet.ledger
    ensures Agree(db, db', Ref.Remittance(id)) && IdsSound(db') && RowsSound(db') && TotalsSound(db')
  {
    hide WithdrawalsTotal, DepositsTotal, WithdrawalsSound, DepositsSound, AllocationsSound, TradesSound,
         MovementsSound;
    DepositsExtend(db.deposits, db.wallet.ledger, db'.wallet.ledger);
  }

  lemma SameQuota(q: Quota, ref: Ref)
    requires QuotaSound(q)
    ensures QuotaEffect(q, q, ref, LimitsOf(q.limits, ref))
  {
  }

  /** The frame rule: a transaction whose books changed only under `ref`, and whose own request is
      explained again, keeps the invariant if its tables do. */
  lemma OneRequest(db: Db, db': Db, ref: Ref, funds: map<Acct, Hold>, quotas: map<UsageKey, Hold>, moved: seq<Move>)
    requires Inv(db)
    requires Effect(db.wallet, db'.wallet, ref, funds, moved)
    requires QuotaEffect(db.quota, db'.quota, ref, quotas)
    requires Agree(db, db', ref)
    requires Explained(db', ref)
    requires IdsSound(db') && RowsSound(db') && LinksSound(db'.remittances, db'.links)
    requires TotalsSound(db') && ReversalsSound(db'.wallet.ledger, db'.trades)
    requires forall i :: Issued(db', i) == Issued(db, i) + Net(moved, i)
    ensures Inv(db') && OnlyOn(db, db', ref)
  {
    hide Sound, QuotaSound, HoldsOf, LimitsOf, MovesOf, Explained, Agree, IdsSound, RowsSound, LinksSound, TotalsSound,
         ReversalsSound, Issued, Held, Net, Adjusted;
    forall r ensures Explained(db', r) {
      if r != ref {
        assert SameFunds(db.wallet, db'.wallet, r);
        assert SameLimits(db.quota, db'.quota, r);
        StillExplained(db, db', ref, r);
      }
    }
    forall r | r != ref ensures SameView(db, db', r) {
      assert SameFunds(db.wallet, db'.wallet, r) && SameLimits(db.quota, db'.quota, r);
    }
  }

  // ---------------------------------------------------------------- steps on the wallet alone

  lemma OpenKeepsInv(db: Db, a: Acct)
    requires Inv(db)
    ensures var db' := db.(wallet := GetOrCreate(db.wallet, a));
            Inv(db') && (forall r :: SameView(db, db', r))
  {
    hide Inv, Sound, QuotaSound, IdsSound, RowsSound, TotalsSound, LinksSound, ReversalsSound, Agree, Explained,
         HoldsOf, LimitsOf, MovesOf, Issued, Adjusted, Net, Held;
    var (db', ref) := (db.(wallet := GetOrCreate(db.wallet, a)), Ref.Adjustment(0));
    OpenEffect(db.wallet, a, ref) by {
      Known(db, ref);
    }
    WalletStepKeepsInv(db, db', ref, []);
  }

  /** A step that changes the wallet alone, under a reference of an adjustment. */
  lemma WalletStepKeepsInv(db: Db, db': Db, ref: Ref, moved: seq<Move>)
    requires Inv(db) && ref.Adjustment? && db' == db.(wallet := db'.wallet)
    requires Effect(db.wallet, db'.wallet, ref, HoldsOf(db.wallet.holds, ref), moved)
    ensures Inv(db') && OnlyOn(db, db', ref)
    ensures moved == [] ==> forall r :: SameView(db, db', r)
  {
    hide Inv, Sound, QuotaSound, IdsSound, TotalsSound, LinksSound, Explained, HoldsOf, LimitsOf, ReversalsSound,
         MovesOf, Adjusted, Net, Held, WithdrawalsSound, AllocationsSound, TradesSound, MovementsSound, DepositsSound;
    Known(db, ref);
    NetNil();
    AdjustmentExplained(db, db', ref);
    DepositsExtend(db.deposits, db.wallet.ledger, db'.wallet.ledger);
    SameQuota(db.quota, ref);
    ReversalsKept(db.wallet.ledger, db'.wallet.ledger, db.trades, db'.trades);
    TotalsAside(db, db');
    OneRequest(db, db', ref, HoldsOf(db.wallet.holds, ref), LimitsOf(db.quota.limits, ref), moved);
    if moved == [] {
      assert MovesOf(db.wallet.ledger, ref) + [] == MovesOf(db.wallet.ledger, ref);
      assert SameView(db, db', ref);
    }
  }

  lemma TotalsAside(db: Db, db': Db)
    requires TotalsSound(db) && IdsSound(db) && db' == db.(wallet := db'.wallet)
    ensures TotalsSound(db') && IdsSound(db')
  {
    hide WithdrawalsTotal, DepositsTotal;
  }

  lemma AdjustmentExplained(db: Db, db': Db, ref: Ref)
    requires Explained(db, ref) && ref.Adjustment?
    requires HoldsOf(db'.wallet.holds, ref) == HoldsOf(db.wallet.holds, ref) && db'.quota == db.quota
    ensures Explained(db', ref)
  {
    hide HoldsOf, LimitsOf, MovesOf;
  }

  /** Opening accounts changes no figure and no books. */
  lemma {:induction false} OpenAllKeepsInv(db: Db, accounts: seq<Acct>)
    requires Inv(db)
    ensures var db' := db.(wallet := OpenAll(db.wallet, accounts));
            && Inv(db') && (forall r :: SameView(db, db', r)) && SameHeld(db, db')
            && (forall a :: Row(db'.wallet, a) == Row(db.wallet, a))
    decreases |accounts|
  {
    hide Inv, HoldsOf, LimitsOf, MovesOf, Held, GetOrCreate, Row;
    if accounts != [] {
      var db1 := db.(wallet := GetOrCreate(db.wallet, accounts[0]));
      OpenKeepsInv(db, accounts[0]);
      OpenSame(db.wallet, accounts[0]);
      OpenAllKeepsInv(db1, accounts[1..]);
      var db' := db.(wallet := OpenAll(db.wallet, accounts));
      assert db1.(wallet := OpenAll(db1.wallet, accounts[1..])) == db';
      forall r ensures SameView(db, db', r) {
        assert SameView(db, db1, r) && SameView(db1, db', r);
      }
    } else {
      assert db.(wallet := OpenAll(db.wallet, accounts)) == db;
    }
  }

  /** Stored responses and indexes are not part of what must hold. */
  lemma IndexApart(db: Db, db': Db)
    requires Inv(db) && db' == db.(assignments := db'.assignments, requests := db'.requests)
    ensures Inv(db') && forall r :: SameView(db, db', r)
  {
    hide Sound, QuotaSound, HoldsOf, LimitsOf, MovesOf, Total, WithdrawalView, AllocationView, DepositView, TradeView,
         MovementView, RemittanceView, RemittanceFate, LinksSound, ReversalsSound, Held, Adjusted, WithdrawalsTotal,
         DepositsTotal, WithdrawalsSound, DepositsSound, AllocationsSound, TradesSound, MovementsSound;
    forall ref ensures Explained(db', ref) {
      assert Explained(db, ref);
    }
    forall i ensures Held(db'.wallet, i) == Issued(db', i) {
      assert Held(db.wallet, i) == Issued(db, i);
    }
  }

  lemma ProofsApart(db: Db, db': Db)
    requires Inv(db) && db' == db.(proofs := db'.proofs) && ProofsSound(db'.proofs, db.allocations)
    ensures Inv(db') && forall r :: SameView(db, db', r)
  {
    hide Sound, QuotaSound, HoldsOf, LimitsOf, MovesOf, Total, WithdrawalView, AllocationView, DepositView, TradeView,
         MovementView, RemittanceView, RemittanceFate, LinksSound, ReversalsSound, Held, Adjusted, WithdrawalsTotal,
         DepositsTotal, WithdrawalsSound, DepositsSound, AllocationsSound, TradesSound, MovementsSound, ProofsSound;
    forall ref ensures Explained(db', ref) {
      assert Explained(db, ref);
    }
    forall i ensures Held(db'.wallet, i) == Issued(db', i) {
      assert Held(db.wallet, i) == Issued(db, i);
    }
  }

  lemma OnlyFromSame(db: Db, db': Db, ref: Ref)
    requires forall r :: SameView(db, db', r)
    ensures OnlyOn(db, db', ref)
  {
    hide HoldsOf, LimitsOf, MovesOf;
  }

  lemma StoredKeepsInv(db0: Db, db: Db, ref: Ref, key: Option<RequestKey>, id: Id)
    requires Inv(db) && OnlyOn(db0, db, ref)
    ensures Inv(Stored(db, key, id)) && OnlyOn(db0, Stored(db, key, id), ref)
  {
    hide Inv, HoldsOf, LimitsOf, MovesOf;
    IndexApart(db, Stored(db, key, id));
    forall r | r != ref ensures SameView(db0, Stored(db, key, id), r) {
      assert SameView(db0, db, r);
    }
  }

  lemma OpenSame(w: Wallet, a: Acct)
    ensures forall i :: Held(GetOrCreate(w, a), i) == Held(w, i)
    ensures forall b :: Row(GetOrCreate(w, a), b) == Row(w, b)
  {
    if a !in w.accounts {
      HeldAfter(w, GetOrCreate(w, a), a, ZERO_ACCOUNT);
    }
  }
}
