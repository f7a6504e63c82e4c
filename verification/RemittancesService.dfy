/** RemittancesService, statement by statement. */
module RemittancesService {
  import opened Base
  import opened Policy
  import opened Accounts
  import opened Limits
  import opened State
  import opened Store
  import AccountsService
  import LimitsService
  import opened Remittances

  method New(tx: Database, sender: UserId, receiver: UserId, instr: Instrument, amount: int, key: Option<nat>,
             at: Stamp, policies: Policies)
    returns (r: Outcome, id: Id)
    requires amount > 0 && receiver != sender
    modifies tx
    ensures id == old(tx.nextId)
    ensures WroteIndexed(tx.State(), Remittances.Make(old(tx.State()), sender, receiver, instr, amount, at, policies),
                         Indexed(old(tx.requests), Remittances.KeyOf(sender, key), id), r)
  {
    hide Limits.ReserveBoth, Accounts.ReserveFunds, Indexed;
    id := tx.nextId;
    tx.nextId := id + 1;
    tx.remittances := tx.remittances[id :=
      RemittanceRow(sender, receiver, None, instr, amount, RemittanceStatus.Pending, false, false, at)];
    tx.requests := Indexed(tx.requests, Remittances.KeyOf(sender, key), id);
    :- LimitsService.ReserveBoth(tx, sender, RemittanceSend, NotionalIrr, OfInstrument(instr), at, amount,
                                 Ref.Remittance(id), policies);
    r := AccountsService.ReserveFunds(tx, Acct(sender, instr), Ref.Remittance(id), amount);
  }

  method CreateBody(tx: Database, sender: UserId, receiver: UserId, instr: Instrument, amount: int, key: Option<nat>,
                    at: Stamp, policies: Policies)
    returns (r: Outcome, id: Id)
    modifies tx
    ensures WroteNew(tx.State(),
                     Remittances.Create(old(tx.State()), sender, receiver, instr, amount, key, at, policies), r, id)
  {
    hide Remittances.Make;
    if amount <= 0 {
      return Failed(BadRequest), 0;
    }
    if receiver == sender {
      return Failed(BadRequest), 0;
    }
    if key.Some? && RemittanceKey(sender, key.value) in tx.requests {
      return Done, tx.requests[RemittanceKey(sender, key.value)];
    }
    r, id := New(tx, sender, receiver, instr, amount, key, at, policies);
  }

  method Create(tx: Database, sender: UserId, receiver: UserId, instr: Instrument, amount: int, key: Option<nat>,
                at: Stamp, policies: Policies)
    returns (r: Outcome, id: Id)
    modifies tx
    ensures CommittedNew(old(tx.State()), tx.State(),
                         Remittances.Create(old(tx.State()), sender, receiver, instr, amount, key, at, policies), r, id)
    ensures Inv(old(tx.State())) ==> Inv(tx.State())
  {
    hide Remittances.Create, Inv;
    var before := tx.State();
    r, id := CreateBody(tx, sender, receiver, instr, amount, key, at, policies);
    if r.Failed? {
      tx.Restore(before);
    } else if Inv(before) {
      Remittances.CreateKeepsInv(before, sender, receiver, instr, amount, key, at, policies);
    }
  }

  method ApproveBody(tx: Database, id: Id) returns (r: Outcome)
    modifies tx
    ensures Wrote(tx.State(), Remittances.Approve(old(tx.State()), id), r)
  {
    hide Accounts.ConsumeFunds, OpenAll, PostAll, Limits.Consume, TransferLegs;
    if id !in tx.remittances {
      return Failed(NotFound);
    }
    var record := tx.remittances[id];
    if record.status.Completed? {
      return Done;
    }
    if !record.status.Pending? {
      return Failed(BadStatus);
    }
    var ref := Ref.Remittance(id);
    :- AccountsService.ConsumeFunds(tx, Sender(record), ref);
    AccountsService.OpenBoth(tx, Sender(record), Receiver(record));
    var posted, _, _ := AccountsService.PostTransfer(tx, Sender(record), Receiver(record), record.amount, ref);
    :- posted;
    LimitsService.Consume(tx, ref);
    tx.remittances := tx.remittances[id := record.(status := RemittanceStatus.Completed, posted := true)];
    return Done;
  }

  method Approve(tx: Database, id: Id) returns (r: Outcome)
    modifies tx
    ensures Committed(old(tx.State()), tx.State(), Remittances.Approve(old(tx.State()), id), r)
    ensures Inv(old(tx.State())) ==> Inv(tx.State())
  {
    hide Remittances.Approve, Inv;
    var before := tx.State();
    r := ApproveBody(tx, id);
    if r.Failed? {
      tx.Restore(before);
    } else if Inv(before) {
      Remittances.Decidable(before, id, 0);
      Remittances.ApproveKeepsInv(before, id);
    }
  }

  method RejectBody(tx: Database, id: Id) returns (r: Outcome)
    modifies tx
    ensures Wrote(tx.State(), Remittances.Reject(old(tx.State()), id), r)
  {
    hide Accounts.ReleaseFunds, Limits.Release;
    if id !in tx.remittances {
      return Failed(NotFound);
    }
    var record := tx.remittances[id];
    if record.status.Cancelled? {
      return Done;
    }
    if !record.status.Pending? {
      return Failed(BadStatus);
    }
    LimitsService.Release(tx, Ref.Remittance(id));
    :- AccountsService.ReleaseFunds(tx, Sender(record), Ref.Remittance(id));
    tx.remittances := tx.remittances[id := record.(status := RemittanceStatus.Cancelled)];
    return Done;
  }

  method Reject(tx: Database, id: Id) returns (r: Outcome)
    modifies tx
    ensures Committed(old(tx.State()), tx.State(), Remittances.Reject(old(tx.State()), id), r)
    ensures Inv(old(tx.State())) ==> Inv(tx.State())
  {
    hide Remittances.Reject, Inv;
    var before := tx.State();
    r := RejectBody(tx, id);
    if r.Failed? {
      tx.Restore(before);
    } else if Inv(before) {
      Remittances.Decidable(before, id, 0);
      Remittances.RejectKeepsInv(before, id);
    }
  }

  method CancelByUser(tx: Database, id: Id, user: UserId) returns (r: Outcome)
    modifies tx
    ensures Committed(old(tx.State()), tx.State(), Remittances.CancelByUser(old(tx.State()), id, user), r)
    ensures Inv(old(tx.State())) ==> Inv(tx.State())
  {
    hide Remittances.Reject, Inv;
    if id !in tx.remittances || tx.remittances[id].sender != user {
      return Failed(NotFound);
    }
    r := Reject(tx, id);
  }

  // ---------------------------------------------------------------- groups: the legs

  /** Every leg asks for a positive amount and goes to somebody else. */
  method CheckLegs(sender: UserId, legs: seq<LegInput>) returns (good: bool)
    ensures good <==> GoodLegs(sender, legs)
  {
    var j := 0;
    while j < |legs|
      invariant 0 <= j <= |legs|
      invariant GoodLegs(sender, legs[..j])
    {
      if legs[j].amount <= 0 || legs[j].receiver == sender {
        assert legs[j] in legs;
        return false;
      }
      j := j + 1;
    }
    assert legs[..j] == legs;
    return true;
  }

  /** What the legs come to, instrument by instrument. */
  method TotalsByInstrument(legs: seq<LegInput>) returns (totals: map<Instrument, int>)
    ensures forall i :: i in totals <==> exists leg <- legs :: leg.instr == i
    ensures forall i <- totals :: totals[i] == TotalFor(legs, i)
  {
    totals := map[];
    var j := 0;
    while j < |legs|
      invariant 0 <= j <= |legs|
      invariant forall i :: i in totals <==> exists leg <- legs[..j] :: leg.instr == i
      invariant forall i <- totals :: totals[i] == TotalFor(legs[..j], i)
    {
      TotalNext(legs, j);
      var i := legs[j].instr;
      if i !in totals {
        NoTotal(legs[..j], i);
      }
      var existing := if i in totals then totals[i] else 0;
      totals := totals[i := existing + legs[j].amount];
      j := j + 1;
    }
    assert legs[..j] == legs;
  }

  lemma TotalNext(legs: seq<LegInput>, j: nat)
    requires j < |legs|
    ensures legs[..j + 1] == legs[..j] + [legs[j]]
    ensures forall i ::
            TotalFor(legs[..j + 1], i) == TotalFor(legs[..j], i) + if legs[j].instr == i then legs[j].amount else 0
  {
    assert legs[..j + 1][..j] == legs[..j];
  }

  /** `accounts` are those of `w`, with the ones in `added` put in where they were missing. */
  ghost predicate Opened(w: Wallet, accounts: map<Acct, Account>, added: set<Acct>) {
    && accounts.Keys == w.accounts.Keys + added
    && (forall a <- accounts :: accounts[a] == Row(w, a))
  }

  lemma OpenOne(w: Wallet, accounts: map<Acct, Account>, added: set<Acct>, a: Acct)
    requires Opened(w, accounts, added)
    ensures Opened(w, if a in accounts then accounts else accounts[a := ZERO_ACCOUNT], added + {a})
  {
  }

  lemma {:induction false} OpenAllIs(w: Wallet, accounts: seq<Acct>)
    ensures var w' := OpenAll(w, accounts);
            Opened(w, w'.accounts, set a | a in accounts) && w'.holds == w.holds && w'.ledger == w.ledger
    decreases |accounts|
  {
    if accounts != [] {
      OpenAllIs(GetOrCreate(w, accounts[0]), accounts[1..]);
      assert accounts == [accounts[0]] + accounts[1..];
    }
  }

  ghost function AccountsOf(user: UserId, instruments: set<Instrument>): set<Acct> {
    set i | i in instruments :: Acct(user, i)
  }

  ghost predicate CanPay(w: Wallet, sender: UserId, totals: map<Instrument, int>, instruments: set<Instrument>) {
    forall i <- instruments :: i in totals ==> UsableCapacity(Row(w, Acct(sender, i))) >= totals[i]
  }

  lemma OpenNext(w: Wallet, accounts: map<Acct, Account>, sender: UserId, seen: set<Instrument>, i: Instrument)
    requires Opened(w, accounts, AccountsOf(sender, seen))
    ensures Opened(w, if Acct(sender, i) in accounts then accounts else accounts[Acct(sender, i) := ZERO_ACCOUNT],
                   AccountsOf(sender, seen + {i}))
    ensures Acct(sender, i) in accounts ==> accounts[Acct(sender, i)] == Row(w, Acct(sender, i))
    ensures Acct(sender, i) !in accounts ==> Row(w, Acct(sender, i)) == ZERO_ACCOUNT
  {
    assert AccountsOf(sender, seen + {i}) == AccountsOf(sender, seen) + {Acct(sender, i)};
  }

  lemma OpenNone(w: Wallet, sender: UserId)
    ensures Opened(w, w.accounts, AccountsOf(sender, {}))
  {
  }

  /** Opens the sender's accounts, and checks each against what the legs take from it. */
  method OpenSenders(tx: Database, sender: UserId, totals: map<Instrument, int>) returns (r: Outcome)
    modifies tx`accounts
    ensures tx.State() == old(tx.State()).(wallet := tx.Books())
    ensures r.Done? <==> CanPay(old(tx.Books()), sender, totals, totals.Keys)
    ensures r.Done? ==> Opened(old(tx.Books()), tx.accounts, AccountsOf(sender, totals.Keys))
    ensures r.Failed? ==> r.error == InsufficientCredit
  {
    hide UsableCapacity, Opened, AccountsOf, Row;
    ghost var w := tx.Books();
    var todo := totals.Keys;
    ghost var seen := {};
    OpenNone(w, sender);
    while todo != {}
      invariant seen + todo == totals.Keys && seen !! todo
      invariant tx.State() == old(tx.State()).(wallet := tx.Books())
      invariant Opened(w, tx.accounts, AccountsOf(sender, seen))
      invariant CanPay(w, sender, totals, seen)
      decreases todo
    {
      var i :| i in todo;
      OpenNext(w, tx.accounts, sender, seen, i);
      if Acct(sender, i) !in tx.accounts {
        tx.accounts := tx.accounts[Acct(sender, i) := ZERO_ACCOUNT];
      }
      var account := tx.accounts[Acct(sender, i)];
      todo, seen := todo - {i}, seen + {i};
      if UsableCapacity(account) < totals[i] {
        return Failed(InsufficientCredit);
      }
    }
    assert seen == totals.Keys;
    return Done;
  }

  function PendingRow(sender: UserId, leg: LegInput, at: Stamp): RemittanceRow {
    LegRow(sender, leg, at).(status := RemittanceStatus.Pending, posted := false)
  }

  predicate HasRow(rows: map<Id, RemittanceRow>, id: Id, r: RemittanceRow) {
    id in rows && rows[id] == r
  }

  /** The rows of the first `made` legs are in the table, those of the first `done` of them completed; nothing else
      changed. */
  ghost predicate RowsAt(before: map<Id, RemittanceRow>, now: map<Id, RemittanceRow>, sender: UserId,
                         legs: seq<LegInput>, first: Id, at: Stamp, made: nat, done: nat)
  {
    && made <= |legs|
    && (forall id :: id in now <==> id in before || first <= id < first + made)
    && (forall k: nat | k < made ::
        HasRow(now, first + k, if k < done then LegRow(sender, legs[k], at) else PendingRow(sender, legs[k], at)))
    && (forall id <- before | !(first <= id < first + made) :: now[id] == before[id])
  }

  lemma RowNext(before: map<Id, RemittanceRow>, now: map<Id, RemittanceRow>, sender: UserId, legs: seq<LegInput>,
                first: Id, at: Stamp, made: nat)
    requires RowsAt(before, now, sender, legs, first, at, made, 0) && made < |legs|
    ensures RowsAt(before, now[first + made := PendingRow(sender, legs[made], at)], sender, legs, first, at, made + 1,
                   0)
  {
    var next := now[first + made := PendingRow(sender, legs[made], at)];
    forall k: nat | k < made + 1 ensures HasRow(next, first + k, PendingRow(sender, legs[k], at)) {
      if k < made {
        assert HasRow(now, first + k, PendingRow(sender, legs[k], at));
      }
    }
  }

  lemma RowDone(before: map<Id, RemittanceRow>, now: map<Id, RemittanceRow>, sender: UserId, legs: seq<LegInput>,
                first: Id, at: Stamp, done: nat)
    requires RowsAt(before, now, sender, legs, first, at, |legs|, done) && done < |legs|
    ensures HasRow(now, first + done, PendingRow(sender, legs[done], at))
    ensures RowsAt(before, now[first + done := LegRow(sender, legs[done], at)], sender, legs, first, at, |legs|,
                   done + 1)
  {
    var next := now[first + done := LegRow(sender, legs[done], at)];
    assert HasRow(now, first + done, PendingRow(sender, legs[done], at));
    forall k: nat | k < |legs|
      ensures HasRow(next, first + k,
                     if k < done + 1 then LegRow(sender, legs[k], at) else PendingRow(sender, legs[k], at)) {
      assert HasRow(now, first + k, if k < done then LegRow(sender, legs[k], at) else PendingRow(sender, legs[k], at));
    }
  }

  lemma RowsFinal(before: map<Id, RemittanceRow>, now: map<Id, RemittanceRow>, sender: UserId, legs: seq<LegInput>,
                  first: Id, at: Stamp)
    requires RowsAt(before, now, sender, legs, first, at, |legs|, |legs|)
    ensures now == LegRows(before, sender, legs, first, at)
  {
    hide LegRows, LegRow;
    var end := LegRows(before, sender, legs, first, at);
    LegsInRows(before, sender, legs, first, at);
    forall id <- now ensures now[id] == end[id] {
      if first <= id < first + |legs| {
        var k := id - first;
        assert HasRow(now, first + k, LegRow(sender, legs[k], at));
        assert end[first + k] == LegRow(sender, legs[k], at);
      }
    }
  }

  ghost function ReceiversOf(legs: seq<LegInput>): set<Acct> {
    set leg | leg in legs :: Acct(leg.receiver, leg.instr)
  }

  /** A pending row per leg, and the receivers' accounts. */
  method CreateRows(tx: Database, sender: UserId, legs: seq<LegInput>, at: Stamp, ghost w: Wallet,
                    ghost added: set<Acct>)
    requires Opened(w, tx.accounts, added)
    modifies tx`accounts, tx`remittances, tx`nextId
    ensures tx.State() == old(tx.State()).(wallet := tx.Books(), remittances := tx.remittances, nextId := tx.nextId)
    ensures Opened(w, tx.accounts, added + ReceiversOf(legs))
    ensures RowsAt(old(tx.remittances), tx.remittances, sender, legs, old(tx.nextId), at, |legs|, 0)
    ensures tx.nextId == old(tx.nextId) + |legs|
  {
    hide Opened, RowsAt, LegRow, ReceiversOf, PendingRow, Row, GetOrCreate;
    var j := 0;
    NoReceivers(legs, added);
    NoRows(tx.remittances, sender, legs, tx.nextId, at);
    while j < |legs|
      invariant 0 <= j <= |legs|
      invariant tx.State() == old(tx.State()).(wallet := tx.Books(), remittances := tx.remittances, nextId := tx.nextId)
      invariant Opened(w, tx.accounts, added + ReceiversOf(legs[..j]))
      invariant RowsAt(old(tx.remittances), tx.remittances, sender, legs, old(tx.nextId), at, j, 0)
      invariant tx.nextId == old(tx.nextId) + j
    {
      var leg := legs[j];
      OpenOne(w, tx.accounts, added + ReceiversOf(legs[..j]), Acct(leg.receiver, leg.instr));
      ReceiverNext(legs, j, added);
      if Acct(leg.receiver, leg.instr) !in tx.accounts {
        tx.accounts := tx.accounts[Acct(leg.receiver, leg.instr) := ZERO_ACCOUNT];
      }
      RowNext(old(tx.remittances), tx.remittances, sender, legs, old(tx.nextId), at, j);
      tx.remittances := tx.remittances[tx.nextId := PendingRow(sender, leg, at)];
      tx.nextId := tx.nextId + 1;
      j := j + 1;
    }
    assert legs[..j] == legs;
  }

  lemma NoReceivers(legs: seq<LegInput>, added: set<Acct>)
    ensures added + ReceiversOf(legs[..0]) == added
  {
  }

  lemma NoRows(rows: map<Id, RemittanceRow>, sender: UserId, legs: seq<LegInput>, first: Id, at: Stamp)
    ensures RowsAt(rows, rows, sender, legs, first, at, 0, 0)
  {
  }

  lemma ReceiverNext(legs: seq<LegInput>, j: nat, added: set<Acct>)
    requires j < |legs|
    ensures added + ReceiversOf(legs[..j + 1]) ==
            added + ReceiversOf(legs[..j]) + {Acct(legs[j].receiver, legs[j].instr)}
  {
    assert legs[..j + 1] == legs[..j] + [legs[j]];
  }

  /** Opening the senders' accounts first and the receivers' later comes to the same as opening all of them leg by
      leg. */
  lemma OpenedAll(w: Wallet, accounts: map<Acct, Account>, sender: UserId, legs: seq<LegInput>,
                  totals: map<Instrument, int>)
    requires Opened(w, accounts, AccountsOf(sender, totals.Keys) + ReceiversOf(legs))
    requires forall i :: i in totals <==> exists leg <- legs :: leg.instr == i
    ensures accounts == OpenAll(w, GroupAccounts(sender, legs)).accounts
    ensures forall leg <- legs :: Acct(sender, leg.instr) in accounts && Acct(leg.receiver, leg.instr) in accounts
  {
    hide OpenAll, GroupAccounts, Opened, Row;
    GroupAccountsAre(sender, legs);
    OpenAllIs(w, GroupAccounts(sender, legs));
    var all := set a | a in GroupAccounts(sender, legs);
    forall a ensures a in all <==> a in AccountsOf(sender, totals.Keys) + ReceiversOf(legs) {
    }
    assert all == AccountsOf(sender, totals.Keys) + ReceiversOf(legs);
    OpenedSame(w, accounts, OpenAll(w, GroupAccounts(sender, legs)).accounts, all);
    forall leg <- legs ensures Acct(sender, leg.instr) in accounts && Acct(leg.receiver, leg.instr) in accounts {
      assert Acct(sender, leg.instr) in all && Acct(leg.receiver, leg.instr) in all;
    }
  }

  lemma OpenedSame(w: Wallet, accounts: map<Acct, Account>, accounts': map<Acct, Account>, added: set<Acct>)
    requires Opened(w, accounts, added) && Opened(w, accounts', added)
    ensures accounts == accounts' && forall a <- added :: a in accounts
  {
  }

  lemma {:induction false} GroupAccountsAre(sender: UserId, legs: seq<LegInput>)
    ensures forall a :: a in GroupAccounts(sender, legs) <==>
              exists leg <- legs :: a == Acct(sender, leg.instr) || a == Acct(leg.receiver, leg.instr)
  {
    if legs != [] {
      var (front, last) := (legs[..|legs| - 1], legs[|legs| - 1]);
      assert legs == front + [last];
      GroupAccountsAre(sender, front);
      assert last in legs;
    }
  }

  /** With both accounts open, posting a leg is posting the transfer. */
  lemma LegIsTransfer(w: Wallet, r: RemittanceRow, id: Id)
    requires Sender(r) in w.accounts && Receiver(r) in w.accounts
    ensures PostLeg(w, r, id) == PostAll(w, TransferLegs(Sender(r), Receiver(r), r.amount), Ref.Remittance(id))
  {
    hide PostAll;
    assert [Sender(r), Receiver(r)][1..] == [Receiver(r)] && [Receiver(r)][1..] == [];
    assert OpenAll(w, [Receiver(r)]) == OpenAll(w, []) == w;
  }

  lemma {:induction false} PostAllOpen(w: Wallet, legs: seq<(Acct, Signed)>, ref: Ref)
    ensures PostAll(w, legs, ref).Ok? ==> PostAll(w, legs, ref).value.accounts.Keys == w.accounts.Keys
    decreases |legs|
  {
    hide Taken;
    if legs != [] && Accounts.ApplyTransaction(w, legs[0].0, legs[0].1, ref, None).Ok? {
      PostAllOpen(Accounts.ApplyTransaction(w, legs[0].0, legs[0].1, ref, None).value, legs[1..], ref);
    }
  }

  /** An error in a prefix of the legs is the error of them all. */
  lemma {:induction false} PostLegsStop(w: Wallet, sender: UserId, legs: seq<LegInput>, first: Id, at: Stamp, j: nat)
    requires j <= |legs| && PostLegs(w, sender, legs[..j], first, at).Err?
    ensures PostLegs(w, sender, legs, first, at) == PostLegs(w, sender, legs[..j], first, at)
  {
    hide PostLeg;
    if j < |legs| {
      assert legs[..|legs| - 1][..j] == legs[..j];
      PostLegsStop(w, sender, legs[..|legs| - 1], first, at, j);
    } else {
      assert legs[..j] == legs;
    }
  }

  lemma PostLegsNext(w: Wallet, sender: UserId, legs: seq<LegInput>, first: Id, at: Stamp, j: nat)
    requires j < |legs| && PostLegs(w, sender, legs[..j], first, at).Ok?
    ensures PostLegs(w, sender, legs[..j + 1], first, at)
         == PostLeg(PostLegs(w, sender, legs[..j], first, at).value, LegRow(sender, legs[j], at), first + j)
  {
    hide PostLeg;
    assert legs[..j + 1][..j] == legs[..j];
  }

  /** Posts every leg and completes its row. */
  method PostRows(tx: Database, sender: UserId, legs: seq<LegInput>, first: Id, at: Stamp,
                  ghost before: map<Id, RemittanceRow>)
    returns (r: Outcome)
    requires RowsAt(before, tx.remittances, sender, legs, first, at, |legs|, 0)
    requires forall leg <- legs ::
             Acct(sender, leg.instr) in tx.accounts && Acct(leg.receiver, leg.instr) in tx.accounts
    modifies tx`accounts, tx`ledger, tx`remittances
    ensures tx.State() == old(tx.State()).(wallet := tx.Books(), remittances := tx.remittances)
    ensures Wrote(tx.Books(), PostLegs(old(tx.Books()), sender, legs, first, at), r)
    ensures r.Done? ==> tx.remittances == LegRows(before, sender, legs, first, at)
  {
    hide RowsAt, PostLeg, PostLegs, PostAll, TransferLegs;
    ghost var w := tx.Books();
    var j := 0;
    assert PostLegs(w, sender, legs[..0], first, at) == Ok(w) by {
      PostLegsNone(w, sender, first, at);
      assert legs[..0] == [];
    }
    while j < |legs|
      invariant 0 <= j <= |legs|
      invariant tx.State() == old(tx.State()).(wallet := tx.Books(), remittances := tx.remittances)
      invariant PostLegs(w, sender, legs[..j], first, at) == Ok(tx.Books())
      invariant tx.accounts.Keys == w.accounts.Keys
      invariant RowsAt(before, tx.remittances, sender, legs, first, at, |legs|, j)
    {
      var (leg, id) := (legs[j], first + j);
      var (from, to) := (Acct(sender, leg.instr), Acct(leg.receiver, leg.instr));
      assert leg in legs;
      LegIsTransfer(tx.Books(), LegRow(sender, leg, at), id);
      PostLegsNext(w, sender, legs, first, at, j);
      PostAllOpen(tx.Books(), TransferLegs(from, to, leg.amount), Ref.Remittance(id));
      var posted, _, _ := AccountsService.PostTransfer(tx, from, to, leg.amount, Ref.Remittance(id));
      if posted.Failed? {
        PostLegsStop(w, sender, legs, first, at, j + 1);
        return posted;
      }
      RowDone(before, tx.remittances, sender, legs, first, at, j);
      tx.remittances := tx.remittances[id := tx.remittances[id].(status := RemittanceStatus.Completed, posted := true)];
      j := j + 1;
    }
    assert legs[..j] == legs;
    RowsFinal(before, tx.remittances, sender, legs, first, at);
    return Done;
  }

  lemma PostLegsNone(w: Wallet, sender: UserId, first: Id, at: Stamp)
    ensures PostLegs(w, sender, [], first, at) == Ok(w)
  {
  }

  // ---------------------------------------------------------------- groups: the settlement

  method CollectInputs(legs: seq<LegInput>, first: Id) returns (inputs: seq<Link>)
    ensures inputs == Inputs(legs, first)
  {
    inputs := [];
    var j := 0;
    while j < |legs|
      invariant 0 <= j <= |legs|
      invariant inputs == Inputs(legs[..j], first)
    {
      assert legs[..j + 1][..j] == legs[..j];
      inputs := inputs + LinksOf(first + j, legs[j].settlements);
      j := j + 1;
    }
    assert legs[..j] == legs;
  }

  /** What has been settled of `source` so far. */
  method SettledBefore(links: seq<Link>, source: Id) returns (total: int)
    ensures total == LinkedInto(links, source)
  {
    total := 0;
    var j := 0;
    while j < |links|
      invariant 0 <= j <= |links|
      invariant total == LinkedInto(links[..j], source)
    {
      assert links[..j + 1][..j] == links[..j];
      if links[j].source == source {
        total := total + links[j].amount;
      }
      j := j + 1;
    }
    assert links[..j] == links;
  }

  /** The totals of all sources, or an error when one of them does not exist. */
  method SourceTotals(rows: map<Id, RemittanceRow>, links: seq<Link>, inputs: seq<Link>)
    returns (found: bool, totals: map<Id, int>)
    ensures found <==> forall l <- inputs :: l.source in rows
    ensures found ==> forall l <- inputs :: l.source in totals
    ensures forall s <- totals :: totals[s] == LinkedInto(links, s)
  {
    found, totals := true, map[];
    var j := 0;
    while j < |inputs|
      invariant 0 <= j <= |inputs|
      invariant found
      invariant forall l <- inputs[..j] :: l.source in rows && l.source in totals
      invariant forall s <- totals :: totals[s] == LinkedInto(links, s)
    {
      var source := inputs[j].source;
      if source !in rows {
        assert inputs[j] in inputs;
        return false, totals;
      }
      var settled := SettledBefore(links, source);
      totals := totals[source := settled];
      j := j + 1;
    }
    assert inputs[..j] == inputs;
  }

  lemma {:induction false} SettleStops(rows: map<Id, RemittanceRow>, links: seq<Link>, inputs: seq<Link>, j: nat)
    requires Resolved(rows, inputs) && j <= |inputs|
    ensures Resolved(rows, inputs[..j])
    ensures SettleAll(rows, links, inputs[..j]).Err? ==>
            SettleAll(rows, links, inputs) == SettleAll(rows, links, inputs[..j])
  {
    hide SettleOne;
    if j < |inputs| {
      var front := inputs[..|inputs| - 1];
      assert front[..j] == inputs[..j] && forall l <- front :: l in inputs;
      SettleStops(rows, links, front, j);
    } else {
      assert inputs[..j] == inputs;
    }
  }

  lemma SettleNext(rows: map<Id, RemittanceRow>, links: seq<Link>, inputs: seq<Link>, j: nat)
    requires Resolved(rows, inputs) && j < |inputs| && Resolved(rows, inputs[..j]) && Resolved(rows, inputs[..j + 1])
    requires SettleAll(rows, links, inputs[..j]).Ok?
    ensures var now := SettleAll(rows, links, inputs[..j]).value;
            && inputs[j].leg in now && inputs[j].source in now
            && SettleAll(rows, links, inputs[..j + 1]) == SettleOne(now, links, inputs[..j], inputs[j])
  {
    hide SettleOne;
    assert inputs[..j + 1][..j] == inputs[..j];
    assert inputs[j] in inputs;
  }

  /** Settling changes statuses only. */
  lemma {:induction false} SettleKeepsTerms(rows: map<Id, RemittanceRow>, links: seq<Link>, inputs: seq<Link>)
    requires Resolved(rows, inputs)
    ensures SettleAll(rows, links, inputs).Ok? ==>
              forall id <- rows ::
                     var r := SettleAll(rows, links, inputs).value[id];
                         r.amount == rows[id].amount && r.instr == rows[id].instr
  {
    if inputs != [] {
      assert forall l <- inputs[..|inputs| - 1] :: l in inputs;
      SettleKeepsTerms(rows, links, inputs[..|inputs| - 1]);
    }
  }

  /** What the running maps hold after the inputs `done`. */
  ghost predicate Running(links: seq<Link>, done: seq<Link>, sources: map<Id, int>, legTotals: map<Id, int>) {
    && (forall s <- sources :: sources[s] == LinkedInto(links, s) + LinkedInto(done, s))
    && (forall l <- legTotals :: legTotals[l] == LinkedFrom(done, l))
    && (forall l | l !in legTotals :: LinkedFrom(done, l) == 0)
  }

  lemma RunningNext(links: seq<Link>, done: seq<Link>, input: Link, sources: map<Id, int>, legTotals: map<Id, int>)
    requires Running(links, done, sources, legTotals) && input.source in sources
    ensures var legTotal := if input.leg in legTotals then legTotals[input.leg] else 0;
            && legTotal == LinkedFrom(done, input.leg)
            && sources[input.source] == LinkedInto(links, input.source) + LinkedInto(done, input.source)
            && Running(links, done + [input], sources[input.source := sources[input.source] + input.amount],
                       legTotals[input.leg := legTotal + input.amount])
  {
    hide LinkedInto, LinkedFrom;
    forall id ensures LinkedInto(done + [input], id) == LinkedInto(done, id) +
           if input.source == id then input.amount else 0 {
      LinkedNext(done, input, id);
    }
    forall id ensures LinkedFrom(done + [input], id) == LinkedFrom(done, id) +
           if input.leg == id then input.amount else 0 {
      LinkedFromNext(done, input, id);
    }
  }

  lemma LinkedFromNext(front: seq<Link>, l: Link, id: Id)
    ensures LinkedFrom(front + [l], id) == LinkedFrom(front, id) + if l.leg == id then l.amount else 0
  {
    assert (front + [l])[..|front|] == front;
  }

  lemma RunningAtStart(links: seq<Link>, sources: map<Id, int>)
    requires forall s <- sources :: sources[s] == LinkedInto(links, s)
    ensures Running(links, [], sources, map[])
  {
  }

  /** One turn: the checks on running totals are those of `SettleOne`. */
  lemma TurnDecides(rows: map<Id, RemittanceRow>, now: map<Id, RemittanceRow>, links: seq<Link>, done: seq<Link>,
                    input: Link, settled: int, legTotal: int)
    requires input.leg in rows && input.source in rows && now.Keys == rows.Keys
    requires forall id <- rows :: now[id].amount == rows[id].amount && now[id].instr == rows[id].instr
    requires settled == LinkedInto(links, input.source) + LinkedInto(done, input.source) &&
             legTotal == LinkedFrom(done, input.leg)
    ensures var (source, leg) := (rows[input.source], rows[input.leg]);
            SettleOne(now, links, done, input) ==
              if input.amount <= 0 || source.instr != leg.instr || legTotal + input.amount > leg.amount
                 || source.amount - settled <= 0 || source.amount - settled < input.amount then Err(BadRequest)
              else Ok(now[input.source := now[input.source].(status :=
                        if settled + input.amount == source.amount then RemittanceStatus.Completed
                        else RemittanceStatus.Partial)])
  {
    hide LinkedInto, LinkedFrom;
  }

  predicate Refused(source: RemittanceRow, leg: RemittanceRow, input: Link, settled: int, legTotal: int) {
    input.amount <= 0 || source.instr != leg.instr || legTotal + input.amount > leg.amount ||
    source.amount - settled < input.amount
  }

  /** One turn of the settlement loop, seen from the specification. */
  lemma SettleTurn(rows: map<Id, RemittanceRow>, now: map<Id, RemittanceRow>, links: seq<Link>, inputs: seq<Link>,
                   j: nat, sources: map<Id, int>, legTotals: map<Id, int>)
    requires Resolved(rows, inputs) && j < |inputs| && Resolved(rows, inputs[..j]) &&
             SettleAll(rows, links, inputs[..j]) == Ok(now)
    requires Running(links, inputs[..j], sources, legTotals) && inputs[j].source in sources
    ensures var (input, settled) := (inputs[j], sources[inputs[j].source]);
            var legTotal := if input.leg in legTotals then legTotals[input.leg] else 0;
            && input.leg in rows && input.source in rows && now.Keys == rows.Keys
            && Resolved(rows, inputs[..j + 1])
            && SettleAll(rows, links, inputs[..j + 1]) ==
                 (if Refused(rows[input.source], rows[input.leg], input, settled, legTotal) then Err(BadRequest)
                  else Ok(now[input.source := now[input.source].(status :=
                            if settled + input.amount == rows[input.source].amount then RemittanceStatus.Completed
                            else RemittanceStatus.Partial)]))
            && (SettleAll(rows, links, inputs[..j + 1]).Err? ==>
                SettleAll(rows, links, inputs) == SettleAll(rows, links, inputs[..j + 1]))
            && Running(links, inputs[..j + 1], sources[input.source := settled + input.amount],
                       legTotals[input.leg := legTotal + input.amount])
            && links + inputs[..j + 1] == links + inputs[..j] + [input]
  {
    hide SettleAll, SettleOne, LinkedInto, LinkedFrom, Running;
    var input := inputs[j];
    assert input in inputs;
    SettleStops(rows, links, inputs, j + 1);
    SettleNext(rows, links, inputs, j);
    SettleKeepsTerms(rows, links, inputs[..j]);
    RunningNext(links, inputs[..j], input, sources, legTotals);
    assert inputs[..j + 1] == inputs[..j] + [input];
    TurnDecides(rows, now, links, inputs[..j], input, sources[input.source],
                if input.leg in legTotals then legTotals[input.leg] else 0);
  }

  /** The settlement loop, over its maps of running totals. */
  method Settle(tx: Database, inputs: seq<Link>, totals: map<Id, int>) returns (r: Outcome)
    requires Resolved(tx.remittances, inputs)
    requires forall l <- inputs :: l.source in totals
    requires forall s <- totals :: totals[s] == LinkedInto(tx.links, s)
    modifies tx`remittances, tx`links
    ensures tx.State() == old(tx.State()).(remittances := tx.remittances, links := tx.links)
    ensures Wrote(tx.remittances, SettleAll(old(tx.remittances), old(tx.links), inputs), r)
    ensures r.Done? ==> tx.links == old(tx.links) + inputs
  {
    hide SettleAll, LinkedInto, Running, Resolved;
    ghost var (rows, links) := (tx.remittances, tx.links);
    var sourceById := tx.remittances;
    var sourceSettledTotals := totals;
    var settlementTotalsByLegId: map<Id, int> := map[];
    var j := 0;
    assert inputs[..0] == [];
    RunningAtStart(links, totals);
    SettleNothing(rows, links);
    while j < |inputs|
      invariant 0 <= j <= |inputs|
      invariant tx.State() == old(tx.State()).(remittances := tx.remittances, links := tx.links)
      invariant Resolved(rows, inputs[..j]) && SettleAll(rows, links, inputs[..j]) == Ok(tx.remittances)
      invariant tx.links == links + inputs[..j]
      invariant Running(links, inputs[..j], sourceSettledTotals, settlementTotalsByLegId)
      invariant sourceSettledTotals.Keys == totals.Keys
    {
      var input := inputs[j];
      SettleTurn(rows, tx.remittances, links, inputs, j, sourceSettledTotals, settlementTotalsByLegId);
      var currentLegTotal := if input.leg in settlementTotalsByLegId then settlementTotalsByLegId[input.leg] else 0;
      var currentSettled := sourceSettledTotals[input.source];
      if input.amount <= 0 {
        return Failed(BadRequest);
      }
      var source := sourceById[input.source];
      if source.instr != sourceById[input.leg].instr {
        return Failed(BadRequest);
      }
      var newLegTotal := currentLegTotal + input.amount;
      if newLegTotal > sourceById[input.leg].amount {
        return Failed(BadRequest);
      }
      settlementTotalsByLegId := settlementTotalsByLegId[input.leg := newLegTotal];
      var sourceRemainingBefore := source.amount - currentSettled;
      if sourceRemainingBefore <= 0 {
        return Failed(BadRequest);
      }
      if sourceRemainingBefore < input.amount {
        return Failed(BadRequest);
      }
      var updatedSettled := currentSettled + input.amount;
      sourceSettledTotals := sourceSettledTotals[input.source := updatedSettled];
      tx.links := tx.links + [input];
      var sourceStatus := if updatedSettled == source.amount then RemittanceStatus.Completed
          else RemittanceStatus.Partial;
      tx.remittances := tx.remittances[input.source := tx.remittances[input.source].(status := sourceStatus)];
      j := j + 1;
    }
    assert inputs[..j] == inputs;
    return Done;
  }

  lemma SettleNothing(rows: map<Id, RemittanceRow>, links: seq<Link>)
    ensures Resolved(rows, []) && SettleAll(rows, links, []) == Ok(rows)
  {
  }

  lemma PayableTotals(w: Wallet, sender: UserId, legs: seq<LegInput>, totals: map<Instrument, int>)
    requires forall i :: i in totals <==> exists leg <- legs :: leg.instr == i
    requires forall i <- totals :: totals[i] == TotalFor(legs, i)
    ensures CanPay(w, sender, totals, totals.Keys) <==> Affordable(w, sender, legs)
  {
    hide UsableCapacity, Row, TotalFor;
    if CanPay(w, sender, totals, totals.Keys) {
      forall leg <- legs ensures UsableCapacity(Row(w, Acct(sender, leg.instr))) >= TotalFor(legs, leg.instr) {
        assert leg.instr in totals;
      }
    }
  }

  lemma AllResolved(rows: map<Id, RemittanceRow>, sender: UserId, legs: seq<LegInput>, first: Id, at: Stamp,
                    inputs: seq<Link>)
    requires inputs == Inputs(legs, first)
    ensures Resolved(LegRows(rows, sender, legs, first, at), inputs)
       <==> forall l <- inputs :: l.source in LegRows(rows, sender, legs, first, at)
  {
    hide LegRows, Inputs;
    InputLegs(legs, first);
    LegsInRows(rows, sender, legs, first, at);
  }

  function GroupWallet(w: Wallet, sender: UserId, legs: seq<LegInput>, first: Id, at: Stamp): Result<Wallet> {
    if !Affordable(w, sender, legs) then Err(InsufficientCredit)
    else PostLegs(OpenAll(w, GroupAccounts(sender, legs)), sender, legs, first, at)
  }

  /** Everything but the settlement. */
  method PostGroup(tx: Database, sender: UserId, legs: seq<LegInput>, at: Stamp) returns (r: Outcome)
    modifies tx
    ensures tx.State() == old(tx.State()).(wallet := tx.Books(), remittances := tx.remittances, nextId := tx.nextId)
    ensures Wrote(tx.Books(), GroupWallet(old(tx.Books()), sender, legs, old(tx.nextId), at), r)
    ensures r.Done? ==>
            tx.remittances == LegRows(old(tx.remittances), sender, legs, old(tx.nextId), at) &&
            tx.nextId == old(tx.nextId) + |legs|
  {
    hide Affordable, PostLegs, LegRows, OpenAll, GroupAccounts, CanPay, Opened, RowsAt, TotalFor, AccountsOf,
         ReceiversOf;
    var totals := TotalsByInstrument(legs);
    ghost var (w, rows) := (tx.Books(), tx.remittances);
    var first := tx.nextId;
    PayableTotals(w, sender, legs, totals);
    :- OpenSenders(tx, sender, totals);
    CreateRows(tx, sender, legs, at, w, AccountsOf(sender, totals.Keys));
    OpenedAll(w, tx.accounts, sender, legs, totals);
    OpenAllIs(w, GroupAccounts(sender, legs));
    assert tx.Books() == OpenAll(w, GroupAccounts(sender, legs));
    r := PostRows(tx, sender, legs, first, at, rows);
  }

  method CreateGroupBody(tx: Database, sender: UserId, legs: seq<LegInput>, at: Stamp) returns (r: Outcome)
    modifies tx
    ensures Wrote(tx.State(), Remittances.CreateGroup(old(tx.State()), sender, legs, at), r)
  {
    hide GoodLegs, Affordable, PostLegs, LegRows, Inputs, SettleAll, OpenAll, GroupAccounts, Resolved, LinkedInto;
    if |legs| == 0 {
      return Failed(BadRequest);
    }
    GoodLegsAre(sender, legs);
    var good := CheckLegs(sender, legs);
    if !good {
      return Failed(BadRequest);
    }
    ghost var rows := tx.remittances;
    var first := tx.nextId;
    :- PostGroup(tx, sender, legs, at);
    var inputs := CollectInputs(legs, first);
    AllResolved(rows, sender, legs, first, at, inputs);
    var found, sources := SourceTotals(tx.remittances, tx.links, inputs);
    if !found {
      return Failed(NotFound);
    }
    r := Settle(tx, inputs, sources);
  }

  lemma GoodLegsAre(sender: UserId, legs: seq<LegInput>)
    ensures GoodLegs(sender, legs) <==>
            !(exists leg <- legs :: leg.amount <= 0) && !(exists leg <- legs :: leg.receiver == sender)
  {
  }

  method CreateGroup(tx: Database, sender: UserId, legs: seq<LegInput>, at: Stamp) returns (r: Outcome)
    modifies tx
    ensures Committed(old(tx.State()), tx.State(), Remittances.CreateGroup(old(tx.State()), sender, legs, at), r)
    ensures Inv(old(tx.State())) ==> Inv(tx.State())
  {
    hide Remittances.CreateGroup, Inv;
    var before := tx.State();
    r := CreateGroupBody(tx, sender, legs, at);
    if r.Failed? {
      tx.Restore(before);
    } else if Inv(before) {
      Remittances.CreateGroupSucceedsIff(before, sender, legs, at);
    }
  }

  /** The open obligations of a user, among the rows a query returns. */
  method FindOpenObligations(tx: Database, ids: seq<Id>, user: UserId) returns (result: seq<Obligation>)
    ensures result == OpenObligations(tx.State(), ids, user)
  {
    result := [];
    var j := 0;
    while j < |ids|
      invariant 0 <= j <= |ids|
      invariant result == OpenObligations(tx.State(), ids[..j], user)
    {
      assert ids[..j + 1][..j] == ids[..j];
      var id := ids[j];
      if id in tx.remittances && Open(tx.remittances[id], user) {
        var settledAmount := SettledBefore(tx.links, id);
        var remainingAmount := tx.remittances[id].amount - settledAmount;
        if remainingAmount > 0 {
          result := result + [Obligation(id, settledAmount, remainingAmount)];
        }
      }
      j := j + 1;
    }
    assert ids[..j] == ids;
  }
}
