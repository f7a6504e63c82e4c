/** AccountsService, statement by statement. */
module AccountsService {
  import opened Base
  import opened Accounts
  import opened Store

  method GetOrCreateAccount(tx: Database, a: Acct) returns (row: Account)
    modifies tx`accounts
    ensures tx.State() == old(tx.State()).(wallet := tx.Books())
    ensures tx.Books() == GetOrCreate(old(tx.Books()), a) && a in tx.accounts &&
            row == tx.accounts[a] == Row(old(tx.Books()), a)
  {
    if a !in tx.accounts {
      tx.accounts := tx.accounts[a := ZERO_ACCOUNT];
    }
    row := tx.accounts[a];
  }

  method ReserveFunds(tx: Database, a: Acct, ref: Ref, amount: int) returns (r: Outcome)
    modifies tx`accounts, tx`holds
    ensures tx.State() == old(tx.State()).(wallet := tx.Books())
    ensures Wrote(tx.Books(), Accounts.ReserveFunds(old(tx.Books()), a, ref, amount), r)
  {
    hide UsableCapacity;
    var account := GetOrCreateAccount(tx, a);
    var k := HoldKey(ref, a);
    if k in tx.holds {
      if tx.holds[k].status == Released {
        return Failed(AlreadyReleased);
      }
      return Done;
    }
    if UsableCapacity(account) < amount {
      return Failed(InsufficientCredit);
    }
    tx.holds := tx.holds[k := Hold(amount, Reserved)];
    tx.accounts := tx.accounts[a := account.(blocked := account.blocked + amount)];
    return Done;
  }

  method ReleaseFunds(tx: Database, a: Acct, ref: Ref) returns (r: Outcome)
    modifies tx`accounts, tx`holds
    ensures tx.State() == old(tx.State()).(wallet := tx.Books())
    ensures Wrote(tx.Books(), Accounts.ReleaseFunds(old(tx.Books()), a, ref), r)
  {
    var account := GetOrCreateAccount(tx, a);
    var k := HoldKey(ref, a);
    if k !in tx.holds {
      return Done;
    }
    var reservation := tx.holds[k];
    if reservation.status == Released {
      return Done;
    }
    if reservation.status == Consumed {
      return Done;
    }
    var newBlocked := account.blocked - reservation.amount;
    if newBlocked < 0 {
      return Failed(NegativeBlocked);
    }
    tx.holds := tx.holds[k := reservation.(status := Released)];
    tx.accounts := tx.accounts[a := account.(blocked := newBlocked)];
    return Done;
  }

  method ConsumeFunds(tx: Database, a: Acct, ref: Ref) returns (r: Outcome)
    modifies tx`accounts, tx`holds
    ensures tx.State() == old(tx.State()).(wallet := tx.Books())
    ensures Wrote(tx.Books(), Accounts.ConsumeFunds(old(tx.Books()), a, ref), r)
  {
    var account := GetOrCreateAccount(tx, a);
    var k := HoldKey(ref, a);
    if k !in tx.holds {
      return Done;
    }
    var reservation := tx.holds[k];
    if reservation.status == Consumed {
      return Done;
    }
    if reservation.status == Released {
      return Failed(AlreadyReleased);
    }
    var newBlocked := account.blocked - reservation.amount;
    if newBlocked < 0 {
      return Failed(NegativeBlocked);
    }
    tx.holds := tx.holds[k := reservation.(status := Consumed)];
    tx.accounts := tx.accounts[a := account.(blocked := newBlocked)];
    return Done;
  }

  /** Looks the unique index on postings up by reading the ledger. */
  method IsTaken(ledger: seq<Posting>, ref: Ref, a: Acct, side: Side) returns (taken: bool)
    ensures taken <==> Taken(ledger, ref, a, side)
  {
    taken := false;
    var j := 0;
    while j < |ledger|
      invariant 0 <= j <= |ledger|
      invariant taken <==> Taken(ledger[..j], ref, a, side)
    {
      assert ledger[..j + 1] == ledger[..j] + [ledger[j]];
      TakenAfter(ledger[..j], ledger[j], ref, a, side);
      if ledger[j].ref == ref && ledger[j].acct == a && ledger[j].side == side {
        taken := true;
      }
      j := j + 1;
    }
    assert ledger[..j] == ledger;
  }

  /** Returns the position of the new posting. */
  method ApplyTransaction(tx: Database, a: Acct, delta: Signed, ref: Ref, reversalOf: Option<nat>)
    returns (r: Outcome, posted: nat)
    modifies tx`accounts, tx`ledger
    ensures tx.State() == old(tx.State()).(wallet := tx.Books())
    ensures Wrote(tx.Books(), Accounts.ApplyTransaction(old(tx.Books()), a, delta, ref, reversalOf), r)
    ensures r.Done? ==> posted == |old(tx.ledger)|
  {
    if a !in tx.accounts {
      return Failed(NotFound), 0;
    }
    var account := tx.accounts[a];
    var newBalance := account.balance + delta.value;
    if newBalance < account.blocked + account.min {
      return Failed(InsufficientCredit), 0;
    }
    var taken := IsTaken(tx.ledger, ref, a, delta.EntrySide());
    if taken {
      return Failed(DuplicatePosting), 0;
    }
    posted := |tx.ledger|;
    tx.ledger := tx.ledger + [Posting(a, delta.value, delta.EntrySide(), ref, reversalOf)];
    tx.accounts := tx.accounts[a := account.(balance := newBalance)];
    return Done, posted;
  }

  // ---------------------------------------------------------------- postings in series

  /** The first posting of a series, and the rest. */
  lemma PostFirst(w: Wallet, leg: (Acct, Signed), rest: seq<(Acct, Signed)>, ref: Ref)
    ensures var r := Accounts.ApplyTransaction(w, leg.0, leg.1, ref, None);
            PostAll(w, [leg] + rest, ref) == if r.Ok? then PostAll(r.value, rest, ref) else r
  {
    hide Accounts.ApplyTransaction;
    assert ([leg] + rest)[1..] == rest;
  }

  /** A debit and an equal credit. */
  method PostTransfer(tx: Database, from: Acct, to: Acct, amount: int, ref: Ref)
    returns (r: Outcome, debit: nat, credit: nat)
    modifies tx`accounts, tx`ledger
    ensures tx.State() == old(tx.State()).(wallet := tx.Books())
    ensures Wrote(tx.Books(), PostAll(old(tx.Books()), TransferLegs(from, to, amount), ref), r)
    ensures r.Done? ==> debit == |old(tx.ledger)| && credit == |old(tx.ledger)| + 1
  {
    hide Accounts.ApplyTransaction, PostAll;
    debit, credit := 0, 0;
    ghost var legs := TransferLegs(from, to, amount);
    PostFirst(tx.Books(), legs[0], legs[1..], ref);
    assert legs == [legs[0]] + legs[1..];
    r, debit := ApplyTransaction(tx, from, Minus(amount), ref, None);
    :- r;
    PostFirst(tx.Books(), legs[1], [], ref);
    assert legs[1..] == [legs[1]] + [];
    r, credit := ApplyTransaction(tx, to, Plus(amount), ref, None);
    PostNone(tx.Books(), ref);
    assert r.Done? ==> credit == debit + 1 by {
      Longer(old(tx.Books()), from, Minus(amount), ref);
    }
  }

  lemma PostNone(w: Wallet, ref: Ref)
    ensures PostAll(w, [], ref) == Ok(w)
  {
  }

  lemma Longer(w: Wallet, a: Acct, delta: Signed, ref: Ref)
    ensures var r := Accounts.ApplyTransaction(w, a, delta, ref, None); r.Ok? ==> |r.value.ledger| == |w.ledger| + 1
  {
  }

  /** The accounts of both ends, opened if need be. */
  method OpenBoth(tx: Database, from: Acct, to: Acct)
    modifies tx`accounts
    ensures tx.State() == old(tx.State()).(wallet := tx.Books())
    ensures tx.Books() == OpenAll(old(tx.Books()), [from, to])
  {
    var _ := GetOrCreateAccount(tx, from);
    var _ := GetOrCreateAccount(tx, to);
    assert [from, to][1..] == [to] && [to][1..] == [];
    assert OpenAll(tx.Books(), []) == tx.Books();
    assert OpenAll(GetOrCreate(old(tx.Books()), from), [to]) == OpenAll(tx.Books(), []);
  }

  /** Consuming opens the account itself, and leaves it open. */
  lemma ConsumeOpens(w: Wallet, a: Acct, ref: Ref)
    ensures Accounts.ConsumeFunds(GetOrCreate(w, a), a, ref) == Accounts.ConsumeFunds(w, a, ref)
    ensures Accounts.ConsumeFunds(w, a, ref).Ok? ==>
              var w' := Accounts.ConsumeFunds(w, a, ref).value;
              a in w'.accounts && GetOrCreate(w', a) == w' && w'.ledger == w.ledger
  {
  }
}
