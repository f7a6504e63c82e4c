/** PhysicalCustodyService, statement by statement. */
module CustodyService {
  import opened Base
  import opened Policy
  import opened Accounts
  import opened Limits
  import opened State
  import opened Store
  import AccountsService
  import LimitsService
  import Custody

  method Insert(tx: Database, row: Movement, key: Option<RequestKey>) returns (id: Id)
    modifies tx`nextId, tx`movements, tx`requests
    ensures id == old(tx.nextId)
    ensures tx.State() == old(tx.State()).(nextId := id + 1, movements := old(tx.movements)[id := row],
                                           requests := Indexed(old(tx.requests), key, id))
  {
    id := tx.nextId;
    tx.nextId := id + 1;
    tx.movements := tx.movements[id := row];
    tx.requests := Indexed(tx.requests, key, id);
  }

  method New(tx: Database, user: UserId, kind: MovementKind, weight: int, ayar: int, key: Option<nat>, at: Stamp,
             policies: Policies)
    returns (r: Outcome, id: Id)
    requires weight > 0
    modifies tx
    ensures id == old(tx.nextId)
    ensures WroteIndexed(tx.State(), Custody.Make(old(tx.State()), user, kind, weight, ayar, at, policies),
                         Indexed(old(tx.requests), Custody.KeyOf(user, key), id), r)
  {
    hide Limits.ReserveBoth, Accounts.ReserveFunds, Custody.ToEquiv750, Indexed;
    var equiv := Custody.ToEquiv750(weight, ayar);
    id := Insert(tx, Movement(user, kind, equiv, MovementStatus.Pending, at), Custody.KeyOf(user, key));
    var action := if kind.In? then CustodyIn else CustodyOut;
    :- LimitsService.ReserveBoth(tx, user, action, Weight750, OfInstrument(GOLD), at, equiv, Ref.Custody(id), policies);
    if kind.Out? {
      :- AccountsService.ReserveFunds(tx, Acct(user, GOLD), Ref.Custody(id), equiv);
    }
    return Done, id;
  }

  method RequestBody(tx: Database, user: UserId, kind: MovementKind, weight: int, ayar: int, key: Option<nat>,
                     at: Stamp, policies: Policies)
    returns (r: Outcome, id: Id)
    modifies tx
    ensures WroteNew(tx.State(), Custody.Request(old(tx.State()), user, kind, weight, ayar, key, at, policies), r, id)
  {
    hide Custody.Make;
    if weight <= 0 {
      return Failed(BadRequest), 0;
    }
    if key.Some? && MovementKey(user, key.value) in tx.requests {
      return Done, tx.requests[MovementKey(user, key.value)];
    }
    r, id := New(tx, user, kind, weight, ayar, key, at, policies);
  }

  /** The invariant is kept unless the weight comes out negative, which nothing checks. */
  method Request(tx: Database, user: UserId, kind: MovementKind, weight: int, ayar: int, key: Option<nat>, at: Stamp,
                 policies: Policies)
    returns (r: Outcome, id: Id)
    modifies tx
    ensures CommittedNew(old(tx.State()), tx.State(),
                         Custody.Request(old(tx.State()), user, kind, weight, ayar, key, at, policies), r, id)
    ensures Inv(old(tx.State())) && weight * ayar > -375 ==> Inv(tx.State())
  {
    hide Custody.Request, Inv;
    var before := tx.State();
    r, id := RequestBody(tx, user, kind, weight, ayar, key, at, policies);
    if r.Failed? {
      tx.Restore(before);
    } else if Inv(before) {
      Custody.RequestKeepsInv(before, user, kind, weight, ayar, key, at, policies);
    }
  }

  method PostMovement(tx: Database, m: Movement, ref: Ref) returns (r: Outcome)
    modifies tx`accounts, tx`ledger
    ensures tx.State() == old(tx.State()).(wallet := tx.Books())
    ensures Wrote(tx.Books(), PostAll(old(tx.Books()), Custody.MovementLegs(m), ref), r)
  {
    hide Accounts.ApplyTransaction, PostAll;
    ghost var legs := Custody.MovementLegs(m);
    assert legs == [legs[0]] + legs[1..] && legs[1..] == [legs[1]] + [];
    var userDelta := if m.kind.In? then Plus(m.equiv) else Minus(m.equiv);
    var houseDelta := if m.kind.In? then Minus(m.equiv) else Plus(m.equiv);
    var at: nat;
    AccountsService.PostFirst(tx.Books(), legs[0], legs[1..], ref);
    r, at := AccountsService.ApplyTransaction(tx, Acct(m.user, GOLD), userDelta, ref, None);
    :- r;
    AccountsService.PostFirst(tx.Books(), legs[1], [], ref);
    r, at := AccountsService.ApplyTransaction(tx, Acct(HOUSE, GOLD), houseDelta, ref, None);
    AccountsService.PostNone(tx.Books(), ref);
  }

  method ApproveBody(tx: Database, id: Id) returns (r: Outcome)
    modifies tx
    ensures Wrote(tx.State(), Custody.Approve(old(tx.State()), id), r)
  {
    hide Accounts.ConsumeFunds, OpenAll, PostAll, Limits.Consume, Custody.MovementLegs;
    if id !in tx.movements {
      return Failed(NotFound);
    }
    var m := tx.movements[id];
    if m.status.Approved? {
      return Done;
    }
    if !m.status.Pending? {
      return Failed(BadStatus);
    }
    var ref := Ref.Custody(id);
    if m.kind.Out? {
      :- AccountsService.ConsumeFunds(tx, Acct(m.user, GOLD), ref);
    }
    AccountsService.OpenBoth(tx, Acct(m.user, GOLD), Acct(HOUSE, GOLD));
    :- PostMovement(tx, m, ref);
    LimitsService.Consume(tx, ref);
    tx.movements := tx.movements[id := m.(status := MovementStatus.Approved)];
    return Done;
  }

  method Approve(tx: Database, id: Id) returns (r: Outcome)
    modifies tx
    ensures Committed(old(tx.State()), tx.State(), Custody.Approve(old(tx.State()), id), r)
    ensures Inv(old(tx.State())) ==> Inv(tx.State())
  {
    hide Custody.Approve, Inv;
    var before := tx.State();
    r := ApproveBody(tx, id);
    if r.Failed? {
      tx.Restore(before);
    } else if Inv(before) {
      Custody.ApproveKeepsInv(before, id);
    }
  }

  method CancelBody(tx: Database, id: Id) returns (r: Outcome)
    modifies tx
    ensures Wrote(tx.State(), Custody.Cancel(old(tx.State()), id), r)
  {
    hide Accounts.ReleaseFunds, Limits.Release;
    if id !in tx.movements {
      return Failed(NotFound);
    }
    var m := tx.movements[id];
    if m.status.Cancelled? || m.status.Rejected? {
      return Done;
    }
    if !m.status.Pending? {
      return Failed(BadStatus);
    }
    LimitsService.Release(tx, Ref.Custody(id));
    if m.kind.Out? {
      :- AccountsService.ReleaseFunds(tx, Acct(m.user, GOLD), Ref.Custody(id));
    }
    tx.movements := tx.movements[id := m.(status := MovementStatus.Cancelled)];
    return Done;
  }

  method Cancel(tx: Database, id: Id) returns (r: Outcome)
    modifies tx
    ensures Committed(old(tx.State()), tx.State(), Custody.Cancel(old(tx.State()), id), r)
    ensures Inv(old(tx.State())) ==> Inv(tx.State())
  {
    hide Custody.Cancel, Inv;
    var before := tx.State();
    r := CancelBody(tx, id);
    if r.Failed? {
      tx.Restore(before);
    } else if Inv(before) {
      Custody.CancelKeepsInv(before, id);
    }
  }

  method RejectBody(tx: Database, id: Id) returns (r: Outcome)
    modifies tx
    ensures Wrote(tx.State(), Custody.Reject(old(tx.State()), id), r)
  {
    hide Accounts.ReleaseFunds, Limits.Release;
    if id !in tx.movements {
      return Failed(NotFound);
    }
    var m := tx.movements[id];
    if m.status.Rejected? {
      return Done;
    }
    if !m.status.Pending? {
      return Failed(BadStatus);
    }
    LimitsService.Release(tx, Ref.Custody(id));
    if m.kind.Out? {
      :- AccountsService.ReleaseFunds(tx, Acct(m.user, GOLD), Ref.Custody(id));
    }
    tx.movements := tx.movements[id := m.(status := MovementStatus.Rejected)];
    return Done;
  }

  method Reject(tx: Database, id: Id) returns (r: Outcome)
    modifies tx
    ensures Committed(old(tx.State()), tx.State(), Custody.Reject(old(tx.State()), id), r)
    ensures Inv(old(tx.State())) ==> Inv(tx.State())
  {
    hide Custody.Reject, Inv;
    var before := tx.State();
    r := RejectBody(tx, id);
    if r.Failed? {
      tx.Restore(before);
    } else if Inv(before) {
      Custody.RejectKeepsInv(before, id);
    }
  }
}
