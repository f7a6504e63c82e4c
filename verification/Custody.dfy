/** PhysicalCustodyService. */
module Custody {
  import opened Base
  import opened Policy
  import opened Accounts
  import opened Limits
  import opened State
  import opened Frames

  /** Rounds halves away from zero, as the decimal library does. */
  function RoundedDiv(n: int, d: int): int
    requires d > 0
  {
    if n >= 0 then (2 * n + d) / (2 * d) else -((2 * -n + d) / (2 * d))
  }

  function ToEquiv750(weight: int, ayar: int): int {
    RoundedDiv(weight * ayar, 750)
  }

  function UserGold(m: Movement): Acct {
    Acct(m.user, GOLD)
  }

  const HOUSE_GOLD := Acct(HOUSE, GOLD)

  /** The two postings of an approved movement. */
  function MovementLegs(m: Movement): seq<(Acct, Signed)> {
    if m.kind.In? then [(UserGold(m), Plus(m.equiv)), (HOUSE_GOLD, Minus(m.equiv))]
    else [(UserGold(m), Minus(m.equiv)), (HOUSE_GOLD, Plus(m.equiv))]
  }

  function ReserveIfOut(w: Wallet, m: Movement, ref: Ref): Result<Wallet> {
    if m.kind.Out? then ReserveFunds(w, UserGold(m), ref, m.equiv) else Ok(w)
  }

  function ConsumeIfOut(w: Wallet, m: Movement, ref: Ref): Result<Wallet> {
    if m.kind.Out? then ConsumeFunds(w, UserGold(m), ref) else Ok(w)
  }

  function ReleaseIfOut(w: Wallet, m: Movement, ref: Ref): Result<Wallet> {
    if m.kind.Out? then ReleaseFunds(w, UserGold(m), ref) else Ok(w)
  }

  function ReserveVolume(q: Quota, m: Movement, ref: Ref, policies: Policies): Result<Quota> {
    ReserveBoth(q, m.user, MovementAction(m), Weight750, OfInstrument(GOLD), m.created, m.equiv, ref, policies)
  }

  /** A new movement. */
  function Make(db: Db, user: UserId, kind: MovementKind, weight: int, ayar: int, at: Stamp,
                policies: Policies): (r: Result<Db>)
    ensures r.Ok? ==> Adds(db, r.value) && r.value.remittances == db.remittances
  {
    if weight <= 0 then Err(BadRequest) else
      var ref := Ref.Custody(db.nextId);
      var m := Movement(user, kind, ToEquiv750(weight, ayar), MovementStatus.Pending, at);
      var quota :- ReserveVolume(db.quota, m, ref, policies);
      var wallet :- ReserveIfOut(db.wallet, m, ref);
      Ok(db.(wallet := wallet, quota := quota, movements := db.movements[db.nextId := m], nextId := db.nextId + 1))
  }

  function KeyOf(user: UserId, key: Option<nat>): Option<RequestKey> {
    if key.Some? then Some(MovementKey(user, key.value)) else None
  }

  /** Returns the movement made, or the one made before under the same key. */
  function Request(db: Db, user: UserId, kind: MovementKind, weight: int, ayar: int, key: Option<nat>, at: Stamp,
                   policies: Policies): (r: Result<(Db, Id)>)
    ensures r.Ok? ==> Aside(db, r.value.0) && RemittancesAside(db, r.value.0)
  {
    var k := KeyOf(user, key);
    if weight <= 0 then Err(BadRequest)
    else if Found(db, k) then Ok((db, db.requests[k.value]))
    else
      var db1 :- Make(db, user, kind, weight, ayar, at, policies);
      Ok((Stored(db1, k, db.nextId), db.nextId))
  }

  function Approve(db: Db, id: Id): (r: Result<Db>)
    ensures r.Ok? ==> Decides(db, r.value, Ref.Custody(id))
  {
    if id !in db.movements then Err(NotFound)
    else if db.movements[id].status.Approved? then Ok(db)
    else if !db.movements[id].status.Pending? then Err(BadStatus)
    else
      var (m, ref) := (db.movements[id], Ref.Custody(id));
      var w1 :- ConsumeIfOut(db.wallet, m, ref);
      var wallet :- PostAll(OpenAll(w1, [UserGold(m), HOUSE_GOLD]), MovementLegs(m), ref);
      Ok(db.(wallet := wallet, quota := Consume(db.quota, ref),
             movements := db.movements[id := m.(status := MovementStatus.Approved)]))
  }

  function Drop(db: Db, id: Id, status: MovementStatus): Result<Db>
    requires id in db.movements
  {
    var (m, ref) := (db.movements[id], Ref.Custody(id));
    if !m.status.Pending? then Err(BadStatus) else
      var wallet :- ReleaseIfOut(db.wallet, m, ref);
      Ok(db.(wallet := wallet, quota := Release(db.quota, ref), movements := db.movements[id := m.(status := status)]))
  }

  function Cancel(db: Db, id: Id): (r: Result<Db>)
    ensures r.Ok? ==> Decides(db, r.value, Ref.Custody(id))
  {
    if id !in db.movements then Err(NotFound)
    else if db.movements[id].status.Cancelled? || db.movements[id].status.Rejected? then Ok(db)
    else Drop(db, id, MovementStatus.Cancelled)
  }

  function Reject(db: Db, id: Id): (r: Result<Db>)
    ensures r.Ok? ==> Decides(db, r.value, Ref.Custody(id))
  {
    if id !in db.movements then Err(NotFound)
    else if db.movements[id].status.Rejected? then Ok(db)
    else Drop(db, id, MovementStatus.Rejected)
  }

  // ---------------------------------------------------------------- lemmas

  /** `equiv` is the weight in pure terms, in whole units: the nearest, and of two that are as near the one further from
      zero. */
  predicate Nearest(equiv: int, weight: int, ayar: int) {
    var error := 750 * equiv - weight * ayar;
    -375 <= error <= 375 && (error == 375 ==> weight * ayar > 0) && (error == -375 ==> weight * ayar < 0)
  }

  lemma EquivNearest(weight: int, ayar: int)
    ensures Nearest(ToEquiv750(weight, ayar), weight, ayar)
  {
  }

  /** A fineness that is not negative gives a weight that is not; so does a negative one that rounds away. */
  lemma EquivSign(weight: int, ayar: int)
    requires weight > 0
    ensures ToEquiv750(weight, ayar) >= 0 <==> weight * ayar > -375
    ensures ayar >= 0 ==> ToEquiv750(weight, ayar) >= 0
  {
    if ayar >= 0 {
      NotNegative(weight, ayar);
    }
  }

  lemma NotNegative(x: int, y: int)
    requires x > 0 && y >= 0
    ensures x * y >= 0
  {
  }

  function Funds(m: Movement, fate: HoldStatus): map<Acct, Hold> {
    if m.kind.Out? then map[UserGold(m) := Hold(m.equiv, fate)] else map[]
  }

  function Volume(m: Movement, fate: HoldStatus): map<UsageKey, Hold> {
    Both(m.user, MovementAction(m), Weight750, OfInstrument(GOLD), m.created, Hold(m.equiv, fate))
  }

  function Moved(m: Movement): seq<Move> {
    if m.status.Approved? then MovesFor(MovementLegs(m)) else []
  }

  lemma MovementKnown(db: Db, id: Id)
    requires Inv(db) && id in db.movements
    ensures var (m, ref) := (db.movements[id], Ref.Custody(id));
            && m.equiv >= 0 && id < db.nextId
            && HoldsOf(db.wallet.holds, ref) == Funds(m, MovementFate(m))
            && LimitsOf(db.quota.limits, ref) == Volume(m, MovementFate(m))
            && MovesOf(db.wallet.ledger, ref) == Moved(m)
  {
    hide HoldsOf, LimitsOf, MovesOf, Both, Sound, QuotaSound, TotalsSound;
    assert Explained(db, Ref.Custody(id));
    var m := db.movements[id];
    assert m.status.Approved? ==> MovementView(m).moves == Moved(m);
  }

  lemma Shown(db: Db, id: Id)
    requires id in db.movements
    requires var (m, ref) := (db.movements[id], Ref.Custody(id));
             && HoldsOf(db.wallet.holds, ref) == Funds(m, MovementFate(m))
             && LimitsOf(db.quota.limits, ref) == Volume(m, MovementFate(m))
             && MovesOf(db.wallet.ledger, ref) == Moved(m)
    ensures Explained(db, Ref.Custody(id))
  {
    hide HoldsOf, LimitsOf, MovesOf, Both;
    var m := db.movements[id];
    assert m.status.Approved? ==> MovementView(m).moves == Moved(m);
  }

  lemma SameTerms(m: Movement, m': Movement)
    requires m' == m.(status := m'.status)
    ensures MovementLegs(m') == MovementLegs(m)
    ensures forall fate :: Funds(m', fate) == Funds(m, fate) && Volume(m', fate) == Volume(m, fate)
  {
  }

  lemma NetOfLegs(m: Movement)
    ensures forall i :: Net(MovesFor(MovementLegs(m)), i) == 0
  {
    var moves := MovesFor(MovementLegs(m));
    assert moves == [moves[0], moves[1]];
    forall i ensures Net(moves, i) == 0 {
      NetOfTwo(moves[0], moves[1], i);
    }
  }

  /** A new movement keeps the invariant unless its weight comes out negative. */
  lemma MakeKeepsInv(db: Db, user: UserId, kind: MovementKind, weight: int, ayar: int, at: Stamp, policies: Policies)
    requires Inv(db) && Make(db, user, kind, weight, ayar, at, policies).Ok?
    ensures Inv(Make(db, user, kind, weight, ayar, at, policies).value) <==> weight * ayar > -375
    ensures weight * ayar > -375 ==>
            OnlyOn(db, Make(db, user, kind, weight, ayar, at, policies).value, Ref.Custody(db.nextId))
  {
    hide Inv, Sound, QuotaSound, IdsSound, RowsSound, TotalsSound, LinksSound, ReversalsSound, Agree, Explained,
         RoundedDiv, HoldsOf, LimitsOf, MovesOf, Both, Issued, Adjusted, ReserveBoth, ReserveFunds, Net, MovementAction;
    var (db', id) := (Make(db, user, kind, weight, ayar, at, policies).value, db.nextId);
    var (ref, m) := (Ref.Custody(id), db'.movements[id]);
    EquivSign(weight, ayar);
    if m.equiv >= 0 {
      Known(db, ref);
      FreshReference(db, ref);
      IdUnused(db);
      if kind.Out? {
        ReserveFresh(db.wallet, UserGold(m), ref, m.equiv);
      } else {
        NothingPosted(db.wallet, ref);
      }
      ReserveBothFresh(db.quota, user, MovementAction(m), Weight750, OfInstrument(GOLD), at, m.equiv, ref, policies);
      NetNil();
      Shown(db', id);
      MovementWritten(db, db', id, m);
      IssuedUnmoved(db, db');
      ReversalsKept(db.wallet.ledger, db'.wallet.ledger, db.trades, db'.trades);
      OneRequest(db, db', ref, Funds(m, Reserved), LimitsOf(db'.quota.limits, ref), []);
    } else {
      NegativeUnsound(db', id);
    }
  }

  lemma NegativeUnsound(db: Db, id: Id)
    requires id in db.movements && db.movements[id].equiv < 0
    ensures !Inv(db)
  {
    hide Sound, QuotaSound, IdsSound, TotalsSound, LinksSound, ReversalsSound, Explained, Conserved;
  }

  lemma ApproveBooks(w: Wallet, m: Movement, ref: Ref)
    requires Sound(w) && m.equiv >= 0 && HoldsOf(w.holds, ref) == Funds(m, Reserved)
    ensures ConsumeIfOut(w, m, ref).Ok?
    ensures var w2 := OpenAll(ConsumeIfOut(w, m, ref).value, [UserGold(m), HOUSE_GOLD]);
            && Effect(w, w2, ref, Funds(m, Consumed), [])
            && w2.ledger == w.ledger
            && (forall a | a != UserGold(m) :: Row(w2, a) == Row(w, a))
            && UserGold(m) in w2.accounts && HOUSE_GOLD in w2.accounts
            && UsableCapacity(Row(w2, UserGold(m))) == UsableCapacity(Row(w, UserGold(m))) +
               if m.kind.Out? then m.equiv else 0
  {
    hide Sound, HoldsOf, MovesOf, Effect, ConsumeFunds, Row, UsableCapacity, OpenAll;
    var a := UserGold(m);
    if m.kind.Out? {
      ConsumeHeld(w, a, ref, m.equiv);
    } else {
      NothingPosted(w, ref);
    }
    var w1 := ConsumeIfOut(w, m, ref).value;
    OpenAllAfter(w, w1, [a, HOUSE_GOLD], ref, Funds(m, Consumed), []);
    assert a in [a, HOUSE_GOLD] && HOUSE_GOLD in [a, HOUSE_GOLD];
  }

  lemma PostBooks(w: Wallet, w2: Wallet, m: Movement, ref: Ref)
    requires Effect(w, w2, ref, Funds(m, Consumed), []) && w2.ledger == w.ledger &&
             PostAll(w2, MovementLegs(m), ref).Ok?
    ensures Effect(w, PostAll(w2, MovementLegs(m), ref).value, ref, Funds(m, Consumed), MovesFor(MovementLegs(m)))
    ensures Forward(w.ledger, PostAll(w2, MovementLegs(m), ref).value.ledger)
  {
    hide Effect, PostAll, MovesFor, MovementLegs, Funds;
    PostAllAfter(w, w2, MovementLegs(m), ref, Funds(m, Consumed), []);
    assert [] + MovesFor(MovementLegs(m)) == MovesFor(MovementLegs(m));
  }

  lemma ApproveKeepsInv(db: Db, id: Id)
    requires Inv(db) && Approve(db, id).Ok?
    ensures Inv(Approve(db, id).value)
    ensures OnlyOn(db, Approve(db, id).value, Ref.Custody(id))
    ensures SameHeld(db, Approve(db, id).value)
  {
    hide Inv, Sound, QuotaSound, IdsSound, RowsSound, TotalsSound, LinksSound, ReversalsSound, Agree, Explained,
         ConsumeIfOut, Row, UsableCapacity, HoldsOf, LimitsOf, MovesOf, Both, Issued, Adjusted, Net, Consume, Release,
         OpenAll, PostAll, MovesFor, MovementLegs, MovementAction;
    if id in db.movements && db.movements[id].status.Pending? {
      var (db', ref, m) := (Approve(db, id).value, Ref.Custody(id), db.movements[id]);
      Known(db, ref);
      MovementKnown(db, id);
      ApproveBooks(db.wallet, m, ref);
      PostBooks(db.wallet, OpenAll(ConsumeIfOut(db.wallet, m, ref).value, [UserGold(m), HOUSE_GOLD]), m, ref);
      hide Approve;
      SettleBoth(db.quota, ref, m.user, MovementAction(m), Weight750, OfInstrument(GOLD), m.created, m.equiv);
      SameTerms(m, db'.movements[id]);
      NetOfLegs(m);
      Shown(db', id);
      MovementWritten(db, db', id, db'.movements[id]);
      IssuedUnmoved(db, db');
      ReversalsKept(db.wallet.ledger, db'.wallet.ledger, db.trades, db'.trades);
      OneRequest(db, db', ref, Funds(m, Consumed), LimitsOf(db'.quota.limits, ref), MovesFor(MovementLegs(m)));
    }
  }

  lemma ReleaseBooks(w: Wallet, m: Movement, ref: Ref)
    requires Sound(w) && HoldsOf(w.holds, ref) == Funds(m, Reserved)
    ensures ReleaseIfOut(w, m, ref).Ok?
    ensures Effect(w, ReleaseIfOut(w, m, ref).value, ref, Funds(m, Released), [])
    ensures ReleaseIfOut(w, m, ref).value.ledger == w.ledger
  {
    hide Sound, HoldsOf, Effect, ReleaseFunds;
    if m.kind.Out? {
      ReleaseHeld(w, UserGold(m), ref, m.equiv);
    } else {
      NothingPosted(w, ref);
    }
  }

  /** A pending movement can always be dropped. */
  lemma DropKeepsInv(db: Db, id: Id, status: MovementStatus)
    requires Inv(db) && id in db.movements && db.movements[id].status.Pending? &&
             (status.Rejected? || status.Cancelled?)
    ensures Drop(db, id, status).Ok? && Inv(Drop(db, id, status).value)
    ensures OnlyOn(db, Drop(db, id, status).value, Ref.Custody(id))
  {
    hide Inv, Sound, QuotaSound, IdsSound, RowsSound, TotalsSound, LinksSound, ReversalsSound, Agree, Explained,
         HoldsOf, LimitsOf, MovesOf, Both, Issued, Adjusted, Net, Consume, Release, ReleaseIfOut, MovementLegs,
         MovementAction;
    var (ref, m) := (Ref.Custody(id), db.movements[id]);
    Known(db, ref);
    MovementKnown(db, id);
    ReleaseBooks(db.wallet, m, ref);
    var db' := Drop(db, id, status).value;
    SettleBoth(db.quota, ref, m.user, MovementAction(m), Weight750, OfInstrument(GOLD), m.created, m.equiv);
    SameTerms(m, db'.movements[id]);
    NetNil();
    Shown(db', id);
    MovementWritten(db, db', id, db'.movements[id]);
    IssuedUnmoved(db, db');
    ReversalsKept(db.wallet.ledger, db'.wallet.ledger, db.trades, db'.trades);
    OneRequest(db, db', ref, Funds(m, Released), LimitsOf(db'.quota.limits, ref), []);
  }

  lemma CancelKeepsInv(db: Db, id: Id)
    requires Inv(db) && Cancel(db, id).Ok?
    ensures Inv(Cancel(db, id).value)
    ensures OnlyOn(db, Cancel(db, id).value, Ref.Custody(id))
  {
    hide Inv, ReleaseIfOut, Release;
    if Cancel(db, id).value != db {
      DropKeepsInv(db, id, MovementStatus.Cancelled);
    }
  }

  lemma RejectKeepsInv(db: Db, id: Id)
    requires Inv(db) && Reject(db, id).Ok?
    ensures Inv(Reject(db, id).value)
    ensures OnlyOn(db, Reject(db, id).value, Ref.Custody(id))
  {
    hide Inv, ReleaseIfOut, Release;
    if Reject(db, id).value != db {
      DropKeepsInv(db, id, MovementStatus.Rejected);
    }
  }

  /** Approving a pending movement out never fails; one in goes through exactly when the house has the gold to give.
      The house moving its own gold in is paid before it pays. */
  lemma ApproveSucceedsIff(db: Db, id: Id)
    requires Inv(db) && id in db.movements && db.movements[id].status.Pending?
    ensures var m := db.movements[id];
            Approve(db, id).Ok? <==>
            m.kind.Out? || m.user == HOUSE || UsableCapacity(Row(db.wallet, HOUSE_GOLD)) >= m.equiv
  {
    hide Inv, Sound, QuotaSound, Explained, HoldsOf, LimitsOf, Both, Consume, OpenAll, PostAll, ConsumeIfOut, Row,
         Effect, UsableCapacity, MovesOf, RowsSound, TotalsSound, Payable, MovementLegs;
    var (ref, m) := (Ref.Custody(id), db.movements[id]);
    Known(db, ref);
    MovementKnown(db, id);
    ApproveBooks(db.wallet, m, ref);
    var w2 := OpenAll(ConsumeIfOut(db.wallet, m, ref).value, [UserGold(m), HOUSE_GOLD]);
    EffectSound(db.wallet, w2, ref, Funds(m, Consumed), []);
    UsableAt(db.wallet, UserGold(m));
    UsableAt(db.wallet, HOUSE_GOLD);
    LegsPayable(w2, m, ref);
    LegAccounts(m);
    PostAllIff(w2, MovementLegs(m), ref);
  }

  lemma LegAccounts(m: Movement)
    ensures forall k | 0 <= k < |MovementLegs(m)| ::
            MovementLegs(m)[k].0 == UserGold(m) || MovementLegs(m)[k].0 == HOUSE_GOLD
  {
  }

  lemma LegsPayable(w: Wallet, m: Movement, ref: Ref)
    requires m.equiv >= 0 && MovesOf(w.ledger, ref) == []
    requires UsableCapacity(Row(w, UserGold(m))) >= if m.kind.Out? then m.equiv else 0
    requires UsableCapacity(Row(w, HOUSE_GOLD)) >= 0
    ensures Payable(w, MovementLegs(m), ref)
       <==> m.kind.Out? || m.user == HOUSE || UsableCapacity(Row(w, HOUSE_GOLD)) >= m.equiv
  {
    hide MovesOf, Row, UsableCapacity;
    OnTwo(MovementLegs(m));
    hide On;
  }

  /** What a new movement takes. */
  lemma MakeSucceedsIff(db: Db, user: UserId, kind: MovementKind, weight: int, ayar: int, at: Stamp, policies: Policies)
    requires Inv(db)
    ensures Make(db, user, kind, weight, ayar, at, policies).Ok?
       <==> && weight > 0
            && BothAllow(db.quota, user,
                         if kind.In? then CustodyIn else CustodyOut, Weight750, OfInstrument(GOLD), at,
                            ToEquiv750(weight, ayar), policies)
            && (kind.Out? ==> UsableCapacity(Row(db.wallet, Acct(user, GOLD))) >= ToEquiv750(weight, ayar))
  {
    hide Inv, Sound, QuotaSound, IdsSound, RowsSound, TotalsSound, LinksSound, ReversalsSound, Explained, HoldsOf,
         LimitsOf, MovesOf, ReserveBoth, ReserveFunds, BothAllow, UsableCapacity, ToEquiv750, Row;
    var (ref, equiv) := (Ref.Custody(db.nextId), ToEquiv750(weight, ayar));
    Known(db, ref);
    FreshReference(db, ref);
    ReserveBothIff(db.quota, user,
                   if kind.In? then CustodyIn else CustodyOut, Weight750, OfInstrument(GOLD), at, equiv, ref, policies);
    ReserveIff(db.wallet, Acct(user, GOLD), ref, equiv);
  }

  lemma RequestKeepsInv(db: Db, user: UserId, kind: MovementKind, weight: int, ayar: int, key: Option<nat>, at: Stamp,
                        policies: Policies)
    requires Inv(db) && Request(db, user, kind, weight, ayar, key, at, policies).Ok?
    ensures Inv(Request(db, user, kind, weight, ayar, key, at, policies).value.0) <==>
            Found(db, KeyOf(user, key)) || weight * ayar > -375
    ensures weight * ayar > -375 ==>
            OnlyOn(db, Request(db, user, kind, weight, ayar, key, at, policies).value.0, Ref.Custody(db.nextId))
  {
    hide Inv, HoldsOf, LimitsOf, MovesOf, Make, OnlyOn;
    var (k, ref) := (KeyOf(user, key), Ref.Custody(db.nextId));
    if Found(db, k) {
      OnlyFromSame(db, db, ref);
    } else {
      var made := Make(db, user, kind, weight, ayar, at, policies).value;
      MakeKeepsInv(db, user, kind, weight, ayar, at, policies);
      if weight * ayar > -375 {
        StoredKeepsInv(db, made, ref, k, db.nextId);
      } else {
        var db' := Stored(made, k, db.nextId);
        assert made == db'.(assignments := made.assignments, requests := made.requests);
        if Inv(db') {
          IndexApart(db', made);
        }
      }
    }
  }

  /** A movement is accepted exactly when its gross weight is positive and it repeats an earlier one, or the limits
      allow its weight in pure terms and, going out, the user can spare that much gold. One that repeats an earlier one
      returns that one and changes nothing. */
  lemma RequestSucceedsIff(db: Db, user: UserId, kind: MovementKind, weight: int, ayar: int, key: Option<nat>,
                           at: Stamp, policies: Policies)
    requires Inv(db)
    ensures var (action, k) := (if kind.In? then CustodyIn else CustodyOut, KeyOf(user, key));
            var r := Request(db, user, kind, weight, ayar, key, at, policies);
            && (r.Ok? <==>
                  && weight > 0
                  && (|| Found(db, k)
                      || (&& BothAllow(db.quota, user, action, Weight750, OfInstrument(GOLD), at,
                                       ToEquiv750(weight, ayar), policies)
                          && (kind.Out? ==>
                              UsableCapacity(Row(db.wallet, Acct(user, GOLD))) >= ToEquiv750(weight, ayar)))))
            && (r.Ok? && Found(db, k) ==> r.value == (db, db.requests[k.value]))
            && (r.Ok? && !Found(db, k) ==>
                r.value.1 == db.nextId && r.value.0.requests == Stored(db, k, db.nextId).requests)
  {
    hide Inv, Make, BothAllow, UsableCapacity, Row, ToEquiv750;
    MakeSucceedsIff(db, user, kind, weight, ayar, at, policies);
  }

  /** An approved movement has moved its weight between the user and the house, and nothing on any other account; one of
      the house itself has moved nothing. */
  lemma ApprovedNets(db: Db, id: Id, a: Acct)
    requires Inv(db) && id in db.movements && db.movements[id].status.Approved?
    ensures var m := db.movements[id];
            var got := if m.kind.In? then m.equiv else -m.equiv;
            NetOn(MovesOf(db.wallet.ledger, Ref.Custody(id)), a) ==
              (if a == UserGold(m) then got else 0) - if a == HOUSE_GOLD then got else 0
  {
    hide Inv, Sound, QuotaSound, Explained, HoldsOf, LimitsOf, MovesOf, Both, NetOn;
    MovementKnown(db, id);
    var moves := MovesFor(MovementLegs(db.movements[id]));
    assert moves == [moves[0], moves[1]];
    NetOnTwo(moves[0], moves[1], a);
  }
}
