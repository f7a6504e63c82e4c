/** RemittancesService: single remittances, and groups of legs that settle earlier ones. */
module Remittances {
  import opened Base
  import opened Sums
  import opened Policy
  import opened Accounts
  import opened Limits
  import opened State
  import opened Frames

  function Sender(r: RemittanceRow): Acct {
    Acct(r.sender, r.instr)
  }

  function Receiver(r: RemittanceRow): Acct {
    Acct(r.receiver, r.instr)
  }

  /** The two postings of a remittance. */
  function Legs(r: RemittanceRow): seq<(Acct, Signed)> {
    TransferLegs(Sender(r), Receiver(r), r.amount)
  }

  /** A new remittance. */
  function Make(db: Db, sender: UserId, receiver: UserId, instr: Instrument, amount: int, at: Stamp,
                policies: Policies): (r: Result<Db>)
    ensures r.Ok? ==> Adds(db, r.value)
  {
    if amount <= 0 || receiver == sender then Err(BadRequest) else
      var ref := Ref.Remittance(db.nextId);
      var r := RemittanceRow(sender, receiver, None, instr, amount, RemittanceStatus.Pending, false, false, at);
      var quota :- ReserveBoth(db.quota, sender, RemittanceSend, NotionalIrr, OfInstrument(instr), at, amount, ref,
                               policies);
      var wallet :- ReserveFunds(db.wallet, Sender(r), ref, amount);
      Ok(db.(wallet := wallet, quota := quota, remittances := db.remittances[db.nextId := r], nextId := db.nextId + 1))
  }

  function KeyOf(sender: UserId, key: Option<nat>): Option<RequestKey> {
    if key.Some? then Some(RemittanceKey(sender, key.value)) else None
  }

  /** Returns the remittance made, or the one made before under the same key. */
  function Create(db: Db, sender: UserId, receiver: UserId, instr: Instrument, amount: int, key: Option<nat>, at: Stamp,
                  policies: Policies): (r: Result<(Db, Id)>)
    ensures r.Ok? ==>
            Aside(db, r.value.0) && r.value.0.links == db.links && db.remittances.Keys <= r.value.0.remittances.Keys
  {
    var k := KeyOf(sender, key);
    if amount <= 0 || receiver == sender then Err(BadRequest)
    else if Found(db, k) then Ok((db, db.requests[k.value]))
    else
      var db1 :- Make(db, sender, receiver, instr, amount, at, policies);
      Ok((Stored(db1, k, db.nextId), db.nextId))
  }

  function Approve(db: Db, id: Id): (r: Result<Db>)
    ensures r.Ok? ==> Decides(db, r.value, Ref.Remittance(id))
  {
    if id !in db.remittances then Err(NotFound)
    else if db.remittances[id].status.Completed? then Ok(db)
    else if !db.remittances[id].status.Pending? then Err(BadStatus)
    else
      var (r, ref) := (db.remittances[id], Ref.Remittance(id));
      var w1 :- ConsumeFunds(db.wallet, Sender(r), ref);
      var wallet :- PostAll(OpenAll(w1, [Sender(r), Receiver(r)]), Legs(r), ref);
      Ok(db.(wallet := wallet, quota := Consume(db.quota, ref),
             remittances := db.remittances[id := r.(status := RemittanceStatus.Completed, posted := true)]))
  }

  function Reject(db: Db, id: Id): (r: Result<Db>)
    ensures r.Ok? ==> Decides(db, r.value, Ref.Remittance(id))
  {
    if id !in db.remittances then Err(NotFound)
    else if db.remittances[id].status.Cancelled? then Ok(db)
    else if !db.remittances[id].status.Pending? then Err(BadStatus)
    else
      var (r, ref) := (db.remittances[id], Ref.Remittance(id));
      var wallet :- ReleaseFunds(db.wallet, Sender(r), ref);
      Ok(db.(wallet := wallet, quota := Release(db.quota, ref),
             remittances := db.remittances[id := r.(status := RemittanceStatus.Cancelled)]))
  }

  function CancelByUser(db: Db, id: Id, user: UserId): (r: Result<Db>)
    ensures r.Ok? ==> Decides(db, r.value, Ref.Remittance(id))
  {
    if id !in db.remittances || db.remittances[id].sender != user then Err(NotFound) else Reject(db, id)
  }

  // ---------------------------------------------------------------- groups

  datatype SettlementInput = SettlementInput(source: Id, amount: int)

  datatype LegInput = LegInput(receiver: UserId, onBehalfOf: Option<UserId>, instr: Instrument, amount: int,
                               settlements: seq<SettlementInput>)

  function LegRow(sender: UserId, leg: LegInput, at: Stamp): RemittanceRow {
    RemittanceRow(sender, leg.receiver, leg.onBehalfOf, leg.instr, leg.amount, RemittanceStatus.Completed, true, true,
                  at)
  }

  function PostLeg(w: Wallet, r: RemittanceRow, id: Id): Result<Wallet> {
    PostAll(OpenAll(w, [Sender(r), Receiver(r)]), Legs(r), Ref.Remittance(id))
  }

  /** The legs are posted in order, leg `k` under identifier `first + k`. */
  function PostLegs(w: Wallet, sender: UserId, legs: seq<LegInput>, first: Id, at: Stamp): Result<Wallet> {
    if legs == [] then Ok(w) else
      var last := |legs| - 1;
      var w1 :- PostLegs(w, sender, legs[..last], first, at);
      PostLeg(w1, LegRow(sender, legs[last], at), first + last)
  }

  function LegRows(rows: map<Id, RemittanceRow>, sender: UserId, legs: seq<LegInput>, first: Id, at: Stamp): map<Id,
        RemittanceRow>
  {
    if legs == [] then rows else
      var last := |legs| - 1;
      LegRows(rows, sender, legs[..last], first, at)[first + last := LegRow(sender, legs[last], at)]
  }

  function TotalFor(legs: seq<LegInput>, instr: Instrument): int {
    if legs == [] then 0 else
      var last := |legs| - 1;
      TotalFor(legs[..last], instr) + if legs[last].instr == instr then legs[last].amount else 0
  }

  predicate Affordable(w: Wallet, sender: UserId, legs: seq<LegInput>) {
    forall leg <- legs :: UsableCapacity(Row(w, Acct(sender, leg.instr))) >= TotalFor(legs, leg.instr)
  }

  /** All accounts that the legs post on; they are opened before anything is posted. */
  function GroupAccounts(sender: UserId, legs: seq<LegInput>): seq<Acct> {
    if legs == [] then [] else
      var last := |legs| - 1;
      GroupAccounts(sender, legs[..last]) +
      [Acct(sender, legs[last].instr), Acct(legs[last].receiver, legs[last].instr)]
  }

  function LinksOf(id: Id, settlements: seq<SettlementInput>): (links: seq<Link>)
    ensures |links| == |settlements|
  {
    seq(|settlements|, k requires 0 <= k < |settlements| => Link(id, settlements[k].source, settlements[k].amount))
  }

  /** All settlement inputs of a group, in the order the loop takes them. */
  function Inputs(legs: seq<LegInput>, first: Id): seq<Link> {
    if legs == [] then [] else
      var last := |legs| - 1;
      Inputs(legs[..last], first) + LinksOf(first + last, legs[last].settlements)
  }

  /** One turn of the settlement loop, after the inputs `done`. */
  function SettleOne(rows: map<Id, RemittanceRow>, links: seq<Link>, done: seq<Link>,
                     input: Link): Result<map<Id, RemittanceRow>>
    requires input.leg in rows && input.source in rows
  {
    var source := rows[input.source];
    var settled := LinkedInto(links, input.source) + LinkedInto(done, input.source);
    if input.amount <= 0 then Err(BadRequest)
    else if source.instr != rows[input.leg].instr then Err(BadRequest)
    else if LinkedFrom(done, input.leg) + input.amount > rows[input.leg].amount then Err(BadRequest)
    else if source.amount - settled <= 0 then Err(BadRequest)
    else if source.amount - settled < input.amount then Err(BadRequest)
    else Ok(rows[input.source :=
                 source.(status := if settled + input.amount == source.amount then Completed else Partial)])
  }

  predicate Resolved(rows: map<Id, RemittanceRow>, inputs: seq<Link>) {
    forall l <- inputs :: l.leg in rows && l.source in rows
  }

  function SettleAll(rows: map<Id, RemittanceRow>, links: seq<Link>,
                     inputs: seq<Link>): (res: Result<map<Id, RemittanceRow>>)
    requires Resolved(rows, inputs)
    ensures res.Ok? ==> res.value.Keys == rows.Keys
  {
    if inputs == [] then Ok(rows) else
      var (front, input) := (inputs[..|inputs| - 1], inputs[|inputs| - 1]);
      assert input in inputs && forall l <- front :: l in inputs;
      var rows1 :- SettleAll(rows, links, front);
      SettleOne(rows1, links, front, input)
  }

  function CreateGroup(db: Db, sender: UserId, legs: seq<LegInput>, at: Stamp): (r: Result<Db>)
    ensures r.Ok? ==> Aside(db, r.value) && r.value.quota == db.quota && r.value.requests == db.requests
  {
    if legs == [] || (exists leg <- legs :: leg.amount <= 0) || (exists leg <- legs :: leg.receiver == sender) then
      Err(BadRequest)
    else if !Affordable(db.wallet, sender, legs) then
      Err(InsufficientCredit)
    else
      var wallet :- PostLegs(OpenAll(db.wallet, GroupAccounts(sender, legs)), sender, legs, db.nextId, at);
      var rows := LegRows(db.remittances, sender, legs, db.nextId, at);
      var inputs := Inputs(legs, db.nextId);
      if !Resolved(rows, inputs) then Err(NotFound) else
        var settled :- SettleAll(rows, db.links, inputs);
        Ok(db.(wallet := wallet, remittances := settled, links := db.links + inputs, nextId := db.nextId + |legs|))
  }

  // ---------------------------------------------------------------- lemmas: single remittances

  function Funds(r: RemittanceRow, fate: HoldStatus): map<Acct, Hold> {
    map[Sender(r) := Hold(r.amount, fate)]
  }

  function Volume(r: RemittanceRow, fate: HoldStatus): map<UsageKey, Hold> {
    Both(r.sender, RemittanceSend, NotionalIrr, OfInstrument(r.instr), r.created, Hold(r.amount, fate))
  }

  /** A pending remittance was made on its own, and holds its amount. */
  lemma PendingKnown(db: Db, id: Id)
    requires Inv(db) && id in db.remittances && db.remittances[id].status.Pending?
    ensures var (r, ref) := (db.remittances[id], Ref.Remittance(id));
            && r.amount > 0 && r.sender != r.receiver && !r.grouped && !r.posted && id < db.nextId
            && LinkedInto(db.links, id) == 0
            && HoldsOf(db.wallet.holds, ref) == Funds(r, Reserved)
            && LimitsOf(db.quota.limits, ref) == Volume(r, Reserved)
            && MovesOf(db.wallet.ledger, ref) == []
  {
    hide HoldsOf, LimitsOf, MovesOf, Both, Sound, QuotaSound, TotalsSound, RowsSound, LinkedInto, LinkedFrom;
    assert Explained(db, Ref.Remittance(id));
    assert RemittanceSound(id, db.remittances[id], db.links);
  }

  lemma Shown(db: Db, id: Id, fate: HoldStatus)
    requires id in db.remittances && RemittanceFate(db.remittances[id], fate)
    requires var (r, ref) := (db.remittances[id], Ref.Remittance(id));
             && HoldsOf(db.wallet.holds, ref) == (if r.grouped then map[] else Funds(r, fate))
             && LimitsOf(db.quota.limits, ref) == (if r.grouped then map[] else Volume(r, fate))
             && MovesOf(db.wallet.ledger, ref) == if r.posted then MovesFor(Legs(r)) else []
    ensures Explained(db, Ref.Remittance(id))
  {
    hide HoldsOf, LimitsOf, MovesOf, Both;
    var r := db.remittances[id];
    assert MovesFor(Legs(r)) == RemittanceMoves(r);
    assert ViewOf(db, Ref.Remittance(id)) == RemittanceView(r, fate);
  }

  lemma NetOfLegs(r: RemittanceRow)
    ensures forall i :: Net(MovesFor(Legs(r)), i) == 0
  {
    NetOfTransfer(Sender(r), Receiver(r), r.amount);
  }

  lemma {:induction false} NoLinks(rows: map<Id, RemittanceRow>, links: seq<Link>, id: Id)
    requires forall j | 0 <= j < |links| :: links[j].leg in rows && links[j].source in rows
    requires id !in rows
    ensures LinkedInto(links, id) == 0 == LinkedFrom(links, id)
  {
    if links != [] {
      NoLinks(rows, links[..|links| - 1], id);
    }
  }

  /** A new row has no links yet. */
  lemma LinksFresh(rows: map<Id, RemittanceRow>, links: seq<Link>, id: Id, r: RemittanceRow)
    requires LinksSound(rows, links) && id !in rows
    requires r.amount > 0 && r.sender != r.receiver && (r.grouped ==> r.posted)
    requires if r.posted then r.status.Completed? else r.status.Pending?
    ensures LinksSound(rows[id := r], links)
  {
    NoLinks(rows, links, id);
    hide LinkedInto, LinkedFrom;
    assert RemittanceSound(id, r, links);
    assert forall k <- rows :: RemittanceSound(k, rows[k], links);
  }

  /** Deciding a pending row leaves the links sound. */
  lemma LinksDecided(rows: map<Id, RemittanceRow>, links: seq<Link>, id: Id, r: RemittanceRow)
    requires LinksSound(rows, links) && id in rows && rows[id].status.Pending? && LinkedInto(links, id) == 0
    requires r == rows[id].(status := r.status, posted := r.posted)
    requires if r.posted then r.status.Completed? else r.status.Cancelled? && !rows[id].posted
    ensures LinksSound(rows[id := r], links)
  {
    hide LinkedInto, LinkedFrom;
    assert RemittanceSound(id, rows[id], links);
    assert RemittanceSound(id, r, links);
    assert forall k <- rows :: RemittanceSound(k, rows[k], links);
  }

  lemma MakeKeepsInv(db: Db, sender: UserId, receiver: UserId, instr: Instrument, amount: int, at: Stamp,
                     policies: Policies)
    requires Inv(db) && Make(db, sender, receiver, instr, amount, at, policies).Ok?
    ensures Inv(Make(db, sender, receiver, instr, amount, at, policies).value)
    ensures OnlyOn(db, Make(db, sender, receiver, instr, amount, at, policies).value, Ref.Remittance(db.nextId))
  {
    hide Inv, Sound, QuotaSound, IdsSound, RowsSound, TotalsSound, LinksSound, ReversalsSound, Agree, Explained,
         HoldsOf, LimitsOf, MovesOf, Both, Issued, Adjusted, ReserveBoth, ReserveFunds, Net;
    var (db', id) := (Make(db, sender, receiver, instr, amount, at, policies).value, db.nextId);
    var (ref, r) := (Ref.Remittance(id), db'.remittances[id]);
    Known(db, ref);
    FreshReference(db, ref);
    IdUnused(db);
    ReserveFresh(db.wallet, Sender(r), ref, amount);
    ReserveBothFresh(db.quota, sender, RemittanceSend, NotionalIrr, OfInstrument(instr), at, amount, ref, policies);
    NetNil();
    Shown(db', id, Reserved);
    RemittanceWritten(db, db', id, r);
    LinksFresh(db.remittances, db.links, id, r);
    IssuedUnmoved(db, db');
    ReversalsKept(db.wallet.ledger, db'.wallet.ledger, db.trades, db'.trades);
    OneRequest(db, db', ref, Funds(r, Reserved), Volume(r, Reserved), []);
  }

  /** What a new remittance takes, and that its amount is then held. */
  lemma MakeSucceedsIff(db: Db, sender: UserId, receiver: UserId, instr: Instrument, amount: int, at: Stamp,
                        policies: Policies)
    requires Inv(db)
    ensures var (a, r) := (Acct(sender, instr), Make(db, sender, receiver, instr, amount, at, policies));
            && (r.Ok? <==>
                  && amount > 0 && receiver != sender && UsableCapacity(Row(db.wallet, a)) >= amount
                  && BothAllow(db.quota, sender, RemittanceSend, NotionalIrr, OfInstrument(instr), at, amount,
                               policies))
            && (r.Ok? ==> HoldsOf(r.value.wallet.holds, Ref.Remittance(db.nextId)) == map[a := Hold(amount, Reserved)])
  {
    hide Inv, Sound, QuotaSound, IdsSound, RowsSound, TotalsSound, LinksSound, ReversalsSound, Explained, HoldsOf,
         LimitsOf, MovesOf, ReserveBoth, ReserveFunds, BothAllow, UsableCapacity, Row;
    var (ref, a) := (Ref.Remittance(db.nextId), Acct(sender, instr));
    Known(db, ref);
    FreshReference(db, ref);
    ReserveBothIff(db.quota, sender, RemittanceSend, NotionalIrr, OfInstrument(instr), at, amount, ref, policies);
    ReserveIff(db.wallet, a, ref, amount);
    if Make(db, sender, receiver, instr, amount, at, policies).Ok? {
      ReserveFresh(db.wallet, a, ref, amount);
      EffectSound(db.wallet, ReserveFunds(db.wallet, a, ref, amount).value, ref, map[a := Hold(amount, Reserved)], []);
    }
  }

  lemma CreateKeepsInv(db: Db, sender: UserId, receiver: UserId, instr: Instrument, amount: int, key: Option<nat>,
                       at: Stamp, policies: Policies)
    requires Inv(db) && Create(db, sender, receiver, instr, amount, key, at, policies).Ok?
    ensures Inv(Create(db, sender, receiver, instr, amount, key, at, policies).value.0)
    ensures OnlyOn(db, Create(db, sender, receiver, instr, amount, key, at, policies).value.0,
                   Ref.Remittance(db.nextId))
  {
    hide Inv, HoldsOf, LimitsOf, MovesOf, Make, OnlyOn, Stored;
    if Found(db, KeyOf(sender, key)) {
      OnlyFromSame(db, db, Ref.Remittance(db.nextId));
    } else {
      MakeKeepsInv(db, sender, receiver, instr, amount, at, policies);
      StoredKeepsInv(db, Make(db, sender, receiver, instr, amount, at, policies).value, Ref.Remittance(db.nextId),
                     KeyOf(sender, key), db.nextId);
    }
  }

  /** A remittance is accepted exactly when it goes to somebody else, its amount is positive, and it repeats an earlier
      one, or the limits allow it and the sender can spare it. The amount of a new one is then held; one that repeats an
      earlier one returns that one and changes nothing. */
  lemma CreateSucceedsIff(db: Db, sender: UserId, receiver: UserId, instr: Instrument, amount: int, key: Option<nat>,
                          at: Stamp, policies: Policies)
    requires Inv(db)
    ensures var (a, k, r) := (Acct(sender, instr), KeyOf(sender, key),
                              Create(db, sender, receiver, instr, amount, key, at, policies));
            && (r.Ok? <==>
                  && amount > 0 && receiver != sender
                  && (|| Found(db, k)
                      || (&& UsableCapacity(Row(db.wallet, a)) >= amount
                          && BothAllow(db.quota, sender, RemittanceSend, NotionalIrr, OfInstrument(instr), at, amount,
                                       policies))))
            && (r.Ok? && Found(db, k) ==> r.value == (db, db.requests[k.value]))
            && (r.Ok? && !Found(db, k) ==>
                  && r.value.1 == db.nextId && r.value.0.requests == Stored(db, k, db.nextId).requests
                  && HoldsOf(r.value.0.wallet.holds, Ref.Remittance(db.nextId)) == map[a := Hold(amount, Reserved)])
  {
    hide Inv, HoldsOf, Make, BothAllow, UsableCapacity, Row;
    MakeSucceedsIff(db, sender, receiver, instr, amount, at, policies);
  }

  /** A remittance that was posted, on its own or in a group, has moved its amount from sender to receiver. */
  lemma PostedNets(db: Db, id: Id)
    requires Inv(db) && id in db.remittances && db.remittances[id].posted
    ensures var (r, moves) := (db.remittances[id], MovesOf(db.wallet.ledger, Ref.Remittance(id)));
            NetOn(moves, Sender(r)) == -r.amount && NetOn(moves, Receiver(r)) == r.amount
  {
    hide Inv, Sound, QuotaSound, HoldsOf, LimitsOf, MovesOf, Both, TotalsSound, RowsSound, LinkedInto, LinkedFrom,
         NetOn;
    Known(db, Ref.Remittance(id));
    assert RemittanceSound(id, db.remittances[id], db.links);
    hide LinksSound;
    var r := db.remittances[id];
    assert MovesOf(db.wallet.ledger, Ref.Remittance(id)) == RemittanceMoves(r);
    NetOnTwo(RemittanceMoves(r)[0], RemittanceMoves(r)[1], Sender(r));
    NetOnTwo(RemittanceMoves(r)[0], RemittanceMoves(r)[1], Receiver(r));
  }

  /** What a sender who can pay and a receiver get posted. */
  lemma LegsPost(w: Wallet, w2: Wallet, r: RemittanceRow, ref: Ref, holds: map<Acct, Hold>)
    requires Effect(w, w2, ref, holds, []) && Sender(r) in w2.accounts && Receiver(r) in w2.accounts
    requires r.amount > 0 && r.sender != r.receiver && MovesOf(w2.ledger, ref) == []
    requires Sound(w2)
    ensures PostAll(w2, Legs(r), ref).Ok? <==> UsableCapacity(Row(w2, Sender(r))) >= r.amount
    ensures PostAll(w2, Legs(r), ref).Ok? ==> Effect(w, PostAll(w2, Legs(r), ref).value, ref, holds, MovesFor(Legs(r)))
    ensures PostAll(w2, Legs(r), ref).Ok? ==> Forward(w2.ledger, PostAll(w2, Legs(r), ref).value.ledger)
  {
    UsableAt(w2, Receiver(r));
    hide Effect, Sound, PostAll, MovesOf, Row, UsableCapacity, MovesFor;
    PostAllIff(w2, Legs(r), ref);
    OnTwo(Legs(r));
    if PostAll(w2, Legs(r), ref).Ok? {
      PostAllAfter(w, w2, Legs(r), ref, holds, []);
      assert [] + MovesFor(Legs(r)) == MovesFor(Legs(r));
    }
  }

  /** Approving a pending remittance never fails. */
  lemma ApproveBooks(w: Wallet, r: RemittanceRow, ref: Ref)
    requires Sound(w) && r.amount > 0 && r.sender != r.receiver
    requires HoldsOf(w.holds, ref) == Funds(r, Reserved) && MovesOf(w.ledger, ref) == []
    ensures ConsumeFunds(w, Sender(r), ref).Ok?
    ensures var w2 := OpenAll(ConsumeFunds(w, Sender(r), ref).value, [Sender(r), Receiver(r)]);
            && PostAll(w2, Legs(r), ref).Ok?
            && Effect(w, PostAll(w2, Legs(r), ref).value, ref, Funds(r, Consumed), MovesFor(Legs(r)))
            && Forward(w.ledger, PostAll(w2, Legs(r), ref).value.ledger)
  {
    TransferPays(w, Sender(r), Receiver(r), r.amount, ref);
  }

  lemma ApproveKeepsInv(db: Db, id: Id)
    requires Inv(db) && id in db.remittances &&
             (db.remittances[id].status.Pending? || db.remittances[id].status.Completed?)
    ensures Approve(db, id).Ok? && Inv(Approve(db, id).value)
    ensures OnlyOn(db, Approve(db, id).value, Ref.Remittance(id))
    ensures SameHeld(db, Approve(db, id).value)
  {
    hide Inv, Sound, QuotaSound, IdsSound, RowsSound, TotalsSound, LinksSound, ReversalsSound, Agree, Explained,
         ConsumeFunds, HoldsOf, LimitsOf, MovesOf, Both, Issued, Adjusted, Net, Consume, Release, OpenAll, PostAll,
         MovesFor, Legs;
    if db.remittances[id].status.Pending? {
      var (ref, r) := (Ref.Remittance(id), db.remittances[id]);
      Known(db, ref);
      PendingKnown(db, id);
      ApproveBooks(db.wallet, r, ref);
      var db' := Approve(db, id).value;
      hide Approve;
      SettleBoth(db.quota, ref, r.sender, RemittanceSend, NotionalIrr, OfInstrument(r.instr), r.created, r.amount);
      NetOfLegs(r);
      SameLegs(r, db'.remittances[id]);
      Shown(db', id, Consumed);
      RemittanceWritten(db, db', id, db'.remittances[id]);
      LinksDecided(db.remittances, db.links, id, db'.remittances[id]);
      IssuedUnmoved(db, db');
      ReversalsKept(db.wallet.ledger, db'.wallet.ledger, db.trades, db'.trades);
      OneRequest(db, db', ref, Funds(r, Consumed), Volume(r, Consumed), MovesFor(Legs(r)));
    }
  }

  lemma SameLegs(r: RemittanceRow, r': RemittanceRow)
    requires r' == r.(status := r'.status, posted := r'.posted)
    ensures Legs(r') == Legs(r)
  {
  }

  lemma RejectKeepsInv(db: Db, id: Id)
    requires Inv(db) && id in db.remittances &&
             (db.remittances[id].status.Pending? || db.remittances[id].status.Cancelled?)
    ensures Reject(db, id).Ok? && Inv(Reject(db, id).value)
    ensures OnlyOn(db, Reject(db, id).value, Ref.Remittance(id))
  {
    hide Inv, Sound, QuotaSound, IdsSound, RowsSound, TotalsSound, LinksSound, ReversalsSound, Agree, Explained,
         HoldsOf, LimitsOf, MovesOf, Both, Issued, Adjusted, Net, Consume, Release, ReleaseFunds, Legs;
    if db.remittances[id].status.Pending? {
      var (ref, r) := (Ref.Remittance(id), db.remittances[id]);
      Known(db, ref);
      PendingKnown(db, id);
      ReleaseHeld(db.wallet, Sender(r), ref, r.amount);
      var db' := Reject(db, id).value;
      hide Reject;
      SettleBoth(db.quota, ref, r.sender, RemittanceSend, NotionalIrr, OfInstrument(r.instr), r.created, r.amount);
      NetNil();
      Shown(db', id, Released);
      RemittanceWritten(db, db', id, db'.remittances[id]);
      LinksDecided(db.remittances, db.links, id, db'.remittances[id]);
      IssuedUnmoved(db, db');
      ReversalsKept(db.wallet.ledger, db'.wallet.ledger, db.trades, db'.trades);
      OneRequest(db, db', ref, Funds(r, Released), Volume(r, Released), []);
    }
  }

  /** What the decisions that succeed were taken on. */
  lemma Decidable(db: Db, id: Id, user: UserId)
    ensures Approve(db, id).Ok? ==>
            id in db.remittances && (db.remittances[id].status.Pending? || db.remittances[id].status.Completed?)
    ensures Reject(db, id).Ok? ==>
            id in db.remittances && (db.remittances[id].status.Pending? || db.remittances[id].status.Cancelled?)
    ensures CancelByUser(db, id, user).Ok? ==> CancelByUser(db, id, user) == Reject(db, id)
  {
    hide ConsumeFunds, ReleaseFunds, OpenAll, PostAll, Consume, Release, Legs;
  }

  // ---------------------------------------------------------------- lemmas: the settlement loop

  /** The same decision at once: amounts are positive, instruments match, what each leg settles fits the leg,
      and what is settled of each source, now and before, fits the source. */
  predicate Acceptable(rows: map<Id, RemittanceRow>, links: seq<Link>, inputs: seq<Link>)
    requires Resolved(rows, inputs)
  {
    forall l <- inputs ::
      && l.amount > 0
      && rows[l.source].instr == rows[l.leg].instr
      && LinkedFrom(inputs, l.leg) <= rows[l.leg].amount
      && LinkedInto(links, l.source) + LinkedInto(inputs, l.source) <= rows[l.source].amount
  }

  function SettledStatus(r: RemittanceRow, settled: int): RemittanceStatus {
    if settled == r.amount then Completed else Partial
  }

  /** And its result at once: the status of a source only depends on the sum of the links into it. */
  function SettledRows(rows: map<Id, RemittanceRow>, links: seq<Link>, inputs: seq<Link>): map<Id, RemittanceRow> {
    map id | id in rows :: SettledRow(rows[id], links, inputs, id)
  }

  function SettledRow(r: RemittanceRow, links: seq<Link>, inputs: seq<Link>, id: Id): RemittanceRow {
    if LinkedInto(inputs, id) == 0 then r
    else r.(status := SettledStatus(r, LinkedInto(links, id) + LinkedInto(inputs, id)))
  }

  lemma {:induction false} LinkedPositive(inputs: seq<Link>, id: Id)
    requires forall l <- inputs :: l.amount > 0
    ensures LinkedInto(inputs, id) >= 0 && LinkedFrom(inputs, id) >= 0
    ensures (exists l <- inputs :: l.source == id) <==> LinkedInto(inputs, id) > 0
    ensures (exists l <- inputs :: l.leg == id) <==> LinkedFrom(inputs, id) > 0
  {
    if inputs != [] {
      var (front, last) := (inputs[..|inputs| - 1], inputs[|inputs| - 1]);
      assert inputs == front + [last];
      LinkedPositive(front, id);
    }
  }

  /** The conditions on all inputs are those on all but the last, and those on the last. */
  lemma AcceptableLast(rows: map<Id, RemittanceRow>, links: seq<Link>, inputs: seq<Link>)
    requires inputs != [] && Resolved(rows, inputs)
    ensures var (front, l) := (inputs[..|inputs| - 1], inputs[|inputs| - 1]);
            && l.leg in rows && l.source in rows && Resolved(rows, front)
            && (Acceptable(rows, links, inputs)
                <==> && Acceptable(rows, links, front) && l.amount > 0 && rows[l.source].instr == rows[l.leg].instr
                     && LinkedFrom(front, l.leg) + l.amount <= rows[l.leg].amount
                     && LinkedInto(links, l.source) + LinkedInto(front, l.source) + l.amount <= rows[l.source].amount)
  {
    var (front, l) := (inputs[..|inputs| - 1], inputs[|inputs| - 1]);
    assert inputs == front + [l] && l in inputs && forall k <- front :: k in inputs;
  }

  /** What a settlement turn finds does not depend on the statuses set so far. */
  lemma SettleOneRows(rows: map<Id, RemittanceRow>, links: seq<Link>, front: seq<Link>, l: Link)
    requires l.leg in rows && l.source in rows
    requires forall k <- front :: k.amount > 0
    ensures SettledRows(rows, links, front).Keys == rows.Keys
    ensures var one := SettleOne(SettledRows(rows, links, front), links, front, l);
            && (one.Ok? <==> && l.amount > 0 && rows[l.source].instr == rows[l.leg].instr
                             && LinkedFrom(front, l.leg) + l.amount <= rows[l.leg].amount
                             && LinkedInto(links, l.source) + LinkedInto(front, l.source) + l.amount <=
                                rows[l.source].amount)
            && (one.Ok? ==> one.value == SettledRows(rows, links, front + [l]))
  {
    SettledRead(rows, links, front);
    hide LinkedFrom, LinkedInto, SettledRows;
    var one := SettleOne(SettledRows(rows, links, front), links, front, l);
    if one.Ok? {
      NextRow(rows, links, front, l);
      hide SettleOne;
      assert one.value == SettledRows(rows, links,
                                      front)[l.source := SettledRow(rows[l.source], links, front + [l], l.source)] by {
        LinkedPositive(front, l.source);
        SettleOneSource(SettledRows(rows, links, front), links, front, l);
        LinkedNext(front, l, l.source);
      }
    }
  }

  lemma SettleOneSource(rows: map<Id, RemittanceRow>, links: seq<Link>, done: seq<Link>, l: Link)
    requires l.leg in rows && l.source in rows && SettleOne(rows, links, done, l).Ok?
    ensures var (r, settled) := (rows[l.source], LinkedInto(links, l.source) + LinkedInto(done, l.source) + l.amount);
            l.amount > 0 && SettleOne(rows, links, done, l).value ==
            rows[l.source := r.(status := SettledStatus(r, settled))]
  {
    hide LinkedFrom, LinkedInto;
  }

  /** One more input changes the row of its source only. */
  lemma NextRow(rows: map<Id, RemittanceRow>, links: seq<Link>, front: seq<Link>, l: Link)
    requires l.source in rows
    ensures SettledRows(rows, links, front + [l])
         == SettledRows(rows, links, front)[l.source := SettledRow(rows[l.source], links, front + [l], l.source)]
  {
    hide LinkedFrom, LinkedInto;
    var (now, next) := (SettledRows(rows, links, front), SettledRows(rows, links, front + [l]));
    forall id <- rows | id != l.source ensures next[id] == now[id] {
      LinkedNext(front, l, id);
    }
  }

  lemma SettledRead(rows: map<Id, RemittanceRow>, links: seq<Link>, inputs: seq<Link>)
    ensures SettledRows(rows, links, inputs).Keys == rows.Keys
    ensures forall id <- rows :: SettledRows(rows, links, inputs)[id] == SettledRow(rows[id], links, inputs, id)
  {
  }

  lemma LinkedNext(front: seq<Link>, l: Link, id: Id)
    ensures LinkedInto(front + [l], id) == LinkedInto(front, id) + if l.source == id then l.amount else 0
  {
    assert (front + [l])[..|front|] == front;
  }

  /** The loop of running checks accepts exactly what the batch conditions accept, with the batch result. */
  lemma {:induction false} SettleAllIff(rows: map<Id, RemittanceRow>, links: seq<Link>, inputs: seq<Link>)
    requires Resolved(rows, inputs)
    ensures SettleAll(rows, links, inputs).Ok? <==> Acceptable(rows, links, inputs)
    ensures SettleAll(rows, links, inputs).Ok? ==>
            SettleAll(rows, links, inputs).value == SettledRows(rows, links, inputs)
  {
    hide SettleOne;
    if inputs == [] {
      assert SettledRows(rows, links, inputs) == rows;
    } else {
      var (front, l) := (inputs[..|inputs| - 1], inputs[|inputs| - 1]);
      AcceptableLast(rows, links, inputs);
      SettleAllIff(rows, links, front);
      hide SettledRows, LinkedInto, LinkedFrom;
      if SettleAll(rows, links, front).Ok? {
        SettleOneRows(rows, links, front, l);
        assert front + [l] == inputs;
      }
    }
  }

  lemma {:induction false} LinkedAppend(xs: seq<Link>, ys: seq<Link>, id: Id)
    ensures LinkedInto(xs + ys, id) == LinkedInto(xs, id) + LinkedInto(ys, id)
    ensures LinkedFrom(xs + ys, id) == LinkedFrom(xs, id) + LinkedFrom(ys, id)
  {
    if ys == [] {
      assert xs + ys == xs;
    } else {
      assert (xs + ys)[..|xs + ys| - 1] == xs + ys[..|ys| - 1];
      LinkedAppend(xs, ys[..|ys| - 1], id);
    }
  }

  lemma {:induction false} LinkedPermuted(xs: seq<Link>, ys: seq<Link>, id: Id)
    requires multiset(xs) == multiset(ys)
    ensures LinkedInto(xs, id) == LinkedInto(ys, id) && LinkedFrom(xs, id) == LinkedFrom(ys, id)
  {
    if xs == [] {
      assert |multiset(ys)| == 0;
    } else {
      var (front, x) := (xs[..|xs| - 1], xs[|xs| - 1]);
      assert xs == front + [x];
      assert x in multiset(ys);
      var k :| 0 <= k < |ys| && ys[k] == x;
      var (before, after) := (ys[..k], ys[k + 1..]);
      assert ys == before + [x] + after;
      TakenOut(xs, |xs| - 1);
      TakenOut(ys, k);
      assert xs[..|xs| - 1] + xs[|xs|..] == front;
      LinkedPermuted(front, before + after, id);
      hide LinkedInto, LinkedFrom;
      LinkedAppend(before + [x], after, id);
      LinkedAppend(before, [x], id);
      LinkedAppend(before, after, id);
      LinkedAppend(front, [x], id);
    }
  }

  /** Neither acceptance nor the outcome depends on the order of the inputs. */
  lemma SettleOrder(rows: map<Id, RemittanceRow>, links: seq<Link>, inputs: seq<Link>, inputs': seq<Link>)
    requires Resolved(rows, inputs) && multiset(inputs) == multiset(inputs')
    ensures Resolved(rows, inputs')
    ensures SettleAll(rows, links, inputs).Ok? <==> SettleAll(rows, links, inputs').Ok?
    ensures SettleAll(rows, links, inputs).Ok? ==>
            SettleAll(rows, links, inputs').value == SettleAll(rows, links, inputs).value
  {
    hide SettleAll, LinkedInto, LinkedFrom;
    forall l ensures l in inputs <==> l in inputs' {
      assert l in inputs <==> l in multiset(inputs);
      assert l in inputs' <==> l in multiset(inputs');
    }
    forall id ensures LinkedInto(inputs, id) == LinkedInto(inputs', id) &&
           LinkedFrom(inputs, id) == LinkedFrom(inputs', id) {
      LinkedPermuted(inputs, inputs', id);
    }
    SettleAllIff(rows, links, inputs);
    SettleAllIff(rows, links, inputs');
  }

  /** Links settled by legs that had settled nothing before keep every bound. */
  lemma SettledSound(rows: map<Id, RemittanceRow>, links: seq<Link>, inputs: seq<Link>)
    requires LinksSound(rows, links) && Resolved(rows, inputs) && Acceptable(rows, links, inputs)
    requires forall l <- inputs :: LinkedFrom(links, l.leg) == 0
    ensures LinksSound(SettledRows(rows, links, inputs), links + inputs)
  {
    var (rows', links') := (SettledRows(rows, links, inputs), links + inputs);
    hide LinkedInto, LinkedFrom;
    forall id <- rows' ensures RemittanceSound(id, rows'[id], links') {
      assert RemittanceSound(id, rows[id], links);
      LinkedAppend(links, inputs, id);
      LinkedPositive(inputs, id);
    }
    forall j | 0 <= j < |links'| ensures links'[j].amount > 0 && links'[j].leg in rows' && links'[j].source in rows' {
      if j >= |links| {
        assert links'[j] in inputs;
      }
    }
  }

  lemma RemittanceRefit(db: Db, db': Db, id: Id)
    requires Explained(db, Ref.Remittance(id)) && ViewOf(db', Ref.Remittance(id)) == ViewOf(db, Ref.Remittance(id))
    requires id in db.remittances <==> id in db'.remittances
    requires id in db.remittances ==> var (r, r') := (db.remittances[id], db'.remittances[id]);
             r' == r.(status := r'.status) && (r' == r || r'.status.Partial? || r'.status.Completed?)
    ensures Explained(db', Ref.Remittance(id))
  {
    hide HoldsOf, LimitsOf, MovesOf, Both;
    if id in db.remittances {
      var fate :| RemittanceFate(db.remittances[id], fate) &&
          ViewOf(db, Ref.Remittance(id)) == RemittanceView(db.remittances[id], fate);
      assert RemittanceFate(db'.remittances[id], fate) &&
             RemittanceView(db'.remittances[id], fate) == RemittanceView(db.remittances[id], fate);
    }
  }

  lemma SettledOnly(db: Db, db': Db, ref: Ref)
    requires Explained(db, ref) && !ref.Remittance?
    requires db' == db.(remittances := db'.remittances, links := db'.links)
    ensures Explained(db', ref)
  {
    hide HoldsOf, LimitsOf, MovesOf, WithdrawalView, AllocationView, DepositView, TradeView, MovementView;
  }

  lemma SettleKeepsInv(db: Db, inputs: seq<Link>)
    requires Inv(db) && Resolved(db.remittances, inputs) && Acceptable(db.remittances, db.links, inputs)
    requires forall l <- inputs :: LinkedFrom(db.links, l.leg) == 0
    ensures Inv(db.(remittances := SettledRows(db.remittances, db.links, inputs), links := db.links + inputs))
  {
    var db' := db.(remittances := SettledRows(db.remittances, db.links, inputs), links := db.links + inputs);
    hide Sound, QuotaSound, Explained, TotalsSound, LinksSound, ReversalsSound, RowsSound, Held, Adjusted, Acceptable,
         LinkedInto, LinkedFrom;
    SettledSound(db.remittances, db.links, inputs);
    RowsKept(db, db');
    forall ref ensures Explained(db', ref) {
      if ref.Remittance? {
        RemittanceRefit(db, db', ref.id);
      } else {
        SettledOnly(db, db', ref);
      }
    }
    IssuedUnmoved(db, db');
  }

  lemma RowsKept(db: Db, db': Db)
    requires RowsSound(db) && TotalsSound(db)
    requires db' == db.(remittances := db'.remittances, links := db'.links)
    ensures RowsSound(db') && TotalsSound(db')
  {
    hide WithdrawalsTotal, DepositsTotal, WithdrawalsSound, DepositsSound, AllocationsSound, TradesSound,
         MovementsSound;
  }

  // ---------------------------------------------------------------- lemmas: groups

  lemma PostTwoRows(w: Wallet, legs: seq<(Acct, Signed)>, ref: Ref, b: Acct)
    requires |legs| == 2 && PostAll(w, legs, ref).Ok?
    ensures UsableCapacity(Row(PostAll(w, legs, ref).value, b))
         == UsableCapacity(Row(w, b)) + (if legs[0].0 == b then legs[0].1.value else 0) +
         (if legs[1].0 == b then legs[1].1.value else 0)
  {
    hide ApplyTransaction, UsableCapacity, Row;
    var w1 := ApplyTransaction(w, legs[0].0, legs[0].1, ref, None).value;
    assert legs[1..] == [legs[1]] && legs[1..][1..] == [];
    var w2 := ApplyTransaction(w1, legs[1].0, legs[1].1, ref, None).value;
    assert PostAll(w1, legs[1..], ref) == PostAll(w2, [], ref);
    ApplyRow(w, legs[0].0, legs[0].1, ref, b);
    ApplyRow(w1, legs[1].0, legs[1].1, ref, b);
  }

  lemma ApplyRow(w: Wallet, a: Acct, d: Signed, ref: Ref, b: Acct)
    requires ApplyTransaction(w, a, d, ref, None).Ok?
    ensures UsableCapacity(Row(ApplyTransaction(w, a, d, ref, None).value, b))
         == UsableCapacity(Row(w, b)) + if a == b then d.value else 0
  {
    ApplyWrites(w, a, d, ref, None);
    var w' := ApplyTransaction(w, a, d, ref, None).value;
    hide ApplyTransaction;
    RowsAfter(w, w', a, w'.accounts[a]);
  }

  function AfterLeg(db: Db, w: Wallet, r: RemittanceRow): Db {
    db.(wallet := w, remittances := db.remittances[db.nextId := r], nextId := db.nextId + 1)
  }

  lemma PostLegBooks(w: Wallet, r: RemittanceRow, id: Id)
    requires Sound(w) && r.amount > 0 && r.sender != r.receiver && MovesOf(w.ledger, Ref.Remittance(id)) == []
    requires UsableCapacity(Row(w, Sender(r))) >= r.amount
    ensures PostLeg(w, r, id).Ok?
    ensures Effect(w, PostLeg(w, r, id).value, Ref.Remittance(id), HoldsOf(w.holds, Ref.Remittance(id)),
                   MovesFor(Legs(r)))
    ensures Forward(w.ledger, PostLeg(w, r, id).value.ledger)
    ensures forall b: Acct | b.user == r.sender :: UsableCapacity(Row(PostLeg(w, r, id).value, b))
              == UsableCapacity(Row(w, b)) - if b.instr == r.instr then r.amount else 0
  {
    hide Sound, HoldsOf, MovesOf, Effect, Row, UsableCapacity, OpenAll, PostAll, MovesFor;
    var ref := Ref.Remittance(id);
    NothingPosted(w, ref);
    OpenAllAfter(w, w, [Sender(r), Receiver(r)], ref, HoldsOf(w.holds, ref), []);
    var w2 := OpenAll(w, [Sender(r), Receiver(r)]);
    EffectSound(w, w2, ref, HoldsOf(w.holds, ref), []);
    assert Sender(r) in [Sender(r), Receiver(r)] && Receiver(r) in [Sender(r), Receiver(r)];
    LegsPost(w, w2, r, ref, HoldsOf(w.holds, ref));
    forall b: Acct | b.user == r.sender {
      PostTwoRows(w2, Legs(r), ref, b);
    }
  }

  /** One leg of a group, posted under a new identifier. */
  lemma LegKeepsInv(db: Db, r: RemittanceRow)
    requires Inv(db) && r.amount > 0 && r.sender != r.receiver && r.grouped && r.posted && r.status.Completed?
    requires UsableCapacity(Row(db.wallet, Sender(r))) >= r.amount
    ensures PostLeg(db.wallet, r, db.nextId).Ok?
    ensures Inv(AfterLeg(db, PostLeg(db.wallet, r, db.nextId).value, r))
    ensures OnlyOn(db, AfterLeg(db, PostLeg(db.wallet, r, db.nextId).value, r), Ref.Remittance(db.nextId))
    ensures SameHeld(db, AfterLeg(db, PostLeg(db.wallet, r, db.nextId).value, r))
    ensures forall b: Acct | b.user == r.sender :: UsableCapacity(Row(PostLeg(db.wallet, r, db.nextId).value, b))
              == UsableCapacity(Row(db.wallet, b)) - if b.instr == r.instr then r.amount else 0
    ensures db.nextId !in db.remittances && LinkedFrom(db.links, db.nextId) == 0
  {
    hide Inv, Sound, QuotaSound, IdsSound, RowsSound, TotalsSound, LinksSound, ReversalsSound, Agree, Explained,
         LinkedFrom, LinkedInto, HoldsOf, LimitsOf, MovesOf, Both, Issued, Adjusted, Net, MovesFor, Legs, PostLeg, Row,
         UsableCapacity;
    var (ref, id) := (Ref.Remittance(db.nextId), db.nextId);
    Known(db, ref);
    FreshReference(db, ref);
    IdUnused(db);
    PostLegBooks(db.wallet, r, id);
    var db' := AfterLeg(db, PostLeg(db.wallet, r, id).value, r);
    NetOfLegs(r);
    SameQuota(db.quota, ref);
    Shown(db', id, Consumed);
    RemittanceWritten(db, db', id, r);
    LinksFresh(db.remittances, db.links, id, r);
    NoLinksKnown(db, id);
    IssuedUnmoved(db, db');
    ReversalsKept(db.wallet.ledger, db'.wallet.ledger, db.trades, db'.trades);
    OneRequest(db, db', ref, map[], map[], MovesFor(Legs(r)));
  }

  lemma NoLinksKnown(db: Db, id: Id)
    requires LinksSound(db.remittances, db.links) && id !in db.remittances
    ensures LinkedFrom(db.links, id) == 0
  {
    NoLinks(db.remittances, db.links, id);
  }

  /** Only remittances made in between carry anything new in the books. */
  ghost predicate NewOnly(db: Db, db': Db) {
    forall r: Ref | !r.Remittance? || r.id < db.nextId :: SameView(db, db', r)
  }

  lemma NewOnlyNext(db: Db, db1: Db, db2: Db)
    requires NewOnly(db, db1) && db.nextId <= db1.nextId && OnlyOn(db1, db2, Ref.Remittance(db1.nextId))
    ensures NewOnly(db, db2)
  {
    hide HoldsOf, LimitsOf, MovesOf;
    forall r: Ref | !r.Remittance? || r.id < db.nextId ensures SameView(db, db2, r) {
      assert SameView(db, db1, r) && SameView(db1, db2, r);
    }
  }

  lemma SameBooks(db: Db, db': Db)
    requires db'.wallet == db.wallet && db'.quota == db.quota
    ensures forall r :: SameView(db, db', r)
    ensures NewOnly(db, db')
  {
  }

  predicate GoodLegs(sender: UserId, legs: seq<LegInput>) {
    forall leg <- legs :: leg.amount > 0 && leg.receiver != sender
  }

  /** The database after the postings of `legs`, before anything is settled. */
  function AfterLegs(db: Db, w: Wallet, sender: UserId, legs: seq<LegInput>, at: Stamp): Db {
    db.(wallet := w, remittances := LegRows(db.remittances, sender, legs, db.nextId, at), nextId := db.nextId + |legs|)
  }

  predicate Fits(w: Wallet, sender: UserId, legs: seq<LegInput>, i: Instrument) {
    UsableCapacity(Row(w, Acct(sender, i))) >= TotalFor(legs, i)
  }

  /** What fits altogether fits leg by leg. */
  lemma FitsFront(w: Wallet, sender: UserId, legs: seq<LegInput>)
    requires legs != [] && GoodLegs(sender, legs) && forall i :: Fits(w, sender, legs, i)
    ensures var front := legs[..|legs| - 1]; GoodLegs(sender, front) && forall i :: Fits(w, sender, front, i)
    ensures legs[|legs| - 1].amount > 0 && legs[|legs| - 1].receiver != sender
  {
    var last := |legs| - 1;
    assert forall leg <- legs[..last] :: leg in legs;
    assert legs[last] in legs;
    forall i ensures Fits(w, sender, legs[..last], i) {
      assert Fits(w, sender, legs, i);
    }
  }

  /** After the check of the totals, posting the legs never fails, and every posted prefix keeps the invariant. */
  lemma {:induction false} LegsKeepInv(db: Db, sender: UserId, legs: seq<LegInput>, at: Stamp)
    requires Inv(db) && GoodLegs(sender, legs) && forall i :: Fits(db.wallet, sender, legs, i)
    ensures PostLegs(db.wallet, sender, legs, db.nextId, at).Ok?
    ensures var w := PostLegs(db.wallet, sender, legs, db.nextId, at).value;
            && Inv(AfterLegs(db, w, sender, legs, at)) && NewOnly(db, AfterLegs(db, w, sender, legs, at))
            && SameHeld(db, AfterLegs(db, w, sender, legs, at))
            && forall i ::
               UsableCapacity(Row(w, Acct(sender, i))) ==
               UsableCapacity(Row(db.wallet, Acct(sender, i))) - TotalFor(legs, i)
  {
    hide Inv, PostLeg, Row, UsableCapacity, GoodLegs, HoldsOf, LimitsOf, MovesOf, OnlyOn, NewOnly;
    if legs == [] {
      assert AfterLegs(db, db.wallet, sender, legs, at) == db;
      SameBooks(db, db);
    } else {
      var last := |legs| - 1;
      FitsFront(db.wallet, sender, legs);
      LegsKeepInv(db, sender, legs[..last], at);
      var w1 := PostLegs(db.wallet, sender, legs[..last], db.nextId, at).value;
      var (db1, r) := (AfterLegs(db, w1, sender, legs[..last], at), LegRow(sender, legs[last], at));
      assert Fits(db.wallet, sender, legs, r.instr);
      LegKeepsInv(db1, r);
      var w := PostLegs(db.wallet, sender, legs, db.nextId, at).value;
      assert AfterLeg(db1, w, r) == AfterLegs(db, w, sender, legs, at);
      NewOnlyNext(db, db1, AfterLeg(db1, w, r));
    }
  }

  /** Totals only have to be checked for the instruments that occur. */
  lemma AffordableFits(w: Wallet, sender: UserId, legs: seq<LegInput>)
    requires Sound(w)
    ensures Affordable(w, sender, legs) <==> forall i :: Fits(w, sender, legs, i)
  {
    hide Sound, Row, UsableCapacity;
    if Affordable(w, sender, legs) {
      forall i ensures Fits(w, sender, legs, i) {
        if !exists leg <- legs :: leg.instr == i {
          NoTotal(legs, i);
          UsableAt(w, Acct(sender, i));
        }
      }
    }
    if forall i :: Fits(w, sender, legs, i) {
      forall leg <- legs ensures UsableCapacity(Row(w, Acct(sender, leg.instr))) >= TotalFor(legs, leg.instr) {
        assert Fits(w, sender, legs, leg.instr);
      }
    }
  }

  lemma {:induction false} NoTotal(legs: seq<LegInput>, i: Instrument)
    requires forall leg <- legs :: leg.instr != i
    ensures TotalFor(legs, i) == 0
  {
    if legs != [] {
      NoTotal(legs[..|legs| - 1], i);
    }
  }

  /** All settlement inputs are of the legs of the group, whose identifiers are new. */
  lemma {:induction false} InputLegs(legs: seq<LegInput>, first: Id)
    ensures forall l <- Inputs(legs, first) :: first <= l.leg < first + |legs|
  {
    if legs != [] {
      InputLegs(legs[..|legs| - 1], first);
    }
  }

  lemma {:induction false} LegsInRows(rows: map<Id, RemittanceRow>, sender: UserId, legs: seq<LegInput>, first: Id,
                                      at: Stamp)
    ensures forall id :: id in LegRows(rows, sender, legs, first, at) <==> id in rows || first <= id < first + |legs|
    ensures forall k | 0 <= k < |legs| ::
            LegRows(rows, sender, legs, first, at)[first + k] == LegRow(sender, legs[k], at)
    ensures forall id <- rows | !(first <= id < first + |legs|) ::
            LegRows(rows, sender, legs, first, at)[id] == rows[id]
  {
    if legs != [] {
      LegsInRows(rows, sender, legs[..|legs| - 1], first, at);
    }
  }

  lemma FreshLegs(db: Db, inputs: seq<Link>)
    requires LinksSound(db.remittances, db.links) && IdsSound(db)
    requires forall l <- inputs :: l.leg >= db.nextId
    ensures forall l <- inputs :: LinkedFrom(db.links, l.leg) == 0
  {
    hide LinksSound;
    forall l <- inputs ensures LinkedFrom(db.links, l.leg) == 0 {
      assert l.leg !in db.remittances;
      NoLinksKnown(db, l.leg);
    }
  }

  /** What the caller of a group must see to. */
  predicate GroupOk(db: Db, sender: UserId, legs: seq<LegInput>, at: Stamp) {
    var (rows, inputs) := (LegRows(db.remittances, sender, legs, db.nextId, at), Inputs(legs, db.nextId));
    && legs != [] && GoodLegs(sender, legs)
    && Affordable(db.wallet, sender, legs)
    && Resolved(rows, inputs) && Acceptable(rows, db.links, inputs)
  }

  /** A group is created exactly when its legs are good, fit the sender's accounts together, and settle
      no more than they may; then the invariant is kept. */
  lemma CreateGroupSucceedsIff(db: Db, sender: UserId, legs: seq<LegInput>, at: Stamp)
    requires Inv(db)
    ensures CreateGroup(db, sender, legs, at).Ok? <==> GroupOk(db, sender, legs, at)
    ensures CreateGroup(db, sender, legs, at).Ok? ==>
              && Inv(CreateGroup(db, sender, legs, at).value) && NewOnly(db, CreateGroup(db, sender, legs, at).value)
              && SameHeld(db, CreateGroup(db, sender, legs, at).value)
  {
    hide Inv, Sound, QuotaSound, IdsSound, RowsSound, TotalsSound, LinksSound, ReversalsSound, PostLegs, Explained,
         Acceptable, SettleAll, LegRows, Inputs, Affordable, Fits, LinkedFrom, SettledRows, Resolved, HoldsOf, LimitsOf,
         MovesOf, OpenAll, GroupAccounts, NewOnly, Held, Row;
    Known(db, Ref.Remittance(0));
    if legs != [] && GoodLegs(sender, legs) && Affordable(db.wallet, sender, legs) {
      AffordableFits(db.wallet, sender, legs);
      var db0 := db.(wallet := OpenAll(db.wallet, GroupAccounts(sender, legs)));
      OpenAllKeepsInv(db, GroupAccounts(sender, legs));
      FitsKept(db.wallet, db0.wallet, sender, legs);
      LegsKeepInv(db0, sender, legs, at);
      hide GoodLegs;
      var db1 := AfterLegs(db0, PostLegs(db0.wallet, sender, legs, db.nextId, at).value, sender, legs, at);
      var inputs := Inputs(legs, db.nextId);
      InputLegs(legs, db.nextId);
      FreshLegs(db, inputs);
      if Resolved(db1.remittances, inputs) {
        SettleAllIff(db1.remittances, db.links, inputs);
        if Acceptable(db1.remittances, db1.links, inputs) {
          SettleKeepsInv(db1, inputs);
          SameBooks(db1, CreateGroup(db, sender, legs, at).value);
          assert CreateGroup(db, sender, legs, at).value
              == db1.(remittances := SettledRows(db1.remittances, db1.links, inputs), links := db1.links + inputs);
          NewOnlyLast(db, db0, db1, CreateGroup(db, sender, legs, at).value);
        }
      }
    }
  }

  lemma NewOnlyLast(db: Db, db0: Db, db1: Db, db2: Db)
    requires (forall r :: SameView(db, db0, r)) && db0.nextId == db.nextId && NewOnly(db0, db1) &&
             (forall r :: SameView(db1, db2, r))
    ensures NewOnly(db, db2)
  {
    hide HoldsOf, LimitsOf, MovesOf;
    forall r: Ref | !r.Remittance? || r.id < db.nextId ensures SameView(db, db2, r) {
      assert SameView(db, db0, r) && SameView(db0, db1, r) && SameView(db1, db2, r);
    }
  }

  lemma FitsKept(w: Wallet, w': Wallet, sender: UserId, legs: seq<LegInput>)
    requires (forall i :: Fits(w, sender, legs, i)) && forall a :: Row(w', a) == Row(w, a)
    ensures forall i :: Fits(w', sender, legs, i)
  {
    hide Row, UsableCapacity;
    forall i ensures Fits(w', sender, legs, i) {
      assert Fits(w, sender, legs, i);
    }
  }

  /** Links into a source come to at most its amount, links from a leg to at most the leg's; a source with a link into
      it is completed exactly when the links cover its amount, and partial otherwise. */
  lemma LinksBounded(db: Db, id: Id)
    requires Inv(db) && id in db.remittances
    ensures var r := db.remittances[id];
            && 0 <= LinkedInto(db.links, id) <= r.amount && 0 <= LinkedFrom(db.links, id) <= r.amount
            && ((exists l <- db.links :: l.source == id) ==>
                  r.status == if LinkedInto(db.links, id) == r.amount then Completed else Partial)
  {
    hide Sound, QuotaSound, Explained, RowsSound, TotalsSound, ReversalsSound, IdsSound, Conserved, LinkedInto,
         LinkedFrom;
    assert RemittanceSound(id, db.remittances[id], db.links);
    forall l <- db.links ensures l.amount > 0 {
    }
    LinkedPositive(db.links, id);
  }

  // ---------------------------------------------------------------- open obligations

  datatype Obligation = Obligation(id: Id, settled: int, remaining: int)

  predicate Open(r: RemittanceRow, user: UserId) {
    && (r.status.Pending? || r.status.Partial?)
    && (r.receiver == user || r.sender == user || r.onBehalfOf == Some(user))
  }

  /** The open rows of `user` among `ids`, leaving out those that are settled already. */
  function OpenObligations(db: Db, ids: seq<Id>, user: UserId): seq<Obligation> {
    if ids == [] then [] else
      var (front, id) := (ids[..|ids| - 1], ids[|ids| - 1]);
      OpenObligations(db, front, user) +
        if id in db.remittances && Open(db.remittances[id], user) &&
           db.remittances[id].amount - LinkedInto(db.links, id) > 0
        then [Obligation(id, LinkedInto(db.links, id), db.remittances[id].amount - LinkedInto(db.links, id))] else []
  }

  /** A remittance that is neither done nor called off, of which the user is a party, or on whose behalf it is. */
  predicate Outstanding(r: RemittanceRow, user: UserId) {
    && !r.status.Completed? && !r.status.Cancelled?
    && (user in {r.sender, r.receiver} || (r.onBehalfOf.Some? && r.onBehalfOf.value == user))
  }

  lemma OpenIsOutstanding(r: RemittanceRow, user: UserId)
    ensures Open(r, user) <==> Outstanding(r, user)
  {
  }

  /** No outstanding remittance is skipped: what remains of it is positive, all of it when it is pending. */
  lemma {:induction false} NoneSkipped(db: Db, ids: seq<Id>, user: UserId)
    requires LinksSound(db.remittances, db.links)
    ensures forall id <- ids | id in db.remittances && Outstanding(db.remittances[id], user) ::
              exists o <- OpenObligations(db, ids, user) :: o.id == id
    ensures forall o <- OpenObligations(db, ids, user) ::
              && o.id in ids && o.id in db.remittances && Outstanding(db.remittances[o.id], user)
              && o.settled == LinkedInto(db.links, o.id) && o.settled + o.remaining == db.remittances[o.id].amount
              && 0 <= o.settled && 0 < o.remaining
              && (o.settled == 0 <==> db.remittances[o.id].status.Pending?)
  {
    hide LinkedInto, LinkedFrom, Outstanding;
    if ids != [] {
      var (front, id) := (ids[..|ids| - 1], ids[|ids| - 1]);
      assert ids == front + [id];
      NoneSkipped(db, front, user);
      var (seen, all) := (OpenObligations(db, front, user), OpenObligations(db, ids, user));
      if id in db.remittances {
        assert RemittanceSound(id, db.remittances[id], db.links);
        OpenIsOutstanding(db.remittances[id], user);
        if Open(db.remittances[id], user) {
          assert all[|all| - 1].id == id;
        }
      }
      forall k <- front | k in db.remittances && Outstanding(db.remittances[k], user)
        ensures exists o <- all :: o.id == k {
        var o :| o in seen && o.id == k;
        assert o in all;
      }
    }
  }
}
