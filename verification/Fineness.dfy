/** What a custody request of negative fineness does to the promises and to the limits of the platform. Nothing checks
    the sign of the fineness; whether a promise or a limit can break depends on nothing else. */
module Fineness {
  import opened Base
  import opened Sums
  import opened Policy
  import opened Accounts
  import opened Limits
  import opened State
  import opened Frames
  import opened Machine
  import Custody
  import P2P
  import Runs
  import Caps

  // ---------------------------------------------------------------- promises

  /** Every movement out that is still pending can be approved: its gold was reserved. */
  predicate PromisesHold(db: Db) {
    forall id <- db.movements | db.movements[id].status.Pending? && db.movements[id].kind.Out? ::
           Custody.Approve(db, id).Ok?
  }

  /** They hold now and after every admissible run from here. */
  ghost predicate PromisesKept(mode: P2P.Mode, db: Db) {
    forall events | AllAdmissible(events) :: PromisesHold(Run(mode, db, events))
  }

  lemma SoundKeepsPromises(mode: P2P.Mode, db: Db)
    requires Inv(db)
    ensures PromisesKept(mode, db)
  {
    hide Inv, AllAdmissible, Run, Custody.Approve, UsableCapacity, Row;
    forall events | AllAdmissible(events) ensures PromisesHold(Run(mode, db, events)) {
      Runs.RunSound(mode, db, events);
      var later := Run(mode, db, events);
      forall id <- later.movements | later.movements[id].status.Pending? && later.movements[id].kind.Out? {
        Custody.ApproveSucceedsIff(later, id);
      }
    }
  }

  lemma Reserves(w: Wallet, a: Acct, ref: Ref, amount: int)
    requires HoldKey(ref, a) !in w.holds && UsableCapacity(Row(w, a)) >= amount
    ensures var r := ReserveFunds(w, a, ref, amount);
            && r.Ok? && a in r.value.accounts &&
               r.value.accounts[a] == Row(w, a).(blocked := Row(w, a).blocked + amount)
            && r.value.holds == w.holds[HoldKey(ref, a) := Hold(amount, Reserved)]
  {
  }

  lemma Settles(w: Wallet, a: Acct, ref: Ref, amount: int)
    requires a in w.accounts && HoldKey(ref, a) in w.holds && w.holds[HoldKey(ref, a)] == Hold(amount, Reserved)
    requires w.accounts[a].blocked - amount >= 0
    ensures var r := ReleaseFunds(w, a, ref);
            && r.Ok? && a in r.value.accounts &&
               r.value.accounts[a] == w.accounts[a].(blocked := w.accounts[a].blocked - amount)
            && r.value.holds == w.holds[HoldKey(ref, a) := Hold(amount, Released)]
    ensures var r := ConsumeFunds(w, a, ref);
            && r.Ok? && a in r.value.accounts &&
               r.value.accounts[a] == w.accounts[a].(blocked := w.accounts[a].blocked - amount)
            && r.value.holds == w.holds[HoldKey(ref, a) := Hold(amount, Consumed)]
  {
  }

  /** A reservation of less than nothing lends `lent` out: another one can then take that much more than is there,
      and once the first is released and the second consumed, the account is as it was before, too poor to pay the
      second. */
  lemma LentOut(w: Wallet, w1: Wallet, w2: Wallet, a: Acct, first: Ref, second: Ref, lent: int, amount: int)
    requires first != second && HoldKey(first, a) !in w.holds && HoldKey(second, a) !in w.holds
    requires Row(w, a).blocked >= 0 && UsableCapacity(Row(w, a)) >= 0 && 0 < lent &&
             0 <= amount <= UsableCapacity(Row(w, a)) + lent
    requires ReserveFunds(w, a, first, -lent) == Ok(w1) && ReserveFunds(w1, a, second, amount) == Ok(w2)
    ensures ReleaseFunds(w2, a, first).Ok?
    ensures var w3 := ReleaseFunds(w2, a, first).value;
            && ConsumeFunds(w3, a, second).Ok?
            && a in ConsumeFunds(w3, a, second).value.accounts &&
               ConsumeFunds(w3, a, second).value.accounts[a] == Row(w, a)
  {
    hide ReserveFunds, ReleaseFunds, ConsumeFunds;
    Reserves(w, a, first, -lent);
    Reserves(w1, a, second, amount);
    Settles(w2, a, first, -lent);
    Settles(ReleaseFunds(w2, a, first).value, a, second, amount);
  }

  lemma NothingUnder(db: Db, a: Acct, id: Id)
    requires Inv(db) && id >= db.nextId
    ensures HoldKey(Ref.Custody(id), a) !in db.wallet.holds
    ensures forall u :: LimitKey(Ref.Custody(id), u) !in db.quota.limits
    ensures Row(db.wallet, a).blocked >= 0 && UsableCapacity(Row(db.wallet, a)) >= 0 && QuotaSound(db.quota)
  {
    hide Inv, HoldsOf, LimitsOf, MovesOf, QuotaSound;
    FreshReference(db, Ref.Custody(id));
    HoldsRead(db.wallet.holds, Ref.Custody(id));
    LimitsRead(db.quota.limits, Ref.Custody(id));
    assert HoldsOf(db.wallet.holds, Ref.Custody(id)) == map[] && LimitsOf(db.quota.limits, Ref.Custody(id)) == map[];
    Known(db, Ref.Custody(id));
    UsableAt(db.wallet, a);
    BlockedSign(db.wallet, a);
  }

  lemma BlockedSign(w: Wallet, a: Acct)
    requires Sound(w)
    ensures Row(w, a).blocked >= 0
  {
    hide Total, Posted, Row, UsableCapacity;
    assert AccountSound(w, a);
    forall k <- w.holds ensures Blocking(a)(k, w.holds[k]) >= 0 {
    }
    Bounds(w.holds, Blocking(a), HoldKey(Ref.Adjustment(0), a));
  }

  lemma PureGold(weight: int)
    ensures Custody.ToEquiv750(weight, 750) == weight
  {
  }

  function Terms(user: UserId, kind: MovementKind, weight: int, ayar: int, at: Stamp): Movement {
    Movement(user, kind, Custody.ToEquiv750(weight, ayar), MovementStatus.Pending, at)
  }

  /** What a new request writes. */
  lemma Requested(db: Db, user: UserId, kind: MovementKind, weight: int, ayar: int, key: Option<nat>, at: Stamp,
                  policies: Policies)
    requires !Found(db, Custody.KeyOf(user, key))
    ensures var (r, m, ref) := (Custody.Request(db, user, kind, weight, ayar, key, at, policies),
                                Terms(user, kind, weight, ayar, at), Ref.Custody(db.nextId));
            && (r.Ok? <==>
                weight > 0 && Custody.ReserveVolume(db.quota, m, ref, policies).Ok? &&
                Custody.ReserveIfOut(db.wallet, m, ref).Ok?)
            && (r.Ok? ==>
                  && r.value.0.movements == db.movements[db.nextId := m] && r.value.0.nextId == db.nextId + 1
                  && Custody.ReserveVolume(db.quota, m, ref, policies) == Ok(r.value.0.quota)
                  && Custody.ReserveIfOut(db.wallet, m, ref) == Ok(r.value.0.wallet))
  {
    hide Custody.ReserveVolume, Custody.ReserveIfOut, Custody.ToEquiv750;
  }

  lemma Cancelled(db: Db, id: Id)
    requires id in db.movements && db.movements[id].status.Pending?
    requires Custody.ReleaseIfOut(db.wallet, db.movements[id], Ref.Custody(id)).Ok?
    ensures Custody.Cancel(db, id).Ok?
    ensures var db' := Custody.Cancel(db, id).value;
            && Ok(db'.wallet) == Custody.ReleaseIfOut(db.wallet, db.movements[id], Ref.Custody(id))
            && db'.quota == Release(db.quota, Ref.Custody(id))
            && db'.movements == db.movements[id := db.movements[id].(status := MovementStatus.Cancelled)]
  {
    hide Custody.ReleaseIfOut, Release;
  }

  lemma Starved(db: Db, id: Id)
    requires id in db.movements && db.movements[id].status.Pending? && db.movements[id].kind.Out?
    requires var (m, ref) := (db.movements[id], Ref.Custody(id));
             && ConsumeFunds(db.wallet, Custody.UserGold(m), ref).Ok?
             && var w := ConsumeFunds(db.wallet, Custody.UserGold(m), ref).value;
                Custody.UserGold(m) in w.accounts && UsableCapacity(w.accounts[Custody.UserGold(m)]) < m.equiv
    ensures Custody.Approve(db, id) == Err(InsufficientCredit)
  {
    hide ConsumeFunds, Taken;
    var (m, ref) := (db.movements[id], Ref.Custody(id));
    var w := ConsumeFunds(db.wallet, Custody.UserGold(m), ref).value;
    OpenAllFirst(w, Custody.UserGold(m), Custody.HOUSE_GOLD);
  }

  lemma OpenAllFirst(w: Wallet, a: Acct, b: Acct)
    requires a in w.accounts
    ensures a in OpenAll(w, [a, b]).accounts && OpenAll(w, [a, b]).accounts[a] == w.accounts[a]
  {
    var w1 := GetOrCreate(w, a);
    assert [a, b][1..] == [b] && [b][1..] == [];
    assert OpenAll(w1, [b]) == OpenAll(GetOrCreate(w1, b), []);
  }

  lemma RunTwo(mode: P2P.Mode, db: Db, e1: Event, e2: Event)
    ensures Run(mode, db, [e1, e2]) == After(mode, After(mode, db, e1), e2)
  {
    hide After;
    assert [e1, e2][..1] == [e1] && [e1][..0] == [];
    assert Run(mode, db, [e1]) == After(mode, Run(mode, db, []), e1);
  }

  lemma RequestEvent(mode: P2P.Mode, db: Db, user: UserId, kind: MovementKind, weight: int, ayar: int, key: Option<nat>,
                     at: Stamp, policies: Policies)
    ensures var r := Custody.Request(db, user, kind, weight, ayar, key, at, policies);
            After(mode, db, Event(RequestMovement(user, kind, weight, ayar, key), at, policies)) ==
            if r.Ok? then r.value.0 else db
  {
    hide Custody.Request;
  }

  lemma CancelEvent(mode: P2P.Mode, db: Db, id: Id, at: Stamp, policies: Policies)
    requires Custody.Cancel(db, id).Ok?
    ensures After(mode, db, Event(CancelMovement(id), at, policies)) == Custody.Cancel(db, id).value
  {
    hide Custody.Cancel;
  }

  /** The continuation that breaks a promise after a request of negative weight: the user takes out all there is and all
      that was lent, and cancels the first request. */
  function Withdrawing(db: Db, user: UserId, lent: int, at: Stamp): seq<Event> {
    [Event(RequestMovement(user, Out, UsableCapacity(Row(db.wallet, Acct(user, GOLD))) + lent, 750, None), at, map[]),
     Event(CancelMovement(db.nextId), at, map[])]
  }

  lemma SecondRequest(db: Db, db1: Db, user: UserId, lent: int, amount: int, at: Stamp)
    requires Inv(db) && lent > 0 && db1.nextId == db.nextId + 1 &&
             amount == UsableCapacity(Row(db.wallet, Acct(user, GOLD))) + lent
    requires ReserveFunds(db.wallet, Acct(user, GOLD), Ref.Custody(db.nextId), -lent) == Ok(db1.wallet)
    ensures Custody.Request(db1, user, Out, amount, 750, None, at, map[]).Ok?
    ensures var db2 := Custody.Request(db1, user, Out, amount, 750, None, at, map[]).value.0;
            && db2.movements == db1.movements[db1.nextId := Movement(user, Out, amount, MovementStatus.Pending, at)]
            && ReserveFunds(db1.wallet, Acct(user, GOLD), Ref.Custody(db1.nextId), amount) == Ok(db2.wallet)
  {
    hide Inv, ReserveFunds, Custody.Request, ReserveBoth, Custody.ToEquiv750, UsableCapacity;
    var (a, id) := (Acct(user, GOLD), db.nextId);
    NothingUnder(db, a, id);
    NothingUnder(db, a, id + 1);
    PureGold(amount);
    Reserves(db.wallet, a, Ref.Custody(id), -lent);
    NoLimits(db1.quota, user, CustodyOut, Weight750, OfInstrument(GOLD), at, amount, Ref.Custody(id + 1));
    Requested(db1, user, Out, amount, 750, None, at, map[]);
    UsableAfter(db.wallet, db1.wallet, a, -lent);
    Reserves(db1.wallet, a, Ref.Custody(id + 1), amount);
  }

  lemma UsableAfter(w: Wallet, w': Wallet, a: Acct, amount: int)
    requires a in w'.accounts && w'.accounts[a] == Row(w, a).(blocked := Row(w, a).blocked + amount)
    ensures UsableCapacity(Row(w', a)) == UsableCapacity(Row(w, a)) - amount
  {
  }

  /** Where no rule applies, every reservation of volume goes through. */
  lemma NoLimits(q: Quota, user: UserId, action: Action, metric: Metric, scope: Scope, at: Stamp, amount: int, ref: Ref)
    ensures ReserveBoth(q, user, action, metric, scope, at, amount, ref, map[]).Ok?
  {
  }

  lemma PromiseBroken(mode: P2P.Mode, db: Db, db1: Db, user: UserId, lent: int, at: Stamp)
    requires Inv(db) && lent > 0 && db1.nextId == db.nextId + 1
    requires db1.movements == db.movements[db.nextId := Movement(user, Out, -lent, MovementStatus.Pending, at)]
    requires ReserveFunds(db.wallet, Acct(user, GOLD), Ref.Custody(db.nextId), -lent) == Ok(db1.wallet)
    ensures var later := Run(mode, db1, Withdrawing(db, user, lent, at));
            && db1.nextId in later.movements && later.movements[db1.nextId].status.Pending? &&
               later.movements[db1.nextId].kind.Out?
            && Custody.Approve(later, db1.nextId) == Err(InsufficientCredit)
    ensures AllAdmissible(Withdrawing(db, user, lent, at))
  {
    hide Inv, ReserveFunds, ReleaseFunds, ConsumeFunds, Custody.Request, Custody.Cancel, Custody.Approve, Release,
         UsableCapacity, After;
    var (a, id, amount) := (Acct(user, GOLD), db.nextId, UsableCapacity(Row(db.wallet, Acct(user, GOLD))) + lent);
    var events := Withdrawing(db, user, lent, at);
    NothingUnder(db, a, id);
    NothingUnder(db, a, id + 1);
    SecondRequest(db, db1, user, lent, amount, at);
    var db2 := Custody.Request(db1, user, Out, amount, 750, None, at, map[]).value.0;
    RequestEvent(mode, db1, user, Out, amount, 750, None, at, map[]);
    LentOut(db.wallet, db1.wallet, db2.wallet, a, Ref.Custody(id), Ref.Custody(id + 1), lent, amount);
    Cancelled(db2, id);
    var db3 := Custody.Cancel(db2, id).value;
    CancelEvent(mode, db2, id, at, map[]);
    RunTwo(mode, db1, events[0], events[1]);
    Starved(db3, id + 1);
  }

  /** A request out keeps the promises of the platform exactly when its weight does not come out negative: otherwise
      there is a continuation after which gold that was reserved cannot be given out. */
  lemma PromiseKeptIff(mode: P2P.Mode, db: Db, user: UserId, weight: int, ayar: int, key: Option<nat>, at: Stamp,
                       policies: Policies)
    requires Inv(db) && Custody.Request(db, user, Out, weight, ayar, key, at, policies).Ok?
    ensures PromisesKept(mode, Custody.Request(db, user, Out, weight, ayar, key, at, policies).value.0)
       <==> Found(db, Custody.KeyOf(user, key)) || weight * ayar > -375
  {
    hide Inv, Custody.Request, AllAdmissible, Run, Custody.Approve, Withdrawing, ReserveFunds, Custody.ToEquiv750,
         Custody.ReserveVolume;
    var db1 := Custody.Request(db, user, Out, weight, ayar, key, at, policies).value.0;
    Custody.RequestKeepsInv(db, user, Out, weight, ayar, key, at, policies);
    if Inv(db1) {
      SoundKeepsPromises(mode, db1);
    } else {
      Requested(db, user, Out, weight, ayar, key, at, policies);
      Custody.EquivSign(weight, ayar);
      var lent := -Custody.ToEquiv750(weight, ayar);
      PromiseBroken(mode, db, db1, user, lent, at);
      assert !PromisesHold(Run(mode, db1, Withdrawing(db, user, lent, at)));
    }
  }

  // ---------------------------------------------------------------- limits

  /** Over a run that starts with `first`, a usage stays within a cap that bounds whatever is resolved for it. */
  ghost predicate CapKept(mode: P2P.Mode, db: Db, first: Event, events: seq<Event>, u: UsageKey, cap: int) {
    Within(db.quota, u, cap) && AllAdmissible(events) && Caps.Respects(first, u, cap) &&
    (forall e <- events :: Caps.Respects(e, u, cap))
    ==> Within(Run(mode, db, [first] + events).quota, u, cap)
  }

  /** Whatever the limits are and whatever follows. */
  ghost predicate CapsHold(mode: P2P.Mode, db: Db, step: Step, at: Stamp) {
    forall policies, events, u, cap :: CapKept(mode, db, Event(step, at, policies), events, u, cap)
  }

  lemma {:induction false} RunAfter(mode: P2P.Mode, db: Db, first: Event, events: seq<Event>)
    ensures Run(mode, db, [first] + events) == Run(mode, After(mode, db, first), events)
  {
    hide After;
    if events == [] {
      assert [first] + events == [first] && [first][..0] == [];
      assert Run(mode, db, [first]) == After(mode, Run(mode, db, []), first);
    } else {
      var (front, e) := (events[..|events| - 1], events[|events| - 1]);
      RunAfter(mode, db, first, front);
      assert ([first] + events)[..|[first] + events| - 1] == [first] + front;
    }
  }

  /** A request whose weight does not come out negative, or that makes nothing new, takes nothing over its cap, now or
      later. */
  lemma SoundKeepsCaps(mode: P2P.Mode, db: Db, step: Step, at: Stamp)
    requires Inv(db) && step.RequestMovement?
    requires Admissible(step) || step.weight <= 0 || Found(db, Custody.KeyOf(step.user, step.key))
    ensures CapsHold(mode, db, step, at)
  {
    hide Inv, Run, Within, Caps.Respects, After, AllAdmissible;
    forall policies, events, u, cap ensures CapKept(mode, db, Event(step, at, policies), events, u, cap) {
      var first := Event(step, at, policies);
      if Within(db.quota, u, cap) && AllAdmissible(events) && Caps.Respects(first, u, cap) &&
         forall e <- events :: Caps.Respects(e, u, cap) {
        if Admissible(step) {
          AllStill(first, events);
          Caps.CapHolds(mode, db, [first] + events, u, cap);
        } else {
          RunAfter(mode, db, first, events);
          RequestEvent(mode, db, step.user, step.kind, step.weight, step.ayar, step.key, at, policies);
          assert After(mode, db, first) == db;
          Caps.CapHolds(mode, db, events, u, cap);
        }
      }
    }
  }

  lemma AllStill(first: Event, events: seq<Event>)
    requires AllAdmissible(events) && Admissible(first.step)
    ensures AllAdmissible([first] + events)
  {
  }

  function ActionOf(kind: MovementKind): Action {
    if kind.In? then CustodyIn else CustodyOut
  }

  function DayOf(user: UserId, kind: MovementKind, at: Stamp): UsageKey {
    DayKey(user, ActionOf(kind), Weight750, OfInstrument(GOLD), at)
  }

  /** Used and reserved volume together. */
  function Volume(q: Quota, u: UsageKey): int {
    Counter(q, u).used + Counter(q, u).reserved
  }

  /** With a limit on its day alone, a new reservation goes through while it fits. */
  lemma ReservesDay(q: Quota, user: UserId, kind: MovementKind, at: Stamp, amount: int, ref: Ref, cap: int)
    requires var u := DayOf(user, kind, at); LimitKey(ref, u) !in q.limits && Volume(q, u) + amount <= cap
    ensures var (u, policies) := (DayOf(user, kind, at), map[DayOf(user, kind, at) := Applicable(Some(cap), None)]);
            var r := ReserveBoth(q, user, ActionOf(kind), Weight750, OfInstrument(GOLD), at, amount, ref, policies);
            && r.Ok? && Volume(r.value, u) == Volume(q, u) + amount
            && u in r.value.usages && LimitKey(ref, u) in r.value.limits &&
               r.value.limits[LimitKey(ref, u)] == Hold(amount, Reserved)
            && forall k: LimitKey | k.ref != ref ::
               (k in q.limits <==> k in r.value.limits) && (k in q.limits ==> q.limits[k] == r.value.limits[k])
  {
  }

  lemma ReleasesDay(q: Quota, u: UsageKey, ref: Ref)
    requires u in q.usages && LimitKey(ref, u) in q.limits && q.limits[LimitKey(ref, u)].status == Reserved
    ensures Volume(Release(q, ref), u) == Volume(q, u) - q.limits[LimitKey(ref, u)].amount
  {
  }

  /** The only rule: a limit of `cap` on the day of the request. */
  function DayLimit(user: UserId, kind: MovementKind, at: Stamp, cap: int): Policies {
    map[DayOf(user, kind, at) := Applicable(Some(cap), None)]
  }

  /** A request that the day allows, and going out the account, is taken as it is. */
  lemma Accepted(db: Db, user: UserId, kind: MovementKind, weight: int, ayar: int, key: Option<nat>, at: Stamp,
                 cap: int)
    requires weight > 0 && !Found(db, Custody.KeyOf(user, key))
    requires var (amount, ref, u) := (Custody.ToEquiv750(weight, ayar), Ref.Custody(db.nextId), DayOf(user, kind, at));
             && LimitKey(ref, u) !in db.quota.limits && Volume(db.quota, u) + amount <= cap
             && (kind.Out? ==>
                 HoldKey(ref, Acct(user, GOLD)) !in db.wallet.holds &&
                 UsableCapacity(Row(db.wallet, Acct(user, GOLD))) >= amount)
    ensures Custody.Request(db, user, kind, weight, ayar, key, at, DayLimit(user, kind, at, cap)).Ok?
    ensures var (db', m) :=
            (Custody.Request(db, user, kind, weight, ayar, key, at, DayLimit(user, kind, at, cap)).value.0,
             Terms(user, kind, weight, ayar, at));
            && db'.movements == db.movements[db.nextId := m] && db'.nextId == db.nextId + 1
            && ReserveBoth(db.quota, user, ActionOf(kind), Weight750, OfInstrument(GOLD), at, m.equiv,
                           Ref.Custody(db.nextId),
                           DayLimit(user, kind, at, cap)) == Ok(db'.quota)
            && (if kind.Out?
                then ReserveFunds(db.wallet, Acct(user, GOLD), Ref.Custody(db.nextId), m.equiv) == Ok(db'.wallet)
                else db'.wallet == db.wallet)
  {
    hide Custody.Request, ReserveBoth, ReserveFunds, Custody.ToEquiv750, Volume, UsableCapacity, DayKey, Found;
    var (amount, ref) := (Custody.ToEquiv750(weight, ayar), Ref.Custody(db.nextId));
    ReservesDay(db.quota, user, kind, at, amount, ref, cap);
    if kind.Out? {
      Reserves(db.wallet, Acct(user, GOLD), ref, amount);
    }
    Requested(db, user, kind, weight, ayar, key, at, DayLimit(user, kind, at, cap));
  }

  /** The continuation that breaks a cap: another request fills the day up, with what was lent, and the first is
      cancelled. */
  function Overrun(db: Db, user: UserId, kind: MovementKind, lent: int, at: Stamp, cap: int): seq<Event> {
    [Event(RequestMovement(user, kind, cap - Volume(db.quota, DayOf(user, kind, at)) + lent, 750, None), at,
           DayLimit(user, kind, at, cap)),
     Event(CancelMovement(db.nextId), at, DayLimit(user, kind, at, cap))]
  }

  lemma OverrunRespects(db: Db, user: UserId, kind: MovementKind, weight: int, ayar: int, key: Option<nat>, lent: int,
                        at: Stamp, cap: int)
    requires lent > 0 && Volume(db.quota, DayOf(user, kind, at)) <= cap
    ensures AllAdmissible(Overrun(db, user, kind, lent, at, cap))
    ensures Caps.Respects(Event(RequestMovement(user, kind, weight, ayar, key), at, DayLimit(user, kind, at, cap)),
                          DayOf(user, kind, at), cap)
    ensures forall e <- Overrun(db, user, kind, lent, at, cap) :: Caps.Respects(e, DayOf(user, kind, at), cap)
  {
    hide Volume, DayKey, Caps.DayAndMonth;
  }

  /** The quotas along the way. */
  lemma VolumesOverrun(q: Quota, q1: Quota, q2: Quota, user: UserId, kind: MovementKind, at: Stamp, first: Ref,
                       second: Ref, lent: int, amount: int, cap: int)
    requires var u := DayOf(user, kind, at);
             && LimitKey(first, u) !in q.limits && LimitKey(second, u) !in q.limits && first != second
             && 0 < lent && Volume(q, u) <= cap && amount == cap - Volume(q, u) + lent
    requires ReserveBoth(q, user, ActionOf(kind), Weight750, OfInstrument(GOLD), at, -lent, first,
                         DayLimit(user, kind, at, cap)) == Ok(q1)
    requires ReserveBoth(q1, user, ActionOf(kind), Weight750, OfInstrument(GOLD), at, amount, second,
                         DayLimit(user, kind, at, cap)) == Ok(q2)
    ensures Volume(Release(q2, first), DayOf(user, kind, at)) == cap + lent
  {
    hide ReserveBoth, Release, Volume, DayKey;
    ReservesDay(q, user, kind, at, -lent, first, cap);
    ReservesDay(q1, user, kind, at, amount, second, cap);
    ReleasesDay(q2, DayOf(user, kind, at), first);
  }

  lemma FirstLent(q: Quota, q1: Quota, user: UserId, kind: MovementKind, at: Stamp, first: Ref, second: Ref, lent: int,
                  cap: int)
    requires var u := DayOf(user, kind, at);
             LimitKey(first, u) !in q.limits && LimitKey(second, u) !in q.limits && first != second &&
             Volume(q, u) - lent <= cap
    requires ReserveBoth(q, user, ActionOf(kind), Weight750, OfInstrument(GOLD), at, -lent, first,
                         DayLimit(user, kind, at, cap)) == Ok(q1)
    ensures Volume(q1, DayOf(user, kind, at)) == Volume(q, DayOf(user, kind, at)) - lent &&
            LimitKey(second, DayOf(user, kind, at)) !in q1.limits
  {
    hide ReserveBoth, Volume, DayKey;
    ReservesDay(q, user, kind, at, -lent, first, cap);
  }

  lemma OverrunRuns(mode: P2P.Mode, db: Db, user: UserId, kind: MovementKind, weight: int, ayar: int, key: Option<nat>,
                    at: Stamp, cap: int, lent: int, made1: (Db, Id), made2: (Db, Id))
    requires Custody.Request(db, user, kind, weight, ayar, key, at, DayLimit(user, kind, at, cap)) == Ok(made1)
    requires Custody.Request(made1.0, user, kind, cap - Volume(db.quota, DayOf(user, kind, at)) + lent, 750, None, at,
                             DayLimit(user, kind, at, cap)) == Ok(made2)
    ensures var policies := DayLimit(user, kind, at, cap);
            Run(mode, db, [Event(RequestMovement(user, kind, weight, ayar, key), at, policies)]
                            + Overrun(db, user, kind, lent, at, cap))
              == After(mode, made2.0, Event(CancelMovement(db.nextId), at, policies))
  {
    hide Custody.Request, After, Volume, DayKey, Run;
    var policies := DayLimit(user, kind, at, cap);
    var events := Overrun(db, user, kind, lent, at, cap);
    var amount := cap - Volume(db.quota, DayOf(user, kind, at)) + lent;
    RequestEvent(mode, db, user, kind, weight, ayar, key, at, policies);
    RequestEvent(mode, made1.0, user, kind, amount, 750, None, at, policies);
    RunAfter(mode, db, Event(RequestMovement(user, kind, weight, ayar, key), at, policies), events);
    RunTwo(mode, made1.0, events[0], events[1]);
  }

  lemma CapBroken(mode: P2P.Mode, db: Db, user: UserId, kind: MovementKind, weight: int, ayar: int, key: Option<nat>,
                  at: Stamp, cap: int)
    requires Inv(db) && weight > 0 && weight * ayar <= -375 && !Found(db, Custody.KeyOf(user, key))
    requires Volume(db.quota, DayOf(user, kind, at)) <= cap &&
             (kind.Out? ==> Volume(db.quota, DayOf(user, kind, at)) == cap)
    ensures var (lent, first) := (-Custody.ToEquiv750(weight, ayar),
                                  Event(RequestMovement(user, kind, weight, ayar, key), at,
                                        DayLimit(user, kind, at, cap)));
            lent > 0 && Volume(Run(mode, db, [first] + Overrun(db, user, kind, lent, at, cap)).quota,
                               DayOf(user, kind, at)) == cap + lent
  {
    hide Inv, ReserveFunds, ReleaseFunds, ReserveBoth, Custody.Request, Custody.Cancel, Release, UsableCapacity, After,
         Volume, DayKey, Custody.ToEquiv750, Run, Found, Overrun;
    var (a, id, u, policies) := (Acct(user, GOLD), db.nextId, DayOf(user, kind, at), DayLimit(user, kind, at, cap));
    var (r1, r2, lent) := (Ref.Custody(id), Ref.Custody(id + 1), -Custody.ToEquiv750(weight, ayar));
    var amount := cap - Volume(db.quota, u) + lent;
    Custody.EquivSign(weight, ayar);
    NothingUnder(db, a, id);
    NothingUnder(db, a, id + 1);
    Accepted(db, user, kind, weight, ayar, key, at, cap);
    var db1 := Custody.Request(db, user, kind, weight, ayar, key, at, policies).value.0;
    FirstLent(db.quota, db1.quota, user, kind, at, r1, r2, lent, cap);
    PureGold(amount);
    if kind.Out? {
      Reserves(db.wallet, a, r1, -lent);
      UsableAfter(db.wallet, db1.wallet, a, -lent);
    }
    KeyNone(db1, user);
    Accepted(db1, user, kind, amount, 750, None, at, cap);
    var db2 := Custody.Request(db1, user, kind, amount, 750, None, at, policies).value.0;
    VolumesOverrun(db.quota, db1.quota, db2.quota, user, kind, at, r1, r2, lent, amount, cap);
    if kind.Out? {
      LentOut(db.wallet, db1.wallet, db2.wallet, a, r1, r2, lent, amount);
    }
    Cancelled(db2, id);
    CancelEvent(mode, db2, id, at, policies);
    OverrunRuns(mode, db, user, kind, weight, ayar, key, at, cap, lent,
                Custody.Request(db, user, kind, weight, ayar, key, at, policies).value,
                Custody.Request(db1, user, kind, amount, 750, None, at, policies).value);
  }

  lemma KeyNone(db: Db, user: UserId)
    ensures !Found(db, Custody.KeyOf(user, None))
  {
  }

  /** Limits bound what is used and reserved after a custody request, in whatever direction, exactly when its weight
      does not come out negative or it makes nothing new. Otherwise a request that the limits allow takes the day over
      its limit. */
  lemma CapsHoldIff(mode: P2P.Mode, db: Db, user: UserId, kind: MovementKind, weight: int, ayar: int, key: Option<nat>,
                    at: Stamp)
    requires Inv(db)
    ensures CapsHold(mode, db, RequestMovement(user, kind, weight, ayar, key), at)
       <==> weight <= 0 || Found(db, Custody.KeyOf(user, key)) || weight * ayar > -375
  {
    hide Inv, Run, Caps.Respects, AllAdmissible, DayKey, Found, Custody.ToEquiv750, CapsHold, CapKept, Overrun;
    var step := RequestMovement(user, kind, weight, ayar, key);
    if weight <= 0 || Found(db, Custody.KeyOf(user, key)) || weight * ayar > -375 {
      SoundKeepsCaps(mode, db, step, at);
    } else {
      var (cap, lent) := (Volume(db.quota, DayOf(user, kind, at)), -Custody.ToEquiv750(weight, ayar));
      CapBroken(mode, db, user, kind, weight, ayar, key, at, cap);
      OverrunRespects(db, user, kind, weight, ayar, key, lent, at, cap);
      NotKept(mode, db, step, at, DayLimit(user, kind, at, cap), Overrun(db, user, kind, lent, at, cap),
              DayOf(user, kind, at), cap);
    }
  }

  lemma NotKept(mode: P2P.Mode, db: Db, step: Step, at: Stamp, policies: Policies, events: seq<Event>, u: UsageKey,
                cap: int)
    requires Volume(db.quota, u) <= cap < Volume(Run(mode, db, [Event(step, at, policies)] + events).quota, u)
    requires AllAdmissible(events) && Caps.Respects(Event(step, at, policies), u, cap) &&
             forall e <- events :: Caps.Respects(e, u, cap)
    ensures !CapsHold(mode, db, step, at)
  {
    hide Run, AllAdmissible, Caps.Respects;
    assert !CapKept(mode, db, Event(step, at, policies), events, u, cap);
  }

  // ---------------------------------------------------------------- from an empty platform

  const DAY_ONE := Stamp(0, 0)

  /** With a limit of five on the gold that user 1 may bring in in a day: three requests later 1005 is used and
      reserved. */
  lemma FiveExceeded(mode: P2P.Mode)
    ensures var limit := DayLimit(1, In, DAY_ONE, 5);
            var events := [Event(RequestMovement(1, In, 750, -1000, None), DAY_ONE, limit),
                           Event(RequestMovement(1, In, 1005, 750, None), DAY_ONE, limit),
                           Event(CancelMovement(0), DAY_ONE, limit)];
            Volume(Run(mode, EMPTY, events).quota, DayOf(1, In, DAY_ONE)) == 1005
  {
    hide Run, Volume, DayKey;
    Runs.EmptySound(mode);
    var u := DayOf(1, In, DAY_ONE);
    NothingCounted(u);
    CapBroken(mode, EMPTY, 1, In, 750, -1000, None, DAY_ONE, 5);
    var first := Event(RequestMovement(1, In, 750, -1000, None), DAY_ONE, DayLimit(1, In, DAY_ONE, 5));
    var events := Overrun(EMPTY, 1, In, 1000, DAY_ONE, 5);
    assert Custody.ToEquiv750(750, -1000) == -1000;
    assert [first] + events == [first, events[0], events[1]];
  }

  lemma NothingCounted(u: UsageKey)
    ensures Volume(EMPTY.quota, u) == 0
  {
  }

  lemma NegativeAccepted(db: Db, user: UserId, weight: int, ayar: int, at: Stamp)
    requires Inv(db) && weight > 0 && Custody.ToEquiv750(weight, ayar) < 0
    ensures var r := Custody.Request(db, user, Out, weight, ayar, None, at, map[]);
            && r.Ok? && r.value.0.nextId == db.nextId + 1
            && r.value.0.movements == db.movements[db.nextId := Terms(user, Out, weight, ayar, at)]
            && ReserveFunds(db.wallet, Acct(user, GOLD), Ref.Custody(db.nextId), Custody.ToEquiv750(weight, ayar)) ==
               Ok(r.value.0.wallet)
  {
    hide Inv, ReserveFunds, Custody.Request, ReserveBoth, Custody.ToEquiv750, UsableCapacity;
    var (a, ref, equiv) := (Acct(user, GOLD), Ref.Custody(db.nextId), Custody.ToEquiv750(weight, ayar));
    NothingUnder(db, a, db.nextId);
    NoLimits(db.quota, user, CustodyOut, Weight750, OfInstrument(GOLD), at, equiv, ref);
    Reserves(db.wallet, a, ref, equiv);
    Requested(db, user, Out, weight, ayar, None, at, map[]);
  }

  /** User 1, who owns no gold at all: a movement out of 1000 is accepted, pending, and cannot be approved any more. */
  lemma NothingToGive(mode: P2P.Mode)
    ensures var events := [Event(RequestMovement(1, Out, 750, -1000, None), DAY_ONE, map[]),
                           Event(RequestMovement(1, Out, 1000, 750, None), DAY_ONE, map[]),
                           Event(CancelMovement(0), DAY_ONE, map[])];
            var later := Run(mode, EMPTY, events);
            1 in later.movements && later.movements[1].status.Pending? &&
            Custody.Approve(later, 1) == Err(InsufficientCredit)
  {
    hide Inv, Run, ReserveFunds, Custody.Request, Custody.Approve, After;
    Runs.EmptySound(mode);
    var first := Event(RequestMovement(1, Out, 750, -1000, None), DAY_ONE, map[]);
    var events := Withdrawing(EMPTY, 1, 1000, DAY_ONE);
    assert Custody.ToEquiv750(750, -1000) == -1000;
    NegativeAccepted(EMPTY, 1, 750, -1000, DAY_ONE);
    PromiseBroken(mode, EMPTY, Custody.Request(EMPTY, 1, Out, 750, -1000, None, DAY_ONE, map[]).value.0, 1, 1000,
                  DAY_ONE);
    RequestEvent(mode, EMPTY, 1, Out, 750, -1000, None, DAY_ONE, map[]);
    RunAfter(mode, EMPTY, first, events);
    assert [first] + events == [first, events[0], events[1]];
  }
}
