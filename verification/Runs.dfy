/** What holds over every run of the platform. */
module Runs {
  import opened Base
  import opened Sums
  import opened Accounts
  import opened Limits
  import opened State
  import opened Frames
  import opened Machine
  import Withdrawals
  import Deposits
  import Trades
  import Custody
  import Remittances
  import P2P
  import P2PInvariant
  import P2PProtocol
  import Files

  // ---------------------------------------------------------------- safety

  lemma EmptySound(mode: P2P.Mode)
    ensures Inv(EMPTY) && P2PProtocol.ProtocolSound(EMPTY) && P2PProtocol.ModeSound(EMPTY, mode)
  {
    hide LinkedInto, LinkedFrom, WithdrawalView, AllocationView, TradeView, MovementView, RemittanceView, DepositView,
         Consistent, DeriveStatus;
    forall ref ensures Explained(EMPTY, ref) {
    }
    forall i ensures Held(EMPTY.wallet, i) == Issued(EMPTY, i) {
    }
    forall u ensures CounterSound(EMPTY.quota, u) {
    }
    forall a ensures AccountSound(EMPTY.wallet, a) {
    }
  }

  lemma Front(events: seq<Event>)
    requires events != [] && AllAdmissible(events)
    ensures AllAdmissible(events[..|events| - 1]) && Admissible(events[|events| - 1].step)
  {
    assert forall e <- events[..|events| - 1] :: e in events;
    assert events[|events| - 1] in events;
  }

  /** Whatever steps are taken, in whatever order and with whatever arguments, all invariants hold after each of
      them. */
  lemma {:induction false} RunSound(mode: P2P.Mode, db: Db, events: seq<Event>)
    requires Inv(db) && AllAdmissible(events)
    ensures Inv(Run(mode, db, events))
  {
    hide Inv, Next, Admissible, After, Stays, P2PProtocol.Evolves;
    if events != [] {
      Front(events);
      RunSound(mode, db, events[..|events| - 1]);
      StepProgresses(mode, Run(mode, db, events[..|events| - 1]), events[|events| - 1]);
    }
  }

  /** In every reachable state each account has blocked exactly what is reserved on it, holds exactly what was posted to
      it, and covers what it promised; each counter of volume is the sum of the reservations behind it; and in every
      instrument all accounts together hold what came in from outside and has not gone out. */
  lemma RunSafe(mode: P2P.Mode, events: seq<Event>, a: Acct, u: UsageKey, i: Instrument)
    requires AllAdmissible(events)
    ensures var db := Run(mode, EMPTY, events);
            && Row(db.wallet, a).blocked == Total(db.wallet.holds, Blocking(a))
            && Row(db.wallet, a).balance == Posted(db.wallet.ledger, a)
            && UsableCapacity(Row(db.wallet, a)) >= 0
            && Counter(db.quota, u).reserved == Total(db.quota.limits, CountedOn(u, Reserved))
            && Counter(db.quota, u).used == Total(db.quota.limits, CountedOn(u, Consumed))
            && Held(db.wallet, i) == Issued(db, i)
  {
    hide Next, Admissible, Explained, RowsSound, TotalsSound, LinksSound, ReversalsSound, IdsSound, Total, Run, Issued,
         Held;
    EmptySound(mode);
    RunSound(mode, EMPTY, events);
    var db := Run(mode, EMPTY, events);
    assert AccountSound(db.wallet, a) && CounterSound(db.quota, u);
  }

  // ---------------------------------------------------------------- allocations

  /** No step is barred here: what holds of allocations does not rest on the rest of the books. */
  lemma {:induction false} ProtocolRun(mode: P2P.Mode, db: Db, events: seq<Event>)
    requires P2PProtocol.ProtocolSound(db)
    ensures P2PProtocol.ProtocolSound(Run(mode, db, events))
  {
    hide P2PProtocol.ProtocolSound, P2PProtocol.Evolves, Stays, After;
    if events != [] {
      ProtocolRun(mode, db, events[..|events| - 1]);
      StepEvolves(mode, Run(mode, db, events[..|events| - 1]), events[|events| - 1]);
    }
  }

  /** With a fixed confirmation mode, every settled allocation has the confirmations of the mode, and proof was
      submitted to it. */
  lemma {:induction false} SettledHaveEvidence(mode: P2P.Mode, events: seq<Event>)
    ensures P2PProtocol.ModeSound(Run(mode, EMPTY, events), mode)
  {
    hide Inv, After, P2PProtocol.Evolves, P2PProtocol.ModeSound, P2PProtocol.ProtocolSound, Stays;
    EmptySound(mode);
    if events != [] {
      var (front, e) := (events[..|events| - 1], events[|events| - 1]);
      ProtocolRun(mode, EMPTY, front);
      SettledHaveEvidence(mode, front);
      StepEvolves(mode, Run(mode, EMPTY, front), e);
      P2PProtocol.EvolvesKeepsMode(Run(mode, EMPTY, front), Run(mode, EMPTY, events), mode);
    }
  }

  /** Over a run the status moves along the protocol; what is settled, cancelled or expired stays exactly as it is. */
  ghost predicate Ends(al: Allocation, al': Allocation, mode: P2P.Mode) {
    && P2PProtocol.Reaches(al.status, al'.status, mode)
    && (al.status.Settled? || !Live(al.status) ==> al' == al)
  }

  lemma EndsNext(al: Allocation, al1: Allocation, al2: Allocation, mode: P2P.Mode)
    requires Ends(al, al1, mode) && P2PProtocol.Evolved(al1, al2, mode)
    ensures Ends(al, al2, mode)
  {
  }

  lemma {:induction false} AllocationsEnd(mode: P2P.Mode, db: Db, events: seq<Event>, id: Id)
    requires P2PProtocol.ProtocolSound(db) && id in db.allocations
    ensures var db' := Run(mode, db, events);
            id in db'.allocations && Ends(db.allocations[id], db'.allocations[id], mode)
  {
    if events != [] {
      hide P2PProtocol.ProtocolSound, Stays, After, Ends, P2PProtocol.Evolved;
      var db1 := Run(mode, db, events[..|events| - 1]);
      ProtocolRun(mode, db, events[..|events| - 1]);
      AllocationsEnd(mode, db, events[..|events| - 1], id);
      StepEvolves(mode, db1, events[|events| - 1]);
      EndsNext(db.allocations[id], db1.allocations[id], Run(mode, db, events).allocations[id], mode);
    }
  }

  /** In receiver mode an allocation that the administrator has verified never settles, whatever happens afterwards. */
  lemma VerifiedStuck(db: Db, events: seq<Event>, id: Id)
    requires P2PProtocol.ProtocolSound(db) && id in db.allocations && db.allocations[id].status.AdminVerified?
    ensures var later := Run(P2P.ReceiverOnly, db, events).allocations;
            id in later && (later[id].status.AdminVerified? || later[id].status.Disputed? ||
                            later[id].status.Cancelled?)
  {
    hide P2PProtocol.ProtocolSound, Run;
    AllocationsEnd(P2P.ReceiverOnly, db, events, id);
  }

  /** Once the administrator, or the receiver, has refused, the allocation stays in dispute or is cancelled, in whatever
      mode and whatever happens afterwards: it never settles. */
  lemma RefusedNeverSettles(mode: P2P.Mode, db: Db, id: Id, user: UserId, events: seq<Event>)
    requires P2PProtocol.ProtocolSound(db)
    ensures P2P.AdminVerify(db, id, false).Ok? ==>
              var later := Run(mode, P2P.AdminVerify(db, id, false).value, events).allocations;
              id in later && (later[id].status.Disputed? || later[id].status.Cancelled?)
    ensures P2P.ReceiverConfirm(db, id, user, false, mode).Ok? ==>
              var later := Run(mode, P2P.ReceiverConfirm(db, id, user, false, mode).value, events).allocations;
              id in later && (later[id].status.Disputed? || later[id].status.Cancelled?)
  {
    hide P2PProtocol.ProtocolSound, Run, P2P.AdminVerify, P2P.ReceiverConfirm, P2PProtocol.Evolves,
         P2PProtocol.NoneMarked;
    if P2P.AdminVerify(db, id, false).Ok? {
      P2PProtocol.AdminAnswers(db, id, false);
      P2PProtocol.AdminVerifyEvolves(db, id, false, mode);
      AllocationsEnd(mode, P2P.AdminVerify(db, id, false).value, events, id);
    }
    if P2P.ReceiverConfirm(db, id, user, false, mode).Ok? {
      P2PProtocol.ReceiverAnswers(db, id, user, false, mode);
      P2PProtocol.ReceiverConfirmEvolves(db, id, user, false, mode);
      AllocationsEnd(mode, P2P.ReceiverConfirm(db, id, user, false, mode).value, events, id);
    }
  }

  // ---------------------------------------------------------------- repeated requests

  lemma {:induction false} RunStays(mode: P2P.Mode, db: Db, events: seq<Event>)
    ensures Stays(db, Run(mode, db, events))
  {
    hide Next, RemittancesAside;
    if events != [] {
      var db1 := Run(mode, db, events[..|events| - 1]);
      RunStays(mode, db, events[..|events| - 1]);
      if Next(mode, db1, events[|events| - 1]).Ok? {
        StepStays(mode, db1, events[|events| - 1]);
      }
    }
  }

  /** An assignment repeated under its key, at any later time, returns what was stored and changes nothing. */
  lemma ReplayLater(mode: P2P.Mode, db: Db, w: Id, items: seq<P2P.Item>, key: nat, ok: bool, expiresAt: int,
                    events: seq<Event>, items': seq<P2P.Item>, ok': bool, expiresAt': int)
    requires P2P.Assign(db, w, items, Some(key), ok, expiresAt).Ok? && items' != [] && P2PInvariant.Positive(items')
    ensures var (db', made) := P2P.Assign(db, w, items, Some(key), ok, expiresAt).value;
            var later := Run(mode, db', events);
            P2P.Assign(later, w, items', Some(key), ok', expiresAt') == Ok((later, made))
  {
    hide P2P.Assign, Run, RequestsKept, RemittancesAside;
    var db' := P2P.Assign(db, w, items, Some(key), ok, expiresAt).value.0;
    RunStays(mode, db', events);
    P2PInvariant.AssignReplays(db, w, items, key, ok, expiresAt, Run(mode, db', events), items', ok', expiresAt');
  }

  lemma IndexLater(mode: P2P.Mode, db: Db, k: RequestKey, events: seq<Event>)
    requires k in db.requests
    ensures var later := Run(mode, db, events); k in later.requests && later.requests[k] == db.requests[k]
  {
    hide Run, AssignmentsKept;
    RunStays(mode, db, events);
  }

  /** A withdrawal asked for again under its key, at any later time and with whatever amount, is the one made before:
      nothing is reserved again. At most the account, which is opened first, is new. */
  lemma WithdrawalReplays(mode: P2P.Mode, db: Db, user: UserId, amount: int, purpose: Purpose, key: nat, ok: bool,
                          at: Stamp, policies: Policies, events: seq<Event>, amount': int, purpose': Purpose, ok': bool,
                          at': Stamp, policies': Policies)
    requires Withdrawals.Create(db, user, amount, purpose, Some(key), ok, at, policies).Ok? && amount' > 0
    ensures var (db', id) := Withdrawals.Create(db, user, amount, purpose, Some(key), ok, at, policies).value;
            var later := Run(mode, db', events);
            Withdrawals.Create(later, user, amount', purpose', Some(key), ok', at', policies') ==
              Ok((later.(wallet := GetOrCreate(later.wallet, Acct(user, IRR))), id))
  {
    hide Run, Withdrawals.Make, GetOrCreate;
    IndexLater(mode, Withdrawals.Create(db, user, amount, purpose, Some(key), ok, at, policies).value.0,
               WithdrawalKey(user, key), events);
  }

  /** So is a custody movement, and the platform is left as it is. */
  lemma MovementReplays(mode: P2P.Mode, db: Db, user: UserId, kind: MovementKind, weight: int, ayar: int, key: nat,
                        at: Stamp, policies: Policies, events: seq<Event>, kind': MovementKind, weight': int,
                        ayar': int, at': Stamp, policies': Policies)
    requires Custody.Request(db, user, kind, weight, ayar, Some(key), at, policies).Ok? && weight' > 0
    ensures var (db', id) := Custody.Request(db, user, kind, weight, ayar, Some(key), at, policies).value;
            var later := Run(mode, db', events);
            Custody.Request(later, user, kind', weight', ayar', Some(key), at', policies') == Ok((later, id))
  {
    hide Run, Custody.Make;
    IndexLater(mode, Custody.Request(db, user, kind, weight, ayar, Some(key), at, policies).value.0,
               MovementKey(user, key), events);
  }

  /** And a remittance. */
  lemma RemittanceReplays(mode: P2P.Mode, db: Db, user: UserId, receiver: UserId, instr: Instrument, amount: int,
                          key: nat, at: Stamp, policies: Policies, events: seq<Event>, receiver': UserId,
                          instr': Instrument, amount': int, at': Stamp, policies': Policies)
    requires Remittances.Create(db, user, receiver, instr, amount, Some(key), at, policies).Ok? && amount' > 0 &&
             receiver' != user
    ensures var (db', id) := Remittances.Create(db, user, receiver, instr, amount, Some(key), at, policies).value;
            var later := Run(mode, db', events);
            Remittances.Create(later, user, receiver', instr', amount', Some(key), at', policies') == Ok((later, id))
  {
    hide Run, Remittances.Make;
    IndexLater(mode, Remittances.Create(db, user, receiver, instr, amount, Some(key), at, policies).value.0,
               RemittanceKey(user, key), events);
  }

  /** What a client asks a trade with, and what the quote lock answers. */
  datatype TradeInput = TradeInput(
    side: TradeSide, quantity: int, lock: Result<Trades.LockedQuote>, at: Stamp, policies: Policies)

  function CreateTrade(db: Db, user: UserId, t: TradeInput, key: Option<nat>): Result<(Db, Id)> {
    Trades.CreateWithQuoteLock(db, user, t.side, t.quantity, t.lock, key, t.at, t.policies)
  }

  /** The quote is granted, and fits: only then is anything looked up. */
  predicate Granted(t: TradeInput) {
    t.quantity > 0 && t.lock.Ok? && t.lock.value.side == t.side && t.lock.value.price > 0
  }

  /** A trade made under a key is found again under it, exactly when the retry comes with a quote that is granted. One
      that comes with a quote used before throws, though its key is known. A trade that was only found by its quote is
      not found by its key later: its key was not stored. */
  lemma TradeReplays(mode: P2P.Mode, db: Db, user: UserId, t: TradeInput, key: nat, events: seq<Event>, t': TradeInput)
    requires CreateTrade(db, user, t, Some(key)).Ok?
    requires TradeKey(user, key) in db.requests || QuoteKey(user, t.lock.value.id) !in db.requests
    ensures var (db', id) := CreateTrade(db, user, t, Some(key)).value;
            var later := Run(mode, db', events);
            if Granted(t') then CreateTrade(later, user, t', Some(key)) == Ok((later, id))
            else CreateTrade(later, user, t', Some(key)).Err?
  {
    hide Run, Trades.Make;
    IndexLater(mode, CreateTrade(db, user, t, Some(key)).value.0, TradeKey(user, key), events);
  }

  /** Were a quote granted twice, still only one trade would be made for it: under another key, or under none, that one
      is found. */
  lemma QuoteReplays(mode: P2P.Mode, db: Db, user: UserId, t: TradeInput, key: Option<nat>, events: seq<Event>,
                     t': TradeInput, key': Option<nat>)
    requires CreateTrade(db, user, t, key).Ok? && Granted(t') && t'.lock.value.id == t.lock.value.id
    requires !Found(db, Trades.KeyOf(user, key))
    ensures var (db', id) := CreateTrade(db, user, t, key).value;
            var later := Run(mode, db', events);
            Found(later, Trades.KeyOf(user, key')) || CreateTrade(later, user, t', key') == Ok((later, id))
  {
    hide Run, Trades.Make;
    IndexLater(mode, CreateTrade(db, user, t, key).value.0, QuoteKey(user, t.lock.value.id), events);
  }

  // ---------------------------------------------------------------- what is found was asked for

  /** The step is a request that carries the key. */
  predicate Carries(step: Step, k: RequestKey) {
    match k
    case WithdrawalKey(user, key) => step.CreateWithdrawal? && step.user == user && step.key == Some(key)
    case TradeKey(user, key) => step.CreateTrade? && step.user == user && step.key == Some(key)
    case QuoteKey(user, quote) => step.CreateTrade? && step.user == user && step.quote == quote
    case MovementKey(user, key) => step.RequestMovement? && step.user == user && step.key == Some(key)
    case RemittanceKey(user, key) => step.CreateRemittance? && step.user == user && step.key == Some(key)
  }

  /** At most these keys are added to the index. */
  predicate Adding(requests: map<RequestKey, Id>, requests': map<RequestKey, Id>, more: set<Option<RequestKey>>) {
    forall k <- requests' :: k in requests || Some(k) in more
  }

  lemma WithdrawalIndexes(db: Db, step: Step, at: Stamp, policies: Policies)
    requires step.CreateWithdrawal?
    requires Withdrawals.Create(db, step.user, step.amount, step.purpose, step.key, step.destinationOk, at,
                                policies).Ok?
    ensures var r := Withdrawals.Create(db, step.user, step.amount, step.purpose, step.key, step.destinationOk, at,
                                        policies);
            Adding(db.requests, r.value.0.requests, {Withdrawals.KeyOf(step.user, step.key)})
  {
    hide Withdrawals.Make, GetOrCreate, Aside, RemittancesAside;
    if !Found(db, Withdrawals.KeyOf(step.user, step.key)) {
      Withdrawals.MakeAdds(db, step.user, step.amount, step.purpose, step.destinationOk, at, policies);
    }
  }

  lemma TradeIndexes(db: Db, step: Step, at: Stamp, policies: Policies)
    requires step.CreateTrade?
    ensures var r := Trades.Create(db, step.user, step.instr, step.side, step.quantity, step.price, step.metric,
                                   step.product, step.key,
                                   step.quote, at, policies);
            r.Ok? ==>
            Adding(db.requests, r.value.0.requests,
                   {Trades.KeyOf(step.user, step.key), Some(QuoteKey(step.user, step.quote))})
  {
    hide Trades.Make;
  }

  lemma MovementIndexes(db: Db, step: Step, at: Stamp, policies: Policies)
    requires step.RequestMovement?
    ensures var r := Custody.Request(db, step.user, step.kind, step.weight, step.ayar, step.key, at, policies);
            r.Ok? ==> Adding(db.requests, r.value.0.requests, {Custody.KeyOf(step.user, step.key)})
  {
    hide Custody.Make;
  }

  lemma RemittanceIndexes(db: Db, step: Step, at: Stamp, policies: Policies)
    requires step.CreateRemittance?
    ensures var r := Remittances.Create(db, step.user, step.receiver, step.instr, step.amount, step.key, at, policies);
            r.Ok? ==> Adding(db.requests, r.value.0.requests, {Remittances.KeyOf(step.user, step.key)})
  {
    hide Remittances.Make;
  }

  lemma CreateIndexes(mode: P2P.Mode, db: Db, e: Event, k: RequestKey)
    requires Creates(e.step) && k in After(mode, db, e).requests && k !in db.requests
    ensures Carries(e.step, k)
  {
    hide Withdrawals.Create, Trades.Create, Custody.Request, Remittances.Create, Aside, Stays, RemittancesAside;
    if e.step.CreateWithdrawal? {
      assert Next(mode, db, e).Ok?;
      WithdrawalIndexes(db, e.step, e.at, e.policies);
    } else if e.step.CreateTrade? {
      TradeIndexes(db, e.step, e.at, e.policies);
    } else if e.step.RequestMovement? {
      MovementIndexes(db, e.step, e.at, e.policies);
    } else {
      RemittanceIndexes(db, e.step, e.at, e.policies);
    }
  }

  /** Only the steps that make requests index any. */
  lemma StepIndexes(mode: P2P.Mode, db: Db, e: Event)
    requires !Creates(e.step)
    ensures After(mode, db, e).requests == db.requests
  {
    hide Withdrawals.Approve, Withdrawals.Reject, Withdrawals.Cancel, Deposits.Create, Deposits.Approve,
         Deposits.Reject, Deposits.Cancel, Trades.Approve, Trades.Reject, Trades.Cancel, Trades.Reverse,
         Custody.Approve, Custody.Reject, Custody.Cancel, Remittances.Approve, Remittances.Reject,
         Remittances.CancelByUser, Remittances.CreateGroup, P2P.Assign, P2P.SubmitProof, P2P.ReceiverConfirm,
         P2P.AdminVerify, P2P.Finalize, P2P.Cancel, P2P.ExpireOne, GetOrCreate, Machine.Adjustment, Decides, RefOf,
         Stays, RemittancesAside, Files.DeleteAsAdmin;
    var step := e.step;
    if Next(mode, db, e).Ok? && !P2PStep(step) && !step.CreateGroup? && !step.CreateDeposit? {
      StepDecides(mode, db, e);
      DecidesIndex(db, After(mode, db, e), RefOf(db, step));
    }
  }

  lemma DecidesIndex(db: Db, db': Db, ref: Ref)
    requires Decides(db, db', ref)
    ensures db'.requests == db.requests
  {
    hide Decided;
  }

  /** A request is only ever found under a key that an earlier request carried, of the same user and the same
      service. */
  lemma {:induction false} FoundWasAsked(mode: P2P.Mode, events: seq<Event>, k: RequestKey)
    requires forall e <- events :: !Carries(e.step, k)
    ensures k !in Run(mode, EMPTY, events).requests
  {
    hide After, Carries;
    if events != [] {
      var (front, e) := (events[..|events| - 1], events[|events| - 1]);
      assert forall x <- front :: x in events;
      assert e in events;
      FoundWasAsked(mode, front, k);
      if k in Run(mode, EMPTY, events).requests {
        if Creates(e.step) {
          CreateIndexes(mode, Run(mode, EMPTY, front), e, k);
        } else {
          StepIndexes(mode, Run(mode, EMPTY, front), e);
        }
      }
    }
  }

  /** The lock grants each quote once: no two trades asked for along the run come with the same one. */
  predicate GrantedOnce(events: seq<Event>) {
    forall j, k | 0 <= j < k < |events| && events[j].step.CreateTrade? && events[k].step.CreateTrade? ::
      events[j].step.quote != events[k].step.quote
  }

  /** So long as it does, no trade is ever found by its quote: the lookup by quote only guards against a lock that fails
      to. */
  lemma QuoteNeverFound(mode: P2P.Mode, events: seq<Event>, k: nat)
    requires GrantedOnce(events) && k < |events| && events[k].step.CreateTrade?
    ensures QuoteKey(events[k].step.user, events[k].step.quote) !in Run(mode, EMPTY, events[..k]).requests
  {
    hide Run;
    var key := QuoteKey(events[k].step.user, events[k].step.quote);
    forall j | 0 <= j < k ensures !Carries(events[..k][j].step, key) {
      assert events[..k][j] == events[j];
    }
    FoundWasAsked(mode, events[..k], key);
  }

  // ---------------------------------------------------------------- settled remittances

  /** Once something is settled of a remittance, nothing that carries its reference ever changes again. In particular,
      when it was pending until then, its funds stay reserved for ever: no step approves, rejects or cancels it any
      more. */
  lemma {:induction false} SettledStaysFrozen(mode: P2P.Mode, db: Db, events: seq<Event>, id: Id)
    requires Inv(db) && AllAdmissible(events) && id in db.remittances && LinkedInto(db.links, id) > 0
    ensures Frozen(db, Run(mode, db, events), id)
  {
    hide Inv, After, Admissible, HoldsOf, LimitsOf, MovesOf, LinkedInto, Stays, P2PProtocol.Evolves;
    if events != [] {
      Front(events);
      RunSound(mode, db, events[..|events| - 1]);
      SettledStaysFrozen(mode, db, events[..|events| - 1], id);
      StepProgresses(mode, Run(mode, db, events[..|events| - 1]), events[|events| - 1]);
    }
  }

  /** How such a state comes about: a group settles a pending remittance, whose hold is reserved, and leaves it so. */
  lemma PendingStranded(mode: P2P.Mode, db: Db, user: UserId, legs: seq<Remittances.LegInput>, at: Stamp,
                        events: seq<Event>, id: Id)
    requires Inv(db) && AllAdmissible(events) && id in db.remittances && db.remittances[id].status.Pending?
    requires Remittances.CreateGroup(db, user, legs, at).Ok?
    requires LinkedInto(Remittances.CreateGroup(db, user, legs, at).value.links, id) > 0
    ensures var later := Run(mode, Remittances.CreateGroup(db, user, legs, at).value, events);
            var r := db.remittances[id];
            HoldsOf(later.wallet.holds, Ref.Remittance(id)) == map[Remittances.Sender(r) := Hold(r.amount, Reserved)]
  {
    hide Inv, Next, Admissible, HoldsOf, LimitsOf, MovesOf, LinkedInto, Remittances.CreateGroup, Remittances.Volume;
    var db' := Remittances.CreateGroup(db, user, legs, at).value;
    Remittances.PendingKnown(db, id);
    Remittances.CreateGroupSucceedsIff(db, user, legs, at);
    IdOfRemittance(db, id);
    GroupKeepsLinks(db, user, legs, at, id);
    assert SameView(db, db', Ref.Remittance(id));
    SettledStaysFrozen(mode, db', events, id);
  }
}
