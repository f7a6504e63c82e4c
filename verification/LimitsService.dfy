/** LimitsService, statement by statement. */
module LimitsService {
  import opened Base
  import opened Policy
  import opened Limits
  import opened Store

  method UpsertUsage(tx: Database, u: UsageKey) returns (usage: Usage)
    modifies tx`usages
    ensures tx.State() == old(tx.State()).(quota := tx.Counters())
    ensures usage == Counter(old(tx.Counters()), u) && tx.Counters() == SetCounter(old(tx.Counters()), u, usage)
    ensures u in tx.usages
  {
    if u !in tx.usages {
      tx.usages := tx.usages[u := Usage(0, 0)];
    }
    usage := tx.usages[u];
    assert tx.usages == old(tx.usages)[u := usage];
  }

  method Reserve(tx: Database, u: UsageKey, amount: int, ref: Ref, applicable: Applicable) returns (r: Outcome)
    modifies tx`usages, tx`limits
    ensures tx.State() == old(tx.State()).(quota := tx.Counters())
    ensures Wrote(tx.Counters(), Limits.Reserve(old(tx.Counters()), u, amount, ref, applicable), r)
  {
    var usage := UpsertUsage(tx, u);
    var projected := usage.used + usage.reserved + amount;
    if applicable.value.None? && applicable.kycRequired.Some? {
      return Failed(KycRequired);
    }
    if applicable.value.Some? && projected > applicable.value.value {
      return Failed(LimitExceeded);
    }
    var k := LimitKey(ref, u);
    if k in tx.limits {
      return Done;
    }
    tx.limits := tx.limits[k := Hold(amount, Reserved)];
    tx.usages := tx.usages[u := usage.(reserved := usage.reserved + amount)];
    return Done;
  }

  /** The pair of reservations that every request makes. */
  method ReserveBoth(tx: Database, user: UserId, action: Action, metric: Metric, scope: Scope, at: Stamp,
                     amount: int, ref: Ref, policies: Policies) returns (r: Outcome)
    modifies tx`usages, tx`limits
    ensures tx.State() == old(tx.State()).(quota := tx.Counters())
    ensures Wrote(tx.Counters(),
                  Limits.ReserveBoth(old(tx.Counters()), user, action, metric, scope, at, amount, ref, policies), r)
  {
    hide Limits.Reserve;
    var day := DayKey(user, action, metric, scope, at);
    :- Reserve(tx, day, amount, ref, PolicyFor(policies, day));
    var month := MonthKey(user, action, metric, scope, at);
    r := Reserve(tx, month, amount, ref, PolicyFor(policies, month));
  }

  /** The counters and rows while the reservations in `todo` still wait: those of `ref` not among them look as in
      `end`. */
  ghost predicate Half(begin: Quota, now: Quota, end: Quota, ref: Ref, todo: set<LimitKey>) {
    && now.usages.Keys == begin.usages.Keys == end.usages.Keys
    && now.limits.Keys == begin.limits.Keys == end.limits.Keys
    && (forall u <- now.usages :: now.usages[u] ==
          if LimitKey(ref, u) in begin.limits && LimitKey(ref, u) !in todo then end.usages[u] else begin.usages[u])
    && (forall k <- now.limits ::
        now.limits[k] == if k.ref == ref && k !in todo then end.limits[k] else begin.limits[k])
  }

  /** What one turn of the consuming loop writes. */
  function ConsumeRow(q: Quota, k: LimitKey): Quota
    requires k in q.limits
  {
    var h := q.limits[k];
    if h.status != Consumed && k.usage in q.usages then
      Quota(q.usages[k.usage := Usage(q.usages[k.usage].used + h.amount, q.usages[k.usage].reserved - h.amount)],
            q.limits[k := h.(status := Consumed)])
    else q
  }

  function ReleaseRow(q: Quota, k: LimitKey): Quota
    requires k in q.limits
  {
    var h := q.limits[k];
    if h.status == Reserved && k.usage in q.usages then
      Quota(q.usages[k.usage := q.usages[k.usage].(reserved := q.usages[k.usage].reserved - h.amount)],
            q.limits[k := h.(status := Released)])
    else q
  }

  /** A turn that gives the usage and the row of `k` their final values. */
  lemma HalfNext(begin: Quota, now: Quota, next: Quota, end: Quota, ref: Ref, todo: set<LimitKey>, k: LimitKey)
    requires Half(begin, now, end, ref, todo) && k in todo && k in begin.limits && k.ref == ref
    requires next == Final(now, end, k)
    ensures Half(begin, next, end, ref, todo - {k})
  {
    assert k == LimitKey(ref, k.usage);
  }

  function Final(now: Quota, end: Quota, k: LimitKey): Quota
    requires now.usages.Keys == end.usages.Keys && k in end.limits
  {
    Quota(if k.usage in now.usages then now.usages[k.usage := end.usages[k.usage]] else now.usages,
          now.limits[k := end.limits[k]])
  }

  lemma HalfRead(begin: Quota, now: Quota, end: Quota, ref: Ref, todo: set<LimitKey>, k: LimitKey)
    requires Half(begin, now, end, ref, todo) && k in todo && k in begin.limits && k.ref == ref
    ensures k in now.limits && k in end.limits && now.limits[k] == begin.limits[k] &&
            now.usages.Keys == end.usages.Keys == begin.usages.Keys
    ensures k.usage in now.usages ==> now.usages[k.usage] == begin.usages[k.usage]
  {
    assert k == LimitKey(ref, k.usage);
  }

  lemma ConsumeNext(begin: Quota, now: Quota, ref: Ref, todo: set<LimitKey>, k: LimitKey)
    requires Half(begin, now, Limits.Consume(begin, ref), ref, todo) && k in todo && k in begin.limits && k.ref == ref
    ensures k in now.limits && Half(begin, ConsumeRow(now, k), Limits.Consume(begin, ref), ref, todo - {k})
  {
    hide Half;
    var end := Limits.Consume(begin, ref);
    HalfRead(begin, now, end, ref, todo, k);
    assert k == LimitKey(ref, k.usage);
    var next := ConsumeRow(now, k);
    assert next.usages == Final(now, end, k).usages && next.limits == Final(now, end, k).limits;
    HalfNext(begin, now, next, end, ref, todo, k);
  }

  lemma ReleaseNext(begin: Quota, now: Quota, ref: Ref, todo: set<LimitKey>, k: LimitKey)
    requires Half(begin, now, Limits.Release(begin, ref), ref, todo) && k in todo && k in begin.limits && k.ref == ref
    ensures k in now.limits && Half(begin, ReleaseRow(now, k), Limits.Release(begin, ref), ref, todo - {k})
  {
    hide Half;
    var end := Limits.Release(begin, ref);
    HalfRead(begin, now, end, ref, todo, k);
    assert k == LimitKey(ref, k.usage);
    var next := ReleaseRow(now, k);
    assert next.usages == Final(now, end, k).usages && next.limits == Final(now, end, k).limits;
    HalfNext(begin, now, next, end, ref, todo, k);
  }

  lemma HalfAtStart(begin: Quota, end: Quota, ref: Ref, todo: set<LimitKey>)
    requires begin.usages.Keys == end.usages.Keys && begin.limits.Keys == end.limits.Keys
    requires forall k :: k in todo <==> k in begin.limits && k.ref == ref
    ensures Half(begin, begin, end, ref, todo)
  {
  }

  /** `end` differs from `begin` only where a reservation of `ref` is concerned. */
  ghost predicate Local(begin: Quota, end: Quota, ref: Ref) {
    && begin.usages.Keys == end.usages.Keys && begin.limits.Keys == end.limits.Keys
    && (forall u <- begin.usages | LimitKey(ref, u) !in begin.limits :: end.usages[u] == begin.usages[u])
    && (forall k <- begin.limits | k.ref != ref :: end.limits[k] == begin.limits[k])
  }

  lemma HalfAtEnd(begin: Quota, now: Quota, end: Quota, ref: Ref)
    requires Half(begin, now, end, ref, {}) && Local(begin, end, ref)
    ensures now == end
  {
    assert now.usages == end.usages && now.limits == end.limits;
  }

  lemma SettledLocal(q: Quota, ref: Ref)
    ensures Local(q, Limits.Consume(q, ref), ref) && Local(q, Limits.Release(q, ref), ref)
  {
  }

  lemma LocalKeys(begin: Quota, end: Quota, ref: Ref)
    requires Local(begin, end, ref)
    ensures begin.usages.Keys == end.usages.Keys && begin.limits.Keys == end.limits.Keys
  {
  }

  /** All reservations of one reference. */
  method FindMany(tx: Database, ref: Ref) returns (found: set<LimitKey>)
    ensures forall k :: k in found <==> k in tx.limits && k.ref == ref
  {
    found := set k | k in tx.limits && k.ref == ref;
  }

  method ConsumeOne(tx: Database, k: LimitKey)
    requires k in tx.limits
    modifies tx`usages, tx`limits
    ensures tx.State() == old(tx.State()).(quota := tx.Counters())
    ensures tx.Counters() == ConsumeRow(old(tx.Counters()), k)
  {
    var reservation := tx.limits[k];
    if reservation.status == Consumed {
      return;
    }
    if k.usage !in tx.usages {
      return;
    }
    var usage := tx.usages[k.usage];
    var newReserved := usage.reserved - reservation.amount;
    var newUsed := usage.used + reservation.amount;
    tx.usages := tx.usages[k.usage := Usage(newUsed, newReserved)];
    tx.limits := tx.limits[k := reservation.(status := Consumed)];
  }

  /** The outcome does not depend on the order in which the reservations come up. */
  method Consume(tx: Database, ref: Ref)
    modifies tx`usages, tx`limits
    ensures tx.State() == old(tx.State()).(quota := tx.Counters())
    ensures tx.Counters() == Limits.Consume(old(tx.Counters()), ref)
  {
    hide Limits.Consume, Half, Local, ConsumeRow;
    ghost var (begin, end) := (tx.Counters(), Limits.Consume(tx.Counters(), ref));
    var todo := FindMany(tx, ref);
    SettledLocal(begin, ref);
    LocalKeys(begin, end, ref);
    HalfAtStart(begin, end, ref, todo);
    while todo != {}
      invariant forall k <- todo :: k in begin.limits && k.ref == ref
      invariant Half(begin, tx.Counters(), end, ref, todo)
      decreases todo
    {
      var k :| k in todo;
      ConsumeNext(begin, tx.Counters(), ref, todo, k);
      ConsumeOne(tx, k);
      todo := todo - {k};
    }
    HalfAtEnd(begin, tx.Counters(), end, ref);
  }

  method ReleaseOne(tx: Database, k: LimitKey)
    requires k in tx.limits
    modifies tx`usages, tx`limits
    ensures tx.State() == old(tx.State()).(quota := tx.Counters())
    ensures tx.Counters() == ReleaseRow(old(tx.Counters()), k)
  {
    var reservation := tx.limits[k];
    if reservation.status != Reserved {
      return;
    }
    if k.usage !in tx.usages {
      return;
    }
    var usage := tx.usages[k.usage];
    tx.usages := tx.usages[k.usage := usage.(reserved := usage.reserved - reservation.amount)];
    tx.limits := tx.limits[k := reservation.(status := Released)];
  }

  method Release(tx: Database, ref: Ref)
    modifies tx`usages, tx`limits
    ensures tx.State() == old(tx.State()).(quota := tx.Counters())
    ensures tx.Counters() == Limits.Release(old(tx.Counters()), ref)
  {
    hide Limits.Release, Half, Local, ReleaseRow;
    ghost var (begin, end) := (tx.Counters(), Limits.Release(tx.Counters(), ref));
    var todo := FindMany(tx, ref);
    SettledLocal(begin, ref);
    LocalKeys(begin, end, ref);
    HalfAtStart(begin, end, ref, todo);
    while todo != {}
      invariant forall k <- todo :: k in begin.limits && k.ref == ref
      invariant Half(begin, tx.Counters(), end, ref, todo)
      decreases todo
    {
      var k :| k in todo;
      ReleaseNext(begin, tx.Counters(), ref, todo, k);
      ReleaseOne(tx, k);
      todo := todo - {k};
    }
    HalfAtEnd(begin, tx.Counters(), end, ref);
  }
}
