/** LimitsService: counters of reserved and used volume, and the reservation rows behind them. */
module Limits {
  import opened Base
  import opened Sums
  import opened Policy

  datatype Scope = All | OfProduct(product: Id) | OfInstrument(instr: Instrument)

  datatype PeriodKey = Day(day: nat) | Month(month: nat)

  datatype UsageKey = UsageKey(user: UserId, action: Action, metric: Metric, period: PeriodKey, scope: Scope)

  datatype Usage = Usage(used: int, reserved: int)

  datatype LimitKey = LimitKey(ref: Ref, usage: UsageKey)

  datatype Quota = Quota(usages: map<UsageKey, Usage>, limits: map<LimitKey, Hold>)

  /** The day and the month whose usages a request is charged to. */
  datatype Stamp = Stamp(day: nat, month: nat)

  /** The limit that the policy rules resolve to, where there is one. */
  type Policies = map<UsageKey, Applicable>

  // ---------------------------------------------------------------- operations

  function Counter(q: Quota, u: UsageKey): Usage {
    if u in q.usages then q.usages[u] else Usage(0, 0)
  }

  function SetCounter(q: Quota, u: UsageKey, row: Usage): Quota {
    q.(usages := q.usages[u := row])
  }

  function Reserve(q0: Quota, u: UsageKey, amount: int, ref: Ref, policy: Applicable): Result<Quota> {
    var row := Counter(q0, u);
    var q := SetCounter(q0, u, row);
    if policy.value.None? && policy.kycRequired.Some? then
      Err(KycRequired)
    else if policy.value.Some? && row.used + row.reserved + amount > policy.value.value then
      Err(LimitExceeded)
    else if LimitKey(ref, u) in q.limits then
      Ok(q)
    else
      Ok(SetCounter(q.(limits := q.limits[LimitKey(ref, u) := Hold(amount, Reserved)]), u,
                    row.(reserved := row.reserved + amount)))
  }

  function PolicyFor(policies: Policies, u: UsageKey): Applicable {
    if u in policies then policies[u] else Applicable(None, None)
  }

  function DayKey(user: UserId, action: Action, metric: Metric, scope: Scope, at: Stamp): UsageKey {
    UsageKey(user, action, metric, Day(at.day), scope)
  }

  function MonthKey(user: UserId, action: Action, metric: Metric, scope: Scope, at: Stamp): UsageKey {
    UsageKey(user, action, metric, Month(at.month), scope)
  }

  /** Every request is charged twice: to its day, then to its month. */
  function ReserveBoth(q: Quota, user: UserId, action: Action, metric: Metric, scope: Scope, at: Stamp,
                       amount: int, ref: Ref, policies: Policies): Result<Quota>
  {
    var (day, month) := (DayKey(user, action, metric, scope, at), MonthKey(user, action, metric, scope, at));
    var q1 :- Reserve(q, day, amount, ref, PolicyFor(policies, day));
    Reserve(q1, month, amount, ref, PolicyFor(policies, month))
  }

  /** Every reservation of `ref` that is not consumed yet becomes consumed, on whatever usage it sits. */
  function Consume(q: Quota, ref: Ref): Quota {
    Quota(
      map u | u in q.usages ::
        var k := LimitKey(ref, u);
        if k in q.limits && q.limits[k].status != Consumed
        then Usage(q.usages[u].used + q.limits[k].amount, q.usages[u].reserved - q.limits[k].amount)
        else q.usages[u],
      map k | k in q.limits ::
        if k.ref == ref && k.usage in q.usages then q.limits[k].(status := Consumed) else q.limits[k])
  }

  /** Every reservation of `ref` that is still reserved becomes released. */
  function Release(q: Quota, ref: Ref): Quota {
    Quota(
      map u | u in q.usages ::
        var k := LimitKey(ref, u);
        if k in q.limits && q.limits[k].status == Reserved
        then q.usages[u].(reserved := q.usages[u].reserved - q.limits[k].amount)
        else q.usages[u],
      map k | k in q.limits ::
        if k.ref == ref && k.usage in q.usages && q.limits[k].status == Reserved
        then q.limits[k].(status := Released) else q.limits[k])
  }

  /** A slice of `amount` moves from every reservation of `whole` to a new reservation of `part`. */
  function Split(q: Quota, whole: Ref, part: Ref, amount: int): Quota {
    q.(limits :=
      (map k | k in q.limits ::
       if k.ref == whole then q.limits[k].(amount := q.limits[k].amount - amount) else q.limits[k]) +
      (map k | k in q.limits && k.ref == whole :: LimitKey(part, k.usage) := Hold(amount, q.limits[k].status)))
  }

  /** The reservations of `part` disappear, and `amount` goes back to those of `whole` on the same usages. */
  function Merge(q: Quota, whole: Ref, part: Ref, amount: int): Quota {
    q.(limits := map k | k in q.limits && k.ref != part ::
      if k.ref == whole && LimitKey(part, k.usage) in q.limits
      then q.limits[k].(amount := q.limits[k].amount + amount) else q.limits[k])
  }

  // ---------------------------------------------------------------- what the counters mean

  function LimitsOf(limits: map<LimitKey, Hold>, ref: Ref): map<UsageKey, Hold> {
    map k | k in limits && k.ref == ref :: k.usage := limits[k]
  }

  function Both(user: UserId, action: Action, metric: Metric, scope: Scope, at: Stamp, h: Hold): map<UsageKey, Hold> {
    map[DayKey(user, action, metric, scope, at) := h, MonthKey(user, action, metric, scope, at) := h]
  }

  function WithStatus(holds: map<UsageKey, Hold>, status: HoldStatus): map<UsageKey, Hold> {
    map u | u in holds :: holds[u].(status := status)
  }

  function Grown(holds: map<UsageKey, Hold>, extra: int): map<UsageKey, Hold> {
    map u | u in holds :: holds[u].(amount := holds[u].amount + extra)
  }

  function WithAmount(holds: map<UsageKey, Hold>, amount: int): map<UsageKey, Hold> {
    map u | u in holds :: holds[u].(amount := amount)
  }

  /** Weight of a reservation in the counter of usage `u` that keeps `status`. */
  function CountedOn(u: UsageKey, status: HoldStatus): (LimitKey, Hold) -> int {
    (k: LimitKey, h: Hold) => if k.usage == u && h.status == status then h.amount else 0
  }

  ghost predicate CounterSound(q: Quota, u: UsageKey) {
    && Counter(q, u).reserved == Total(q.limits, CountedOn(u, Reserved))
    && Counter(q, u).used == Total(q.limits, CountedOn(u, Consumed))
  }

  ghost predicate QuotaSound(q: Quota) {
    && (forall k <- q.limits :: k.usage in q.usages && q.limits[k].amount >= 0)
    && (forall u: UsageKey :: CounterSound(q, u))
  }

  ghost predicate SameLimits(q: Quota, q': Quota, ref: Ref) {
    LimitsOf(q'.limits, ref) == LimitsOf(q.limits, ref)
  }

  /** Going from `q` to `q'` keeps the counters sound, leaves `ref` with exactly the reservations `holds`
      and touches no other reference. */
  ghost predicate QuotaEffect(q: Quota, q': Quota, ref: Ref, holds: map<UsageKey, Hold>) {
    && QuotaSound(q')
    && LimitsOf(q'.limits, ref) == holds
    && (forall r | r != ref :: SameLimits(q, q', r))
  }

  /** Volume used and reserved on a usage stays within a cap. */
  predicate Within(q: Quota, u: UsageKey, cap: int) {
    Counter(q, u).used + Counter(q, u).reserved <= cap
  }

  // ---------------------------------------------------------------- lemmas

  /** What one reservation row counts for on usage `u`. */
  function Share(q: Quota, k: LimitKey, u: UsageKey, status: HoldStatus): int {
    if k in q.limits && k.usage == u && q.limits[k].status == status then q.limits[k].amount else 0
  }

  ghost predicate AgreeOutside(q: Quota, q': Quota, ref: Ref, other: Ref) {
    forall k: LimitKey | k.ref != ref && k.ref != other ::
      (k in q.limits <==> k in q'.limits) && (k in q.limits ==> q.limits[k] == q'.limits[k])
  }

  /** When only the rows of `ref` and `other` differ, a counter moves by what their two rows on that usage count for. */
  lemma CountedAfter(q: Quota, q': Quota, ref: Ref, other: Ref, u: UsageKey, status: HoldStatus)
    requires ref != other && AgreeOutside(q, q', ref, other)
    ensures var (k, l) := (LimitKey(ref, u), LimitKey(other, u));
            Total(q'.limits, CountedOn(u, status)) == Total(q.limits, CountedOn(u, status))
              - Share(q, k, u, status) - Share(q, l, u, status) + Share(q', k, u, status) + Share(q', l, u, status)
  {
    ChangeTwo(q.limits, q'.limits, CountedOn(u, status), LimitKey(ref, u), LimitKey(other, u));
  }

  /** The counter of `u` moved by what the rows of `ref` and `other` on it count for. */
  ghost predicate CounterMoved(q: Quota, q': Quota, ref: Ref, other: Ref, u: UsageKey) {
    var (k, l) := (LimitKey(ref, u), LimitKey(other, u));
    && Counter(q', u).reserved == Counter(q, u).reserved
         - Share(q, k, u, Reserved) - Share(q, l, u, Reserved) + Share(q', k, u, Reserved) + Share(q', l, u, Reserved)
    && Counter(q', u).used == Counter(q, u).used
         - Share(q, k, u, Consumed) - Share(q, l, u, Consumed) + Share(q', k, u, Consumed) + Share(q', l, u, Consumed)
  }

  lemma CounterAfter(q: Quota, q': Quota, ref: Ref, other: Ref, u: UsageKey)
    requires QuotaSound(q) && ref != other && AgreeOutside(q, q', ref, other)
    requires CounterMoved(q, q', ref, other, u)
    ensures CounterSound(q', u)
  {
    hide Total, AgreeOutside, Share;
    assert CounterSound(q, u);
    CountedAfter(q, q', ref, other, u, Reserved);
    CountedAfter(q, q', ref, other, u, Consumed);
  }

  /** `LimitsOf` reads the rows of its reference. */
  lemma LimitsRead(limits: map<LimitKey, Hold>, ref: Ref)
    ensures forall u :: u in LimitsOf(limits, ref) <==> LimitKey(ref, u) in limits
    ensures forall u <- LimitsOf(limits, ref) :: LimitsOf(limits, ref)[u] == limits[LimitKey(ref, u)]
  {
  }

  /** Rows that agree outside two references give all other references the same reservations. */
  lemma LimitsAgree(q: Quota, q': Quota, ref: Ref, other: Ref)
    requires AgreeOutside(q, q', ref, other)
    ensures forall r | r != ref && r != other :: SameLimits(q, q', r)
  {
    forall r | r != ref && r != other ensures SameLimits(q, q', r) {
      hide LimitsOf;
      LimitsRead(q.limits, r);
      LimitsRead(q'.limits, r);
    }
  }

  /** A reference other than `ref`, to read the two-reference lemmas with one. */
  function Another(ref: Ref): Ref {
    if ref.Adjustment? then Withdraw(0) else Adjustment(0)
  }

  /** From the rows alone: if only those of `ref` changed, the other references kept theirs. */
  lemma OneReference(q: Quota, q': Quota, ref: Ref)
    requires QuotaSound(q')
    requires AgreeOutside(q, q', ref, ref)
    ensures QuotaEffect(q, q', ref, LimitsOf(q'.limits, ref))
  {
    hide LimitsOf, QuotaSound, SameLimits;
    LimitsAgree(q, q', ref, ref);
  }

  lemma ReserveSound(q: Quota, u: UsageKey, amount: int, ref: Ref, policy: Applicable)
    requires QuotaSound(q) && amount >= 0
    requires Reserve(q, u, amount, ref, policy).Ok?
    ensures QuotaSound(Reserve(q, u, amount, ref, policy).value)
  {
    hide Total, CounterSound;
    var q' := Reserve(q, u, amount, ref, policy).value;
    forall v ensures CounterSound(q', v) {
      CounterAfter(q, q', ref, Another(ref), v);
    }
  }

  lemma ReserveWrites(q: Quota, u: UsageKey, amount: int, ref: Ref, policy: Applicable)
    requires Reserve(q, u, amount, ref, policy).Ok?
    ensures Reserve(q, u, amount, ref, policy).value.limits ==
              if LimitKey(ref, u) in q.limits then q.limits else q.limits[LimitKey(ref, u) := Hold(amount, Reserved)]
  {
  }

  lemma ReserveLimitEffect(q: Quota, u: UsageKey, amount: int, ref: Ref, policy: Applicable)
    requires QuotaSound(q) && amount >= 0
    requires Reserve(q, u, amount, ref, policy).Ok?
    ensures QuotaEffect(q, Reserve(q, u, amount, ref, policy).value, ref,
                        if LimitKey(ref, u) in q.limits then LimitsOf(q.limits, ref)
                        else LimitsOf(q.limits, ref)[u := Hold(amount, Reserved)])
  {
    ReserveSound(q, u, amount, ref, policy);
    ReserveWrites(q, u, amount, ref, policy);
    hide LimitsOf, QuotaSound, QuotaEffect, Reserve;
    var q' := Reserve(q, u, amount, ref, policy).value;
    OneReference(q, q', ref);
    assert LimitsOf(q'.limits, ref) ==
           if LimitKey(ref, u) in q.limits then LimitsOf(q.limits, ref)
           else LimitsOf(q.limits, ref)[u := Hold(amount, Reserved)]
    by {
      LimitsRead(q.limits, ref);
      LimitsRead(q'.limits, ref);
    }
  }

  /** A second reservation of the same reference on a usage leaves the first one as it was. */
  lemma ReserveBothEffect(q: Quota, user: UserId, action: Action, metric: Metric, scope: Scope, at: Stamp,
                          amount: int, ref: Ref, policies: Policies)
    requires QuotaSound(q) && amount >= 0
    requires ReserveBoth(q, user, action, metric, scope, at, amount, ref, policies).Ok?
    ensures QuotaEffect(q, ReserveBoth(q, user, action, metric, scope, at, amount, ref, policies).value, ref,
                        Both(user, action, metric, scope, at, Hold(amount, Reserved)) + LimitsOf(q.limits, ref))
  {
    hide LimitsOf, QuotaSound, Reserve;
    var (day, month) := (DayKey(user, action, metric, scope, at), MonthKey(user, action, metric, scope, at));
    var q1 := Reserve(q, day, amount, ref, PolicyFor(policies, day)).value;
    var q2 := Reserve(q1, month, amount, ref, PolicyFor(policies, month)).value;
    ReserveLimitEffect(q, day, amount, ref, PolicyFor(policies, day));
    ReserveLimitEffect(q1, month, amount, ref, PolicyFor(policies, month));
    LimitsRead(q.limits, ref);
    LimitsRead(q1.limits, ref);
    assert LimitsOf(q2.limits, ref) ==
           Both(user, action, metric, scope, at, Hold(amount, Reserved)) + LimitsOf(q.limits, ref);
    forall r | r != ref ensures SameLimits(q, q2, r) {
      assert SameLimits(q, q1, r) && SameLimits(q1, q2, r);
    }
  }

  /** What `Consume` does to one usage and one row. */
  lemma ConsumeAt(q: Quota, ref: Ref, u: UsageKey)
    requires QuotaSound(q)
    ensures var (q', k) := (Consume(q, ref), LimitKey(ref, u));
            && (k in q'.limits <==> k in q.limits)
            && (k in q.limits ==> q'.limits[k] == q.limits[k].(status := Consumed))
            && Counter(q', u) ==
                 if k in q.limits && q.limits[k].status != Consumed
                 then Usage(Counter(q, u).used + q.limits[k].amount, Counter(q, u).reserved - q.limits[k].amount)
                 else Counter(q, u)
  {
    hide CounterSound;
  }

  lemma ConsumeAgrees(q: Quota, ref: Ref)
    ensures Consume(q, ref).limits.Keys == q.limits.Keys && Consume(q, ref).usages.Keys == q.usages.Keys
    ensures forall k <- q.limits :: Consume(q, ref).limits[k].amount == q.limits[k].amount
    ensures forall other :: AgreeOutside(q, Consume(q, ref), ref, other)
  {
  }

  lemma ConsumeSound(q: Quota, ref: Ref)
    requires QuotaSound(q)
    requires forall u <- LimitsOf(q.limits, ref) :: LimitsOf(q.limits, ref)[u].status != Released
    ensures QuotaSound(Consume(q, ref))
  {
    hide Consume, CounterSound, LimitsOf;
    ConsumeAgrees(q, ref);
    assert AgreeOutside(q, Consume(q, ref), ref, ref);
    forall u ensures CounterSound(Consume(q, ref), u) {
      LimitsRead(q.limits, ref);
      ConsumeAt(q, ref, u);
      CounterAfter(q, Consume(q, ref), ref, Another(ref), u);
    }
  }

  lemma ConsumeLimitEffect(q: Quota, ref: Ref)
    requires QuotaSound(q)
    requires forall u <- LimitsOf(q.limits, ref) :: LimitsOf(q.limits, ref)[u].status != Released
    ensures QuotaEffect(q, Consume(q, ref), ref, WithStatus(LimitsOf(q.limits, ref), Consumed))
  {
    hide LimitsOf, Consume, QuotaSound;
    var q' := Consume(q, ref);
    ConsumeSound(q, ref);
    ConsumeAgrees(q, ref);
    assert LimitsOf(q'.limits, ref) == WithStatus(LimitsOf(q.limits, ref), Consumed) by {
      LimitsRead(q.limits, ref);
      LimitsRead(q'.limits, ref);
      forall u <- LimitsOf(q.limits, ref) ensures LimitsOf(q'.limits, ref)[u] ==
             LimitsOf(q.limits, ref)[u].(status := Consumed) {
        ConsumeAt(q, ref, u);
      }
    }
    hide WithStatus;
    OneReference(q, q', ref);
  }

  /** What `Release` does to one usage and one row. */
  lemma ReleaseAt(q: Quota, ref: Ref, u: UsageKey)
    requires QuotaSound(q)
    ensures var (q', k) := (Release(q, ref), LimitKey(ref, u));
            && (k in q'.limits <==> k in q.limits)
            && (k in q.limits ==>
                q'.limits[k] == if q.limits[k].status == Reserved then q.limits[k].(status := Released)
                else q.limits[k])
            && Counter(q', u) ==
                 if k in q.limits && q.limits[k].status == Reserved
                 then Counter(q, u).(reserved := Counter(q, u).reserved - q.limits[k].amount)
                 else Counter(q, u)
  {
    hide CounterSound;
  }

  lemma ReleaseAgrees(q: Quota, ref: Ref)
    ensures Release(q, ref).limits.Keys == q.limits.Keys && Release(q, ref).usages.Keys == q.usages.Keys
    ensures forall k <- q.limits :: Release(q, ref).limits[k].amount == q.limits[k].amount
    ensures forall other :: AgreeOutside(q, Release(q, ref), ref, other)
  {
  }

  lemma ReleaseSound(q: Quota, ref: Ref)
    requires QuotaSound(q)
    requires forall u <- LimitsOf(q.limits, ref) :: LimitsOf(q.limits, ref)[u].status == Reserved
    ensures QuotaSound(Release(q, ref))
  {
    hide Release, CounterSound, LimitsOf;
    ReleaseAgrees(q, ref);
    assert AgreeOutside(q, Release(q, ref), ref, ref);
    forall u ensures CounterSound(Release(q, ref), u) {
      LimitsRead(q.limits, ref);
      ReleaseAt(q, ref, u);
      CounterAfter(q, Release(q, ref), ref, Another(ref), u);
    }
  }

  lemma ReleaseLimitEffect(q: Quota, ref: Ref)
    requires QuotaSound(q)
    requires forall u <- LimitsOf(q.limits, ref) :: LimitsOf(q.limits, ref)[u].status == Reserved
    ensures QuotaEffect(q, Release(q, ref), ref, WithStatus(LimitsOf(q.limits, ref), Released))
  {
    hide LimitsOf, Release, QuotaSound;
    var q' := Release(q, ref);
    ReleaseSound(q, ref);
    ReleaseAgrees(q, ref);
    assert LimitsOf(q'.limits, ref) == WithStatus(LimitsOf(q.limits, ref), Released) by {
      LimitsRead(q.limits, ref);
      LimitsRead(q'.limits, ref);
      forall u <- LimitsOf(q.limits, ref) ensures LimitsOf(q'.limits, ref)[u] ==
             LimitsOf(q.limits, ref)[u].(status := Released) {
        ReleaseAt(q, ref, u);
      }
    }
    hide WithStatus;
    OneReference(q, q', ref);
  }

  /** What `Split` does to the two rows of one usage. */
  lemma SplitAt(q: Quota, whole: Ref, part: Ref, amount: int, u: UsageKey)
    requires whole != part
    ensures var (q', k, l) := (Split(q, whole, part, amount), LimitKey(whole, u), LimitKey(part, u));
            && (k in q'.limits <==> k in q.limits)
            && (k in q.limits ==> q'.limits[k] == q.limits[k].(amount := q.limits[k].amount - amount))
            && (l in q'.limits <==> k in q.limits || l in q.limits)
            && (k in q.limits ==> q'.limits[l] == q.limits[k].(amount := amount))
  {
  }

  lemma SplitAgrees(q: Quota, whole: Ref, part: Ref, amount: int)
    ensures AgreeOutside(q, Split(q, whole, part, amount), whole, part)
    ensures Split(q, whole, part, amount).usages == q.usages
  {
  }

  lemma SplitSound(q: Quota, whole: Ref, part: Ref, amount: int)
    requires QuotaSound(q) && whole != part && amount >= 0
    requires LimitsOf(q.limits, part) == map[]
    requires forall u <- LimitsOf(q.limits, whole) :: LimitsOf(q.limits, whole)[u].amount >= amount
    ensures QuotaSound(Split(q, whole, part, amount))
  {
    hide LimitsOf, Split, CounterSound;
    var q' := Split(q, whole, part, amount);
    LimitsRead(q.limits, whole);
    LimitsRead(q.limits, part);
    SplitAgrees(q, whole, part, amount);
    forall u ensures CounterSound(q', u) {
      SplitAt(q, whole, part, amount, u);
      hide AgreeOutside;
      CounterAfter(q, q', whole, part, u);
    }
    forall k <- q'.limits ensures k.usage in q'.usages && q'.limits[k].amount >= 0 {
      SplitAt(q, whole, part, amount, k.usage);
    }
  }

  lemma SplitLimitEffect(q: Quota, whole: Ref, part: Ref, amount: int)
    requires QuotaSound(q) && whole != part && amount >= 0
    requires LimitsOf(q.limits, part) == map[]
    requires forall u <- LimitsOf(q.limits, whole) :: LimitsOf(q.limits, whole)[u].amount >= amount
    ensures var q' := Split(q, whole, part, amount);
            && QuotaSound(q')
            && LimitsOf(q'.limits, whole) == Grown(LimitsOf(q.limits, whole), -amount)
            && LimitsOf(q'.limits, part) == WithAmount(LimitsOf(q.limits, whole), amount)
            && forall r | r != whole && r != part :: SameLimits(q, q', r)
  {
    hide LimitsOf, Split, QuotaSound, SameLimits, AgreeOutside;
    var q' := Split(q, whole, part, amount);
    SplitSound(q, whole, part, amount);
    SplitAgrees(q, whole, part, amount);
    LimitsAgree(q, q', whole, part);
    LimitsRead(q.limits, whole);
    LimitsRead(q.limits, part);
    LimitsRead(q'.limits, whole);
    LimitsRead(q'.limits, part);
    forall u {
      SplitAt(q, whole, part, amount, u);
    }
    assert LimitsOf(q'.limits, part) == WithAmount(LimitsOf(q.limits, whole), amount);
    assert LimitsOf(q'.limits, whole) == Grown(LimitsOf(q.limits, whole), -amount);
  }

  /** What `Merge` does to the two rows of one usage. */
  lemma MergeAt(q: Quota, whole: Ref, part: Ref, amount: int, u: UsageKey)
    requires whole != part
    ensures var (q', k, l) := (Merge(q, whole, part, amount), LimitKey(whole, u), LimitKey(part, u));
            && l !in q'.limits
            && (k in q'.limits <==> k in q.limits)
            && (k in q.limits && l in q.limits ==> q'.limits[k] == q.limits[k].(amount := q.limits[k].amount + amount))
            && (k in q.limits && l !in q.limits ==> q'.limits[k] == q.limits[k])
  {
  }

  lemma MergeAgrees(q: Quota, whole: Ref, part: Ref, amount: int)
    ensures AgreeOutside(q, Merge(q, whole, part, amount), whole, part)
    ensures Merge(q, whole, part, amount).usages == q.usages
  {
  }

  lemma MergeSound(q: Quota, whole: Ref, part: Ref, amount: int)
    requires QuotaSound(q) && whole != part && amount >= 0
    requires LimitsOf(q.limits, part) == WithAmount(LimitsOf(q.limits, whole), amount)
    ensures QuotaSound(Merge(q, whole, part, amount))
  {
    hide LimitsOf, Merge, CounterSound;
    var q' := Merge(q, whole, part, amount);
    LimitsRead(q.limits, whole);
    LimitsRead(q.limits, part);
    MergeAgrees(q, whole, part, amount);
    forall u ensures CounterSound(q', u) {
      MergeAt(q, whole, part, amount, u);
      hide AgreeOutside;
      CounterAfter(q, q', whole, part, u);
    }
    forall k <- q'.limits ensures k.usage in q'.usages && q'.limits[k].amount >= 0 {
      MergeAt(q, whole, part, amount, k.usage);
    }
  }

  lemma MergeLimitEffect(q: Quota, whole: Ref, part: Ref, amount: int)
    requires QuotaSound(q) && whole != part && amount >= 0
    requires LimitsOf(q.limits, part) == WithAmount(LimitsOf(q.limits, whole), amount)
    ensures var q' := Merge(q, whole, part, amount);
            && QuotaSound(q')
            && LimitsOf(q'.limits, whole) == Grown(LimitsOf(q.limits, whole), amount)
            && LimitsOf(q'.limits, part) == map[]
            && forall r | r != whole && r != part :: SameLimits(q, q', r)
  {
    hide LimitsOf, Merge, QuotaSound, SameLimits, AgreeOutside;
    var q' := Merge(q, whole, part, amount);
    MergeSound(q, whole, part, amount);
    MergeAgrees(q, whole, part, amount);
    LimitsAgree(q, q', whole, part);
    LimitsRead(q.limits, whole);
    LimitsRead(q.limits, part);
    LimitsRead(q'.limits, whole);
    LimitsRead(q'.limits, part);
    forall u {
      MergeAt(q, whole, part, amount, u);
    }
    assert LimitsOf(q'.limits, part) == map[];
    assert LimitsOf(q'.limits, whole) == Grown(LimitsOf(q.limits, whole), amount);
  }

  lemma BothWithStatus(user: UserId, action: Action, metric: Metric, scope: Scope, at: Stamp, h: Hold,
                       status: HoldStatus)
    ensures WithStatus(Both(user, action, metric, scope, at, h), status)
         == Both(user, action, metric, scope, at, h.(status := status))
  {
  }

  /** A request charged to its day and its month has both consumed, or both released, at once. */
  lemma SettleBoth(q: Quota, ref: Ref, user: UserId, action: Action, metric: Metric, scope: Scope, at: Stamp,
                   amount: int)
    requires QuotaSound(q)
    requires LimitsOf(q.limits, ref) == Both(user, action, metric, scope, at, Hold(amount, Reserved))
    ensures QuotaEffect(q, Consume(q, ref), ref, Both(user, action, metric, scope, at, Hold(amount, Consumed)))
    ensures QuotaEffect(q, Release(q, ref), ref, Both(user, action, metric, scope, at, Hold(amount, Released)))
  {
    hide LimitsOf, QuotaEffect, QuotaSound, Consume, Release;
    ConsumeLimitEffect(q, ref);
    ReleaseLimitEffect(q, ref);
    BothWithStatus(user, action, metric, scope, at, Hold(amount, Reserved), Consumed);
    BothWithStatus(user, action, metric, scope, at, Hold(amount, Reserved), Released);
  }

  /** Releasing what is released already changes nothing. */
  lemma ReleaseTwice(q: Quota, ref: Ref)
    requires QuotaSound(q)
    requires forall u <- LimitsOf(q.limits, ref) :: LimitsOf(q.limits, ref)[u].status == Released
    ensures Release(q, ref) == q
  {
    hide QuotaSound, LimitsOf;
    LimitsRead(q.limits, ref);
    assert Release(q, ref).usages == q.usages;
    assert Release(q, ref).limits == q.limits;
  }

  lemma ReleasedBoth(q: Quota, ref: Ref, user: UserId, action: Action, metric: Metric, scope: Scope, at: Stamp,
                     amount: int)
    requires QuotaSound(q)
    requires LimitsOf(q.limits, ref) == Both(user, action, metric, scope, at, Hold(amount, Released))
    ensures QuotaEffect(q, Release(q, ref), ref, Both(user, action, metric, scope, at, Hold(amount, Released)))
  {
    hide LimitsOf, QuotaSound, Release;
    ReleaseTwice(q, ref);
  }

  lemma ReserveBothFresh(q: Quota, user: UserId, action: Action, metric: Metric, scope: Scope, at: Stamp,
                         amount: int, ref: Ref, policies: Policies)
    requires QuotaSound(q) && amount >= 0 && LimitsOf(q.limits, ref) == map[]
    requires ReserveBoth(q, user, action, metric, scope, at, amount, ref, policies).Ok?
    ensures QuotaEffect(q, ReserveBoth(q, user, action, metric, scope, at, amount, ref, policies).value, ref,
                        Both(user, action, metric, scope, at, Hold(amount, Reserved)))
  {
    hide LimitsOf, QuotaSound, QuotaEffect, ReserveBoth, Both;
    ReserveBothEffect(q, user, action, metric, scope, at, amount, ref, policies);
    var both := Both(user, action, metric, scope, at, Hold(amount, Reserved));
    assert both + map[] == both;
  }

  /** No operation takes a usage over a cap, as long as each reservation on it was checked against
      a limit no greater than the cap. */
  lemma ReserveCap(q: Quota, u: UsageKey, cap: int, v: UsageKey, amount: int, ref: Ref, policy: Applicable)
    requires Within(q, u, cap) && Reserve(q, v, amount, ref, policy).Ok?
    requires u == v ==> policy.value.Some? && policy.value.value <= cap
    ensures Within(Reserve(q, v, amount, ref, policy).value, u, cap)
  {
  }

  lemma SettleCap(q: Quota, u: UsageKey, cap: int, ref: Ref, part: Ref, amount: int)
    requires QuotaSound(q) && Within(q, u, cap)
    ensures Within(Consume(q, ref), u, cap) && Within(Release(q, ref), u, cap)
    ensures Within(Split(q, ref, part, amount), u, cap) && Within(Merge(q, ref, part, amount), u, cap)
  {
    AmountsSound(q);
    hide QuotaSound, Consume, Release, Split, Merge;
    ConsumeAt(q, ref, u);
    ReleaseAt(q, ref, u);
    SplitAgrees(q, ref, part, amount);
    MergeAgrees(q, ref, part, amount);
  }

  lemma AmountsSound(q: Quota)
    requires QuotaSound(q)
    ensures forall k <- q.limits :: q.limits[k].amount >= 0
  {
    hide CounterSound;
  }

  // ---------------------------------------------------------------- when a reservation is allowed

  /** Nothing is refused for want of KYC, and what is used, reserved and asked for fits the limit, where there is
      one. */
  predicate Allows(q: Quota, u: UsageKey, amount: int, policy: Applicable) {
    && (policy.value.None? ==> policy.kycRequired.None?)
    && (policy.value.Some? ==> Counter(q, u).used + Counter(q, u).reserved + amount <= policy.value.value)
  }

  predicate BothAllow(q: Quota, user: UserId, action: Action, metric: Metric, scope: Scope, at: Stamp, amount: int,
                      policies: Policies)
  {
    var (day, month) := (DayKey(user, action, metric, scope, at), MonthKey(user, action, metric, scope, at));
    Allows(q, day, amount, PolicyFor(policies, day)) && Allows(q, month, amount, PolicyFor(policies, month))
  }

  lemma ReserveOneIff(q: Quota, u: UsageKey, amount: int, ref: Ref, policy: Applicable)
    ensures Reserve(q, u, amount, ref, policy).Ok? <==> Allows(q, u, amount, policy)
    ensures Reserve(q, u, amount, ref, policy).Ok? ==>
            forall v | v != u :: Counter(Reserve(q, u, amount, ref, policy).value, v) == Counter(q, v)
  {
  }

  /** A request is charged exactly when its day and its month both allow it, as they are before it. */
  lemma ReserveBothIff(q: Quota, user: UserId, action: Action, metric: Metric, scope: Scope, at: Stamp, amount: int,
                       ref: Ref, policies: Policies)
    ensures ReserveBoth(q, user, action, metric, scope, at, amount, ref, policies).Ok?
       <==> BothAllow(q, user, action, metric, scope, at, amount, policies)
  {
    hide Reserve, Counter;
    var (day, month) := (DayKey(user, action, metric, scope, at), MonthKey(user, action, metric, scope, at));
    ReserveOneIff(q, day, amount, ref, PolicyFor(policies, day));
    if Reserve(q, day, amount, ref, PolicyFor(policies, day)).Ok? {
      ReserveOneIff(Reserve(q, day, amount, ref, PolicyFor(policies, day)).value, month, amount, ref,
                    PolicyFor(policies, month));
    }
  }

  lemma CountersElsewhere(q: Quota, user: UserId, action: Action, metric: Metric, scope: Scope, at: Stamp, amount: int,
                          ref: Ref, policies: Policies, u: UsageKey)
    requires ReserveBoth(q, user, action, metric, scope, at, amount, ref, policies).Ok?
    requires u.scope != scope
    ensures Counter(ReserveBoth(q, user, action, metric, scope, at, amount, ref, policies).value, u) == Counter(q, u)
  {
    hide Reserve, Counter;
    var (day, month) := (DayKey(user, action, metric, scope, at), MonthKey(user, action, metric, scope, at));
    ReserveOneIff(q, day, amount, ref, PolicyFor(policies, day));
    ReserveOneIff(Reserve(q, day, amount, ref, PolicyFor(policies, day)).value, month, amount, ref,
                  PolicyFor(policies, month));
  }

  lemma SameAllowed(q: Quota, q': Quota, user: UserId, action: Action, metric: Metric, scope: Scope, at: Stamp,
                    amount: int, policies: Policies)
    requires Counter(q', DayKey(user, action, metric, scope, at)) == Counter(q, DayKey(user, action, metric, scope, at))
    requires Counter(q', MonthKey(user, action, metric, scope, at)) ==
             Counter(q, MonthKey(user, action, metric, scope, at))
    ensures BothAllow(q', user, action, metric, scope, at, amount, policies) <==>
            BothAllow(q, user, action, metric, scope, at, amount, policies)
  {
  }

  // ---------------------------------------------------------------- what a request is charged to

  /** The usages of a request: its user's, for its action, metric and scope, on its day and in its month. */
  predicate UsageOf(user: UserId, action: Action, metric: Metric, scope: Scope, at: Stamp, u: UsageKey) {
    && u.user == user && u.action == action && u.metric == metric && u.scope == scope
    && (u.period == Day(at.day) || u.period == Month(at.month))
  }

  /** The reservations that go with a request sit on its usages, all alike. */
  lemma BothOnUsages(user: UserId, action: Action, metric: Metric, scope: Scope, at: Stamp, h: Hold, u: UsageKey)
    ensures var both := Both(user, action, metric, scope, at, h);
            (u in both <==> UsageOf(user, action, metric, scope, at, u)) && (u in both ==> both[u] == h)
  {
  }

  /** A request is charged exactly when each of its usages allows the amount. */
  lemma ChargedIff(q: Quota, user: UserId, action: Action, metric: Metric, scope: Scope, at: Stamp, amount: int,
                   ref: Ref, policies: Policies)
    ensures ReserveBoth(q, user, action, metric, scope, at, amount, ref, policies).Ok? <==>
            forall u | UsageOf(user, action, metric, scope, at, u) :: Allows(q, u, amount, PolicyFor(policies, u))
  {
    hide Allows, ReserveBoth;
    ReserveBothIff(q, user, action, metric, scope, at, amount, ref, policies);
    var (day, month) := (UsageKey(user, action, metric, Day(at.day), scope),
                         UsageKey(user, action, metric, Month(at.month), scope));
    assert UsageOf(user, action, metric, scope, at, day) && UsageOf(user, action, metric, scope, at, month);
  }

  lemma ReserveFreshCounter(q: Quota, v: UsageKey, amount: int, ref: Ref, policy: Applicable, u: UsageKey)
    requires LimitKey(ref, v) !in q.limits && Reserve(q, v, amount, ref, policy).Ok?
    ensures var q' := Reserve(q, v, amount, ref, policy).value;
            && Counter(q', u).used == Counter(q, u).used
            && Counter(q', u).reserved == Counter(q, u).reserved + (if u == v then amount else 0)
            && q'.limits == q.limits[LimitKey(ref, v) := Hold(amount, Reserved)]
  {
  }

  /** Then each of its usages has the amount reserved, once, and no other usage notices. */
  lemma ChargedExactly(q: Quota, user: UserId, action: Action, metric: Metric, scope: Scope, at: Stamp, amount: int,
                       ref: Ref, policies: Policies, u: UsageKey)
    requires LimitsOf(q.limits, ref) == map[]
    requires ReserveBoth(q, user, action, metric, scope, at, amount, ref, policies).Ok?
    ensures var (q', charged) := (ReserveBoth(q, user, action, metric, scope, at, amount, ref, policies).value,
                                  UsageOf(user, action, metric, scope, at, u));
            && Counter(q', u).used == Counter(q, u).used
            && Counter(q', u).reserved == Counter(q, u).reserved + (if charged then amount else 0)
            && (LimitKey(ref, u) in q'.limits <==> charged)
            && (charged ==> q'.limits[LimitKey(ref, u)] == Hold(amount, Reserved))
  {
    hide LimitsOf, Counter, Reserve;
    LimitsRead(q.limits, ref);
    var (day, month) := (DayKey(user, action, metric, scope, at), MonthKey(user, action, metric, scope, at));
    assert day !in LimitsOf(q.limits, ref) && month !in LimitsOf(q.limits, ref) && u !in LimitsOf(q.limits, ref);
    ReserveFreshCounter(q, day, amount, ref, PolicyFor(policies, day), u);
    var q1 := Reserve(q, day, amount, ref, PolicyFor(policies, day)).value;
    ReserveFreshCounter(q1, month, amount, ref, PolicyFor(policies, month), u);
  }
}
