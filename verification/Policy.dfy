/** PolicyResolutionService: which rule limits a request. */
module Policy {
  import opened Base

  datatype Action = WithdrawIrr | TradeBuy | TradeSell | RemittanceSend | CustodyIn | CustodyOut

  datatype Metric = NotionalIrr | Weight750 | Count

  datatype Period = Daily | Monthly

  datatype KycLevel = NoKyc | Basic | Full

  datatype ScopeType = UserScope | GroupScope | GlobalScope

  datatype Rule = Rule(
    id: Id, scopeType: ScopeType, scopeUser: Option<UserId>, scopeGroup: Option<Id>,
    action: Action, metric: Metric, period: Period, limit: int, minKyc: KycLevel,
    product: Option<Id>, instr: Option<Instrument>, instrumentType: Option<nat>,
    enabled: bool, priority: Option<int>, updatedAt: int, createdAt: int)

  datatype Context = Context(
    user: UserId, group: Option<Id>, product: Option<Id>, instr: Option<Instrument>, instrumentType: Option<nat>,
    kyc: KycLevel)

  datatype Request = Request(action: Action, metric: Metric, period: Period, context: Context)

  /** What the caller learns: the limit of the selected rule, and the level of KYC that would open more rules. */
  datatype Applicable = Applicable(value: Option<int>, kycRequired: Option<KycLevel>)

  // ---------------------------------------------------------------- matching

  function KycIndex(level: KycLevel): nat {
    match level
    case NoKyc => 0
    case Basic => 1
    case Full => 2
  }

  predicate HasRequiredKyc(level: KycLevel, required: KycLevel) {
    KycIndex(level) >= KycIndex(required)
  }

  predicate MatchesScope(rule: Rule, context: Context) {
    match rule.scopeType
    case UserScope => rule.scopeUser == Some(context.user)
    case GroupScope => rule.scopeGroup == context.group
    case GlobalScope => true
  }

  /** Only the most specific selector that a rule has is looked at. */
  predicate MatchesSelector(rule: Rule, context: Context) {
    if rule.product.Some? then context.product == rule.product
    else if rule.instr.Some? then context.instr == rule.instr
    else if rule.instrumentType.Some? then context.instrumentType == rule.instrumentType
    else true
  }

  function ScopeRank(scope: ScopeType): int {
    match scope
    case UserScope => 0
    case GroupScope => 1
    case GlobalScope => 2
  }

  function SelectorRank(rule: Rule): int {
    if rule.product.Some? then 0
    else if rule.instr.Some? then 1
    else if rule.instrumentType.Some? then 2
    else 3
  }

  function Priority(rule: Rule): int {
    if rule.priority.Some? then rule.priority.value else 100
  }

  /** Negative when `a` goes before `b`. */
  function Compare(a: Rule, b: Rule): int {
    var scopeDiff := ScopeRank(a.scopeType) - ScopeRank(b.scopeType);
    if scopeDiff != 0 then scopeDiff else
      var selectorDiff := SelectorRank(a) - SelectorRank(b);
      if selectorDiff != 0 then selectorDiff else
        var priorityDiff := Priority(a) - Priority(b);
        if priorityDiff != 0 then priorityDiff else
          var updatedDiff := b.updatedAt - a.updatedAt;
          if updatedDiff != 0 then updatedDiff else b.createdAt - a.createdAt
  }

  // ---------------------------------------------------------------- resolution

  function Filter<T(!new)>(xs: seq<T>, keep: T -> bool): (ys: seq<T>)
    ensures forall y :: y in ys <==> y in xs && keep(y)
    ensures |ys| <= |xs|
  {
    if xs == [] then [] else
      var (front, last) := (xs[..|xs| - 1], xs[|xs| - 1]);
      assert forall y :: y in xs <==> y in front || y == last;
      Filter(front, keep) + if keep(last) then [last] else []
  }

  /** Puts `rule` after all rules that do not go after it, so that sorting is stable. */
  function Insert(rules: seq<Rule>, rule: Rule): seq<Rule> {
    if rules == [] then [rule] else
      var last := rules[|rules| - 1];
      if Compare(last, rule) <= 0 then rules + [rule]
      else Insert(rules[..|rules| - 1], rule) + [last]
  }

  function Sort(rules: seq<Rule>): seq<Rule> {
    if rules == [] then [] else Insert(Sort(rules[..|rules| - 1]), rules[|rules| - 1])
  }

  predicate Candidate(rule: Rule, request: Request) {
    && MatchesScope(rule, request.context) && rule.enabled
    && rule.action == request.action && rule.metric == request.metric && rule.period == request.period
    && MatchesSelector(rule, request.context)
  }

  predicate Eligible(rule: Rule, request: Request) {
    Candidate(rule, request) && HasRequiredKyc(request.context.kyc, rule.minKyc)
  }

  function LeastKyc(blocked: seq<Rule>): Option<KycLevel> {
    if blocked == [] then None else
      var (current, cand) := (LeastKyc(blocked[..|blocked| - 1]), blocked[|blocked| - 1].minKyc);
      if current.None? || KycIndex(cand) < KycIndex(current.value) then Some(cand) else current
  }

  function Matching(rules: seq<Rule>, request: Request): seq<Rule> {
    Filter(rules, rule => Eligible(rule, request))
  }

  function Blocked(rules: seq<Rule>, request: Request): seq<Rule> {
    Filter(rules, rule => Candidate(rule, request) && !HasRequiredKyc(request.context.kyc, rule.minKyc))
  }

  function Selected(rules: seq<Rule>, request: Request): Option<Rule> {
    var sorted := Sort(Matching(rules, request));
    if sorted == [] then None else Some(sorted[0])
  }

  function Resolve(rules: seq<Rule>, request: Request): Applicable {
    var selected := Selected(rules, request);
    Applicable(if selected.Some? then Some(selected.value.limit) else None, LeastKyc(Blocked(rules, request)))
  }

  /** The query that loads the rules of a context: a rule of a group is only asked for when the user is in one. */
  predicate Queried(rule: Rule, context: Context) {
    && rule.enabled
    && match rule.scopeType
       case UserScope => rule.scopeUser == Some(context.user)
       case GroupScope => context.group.Some? && rule.scopeGroup == context.group
       case GlobalScope => true
  }

  function LoadRules(rules: seq<Rule>, context: Context): seq<Rule> {
    Filter(rules, rule => Queried(rule, context))
  }

  // ---------------------------------------------------------------- lemmas

  predicate Tied(a: Rule, b: Rule) {
    && ScopeRank(a.scopeType) == ScopeRank(b.scopeType) && SelectorRank(a) == SelectorRank(b)
    && Priority(a) == Priority(b) && a.updatedAt == b.updatedAt && a.createdAt == b.createdAt
  }

  /** The comparison is a total preorder whose ties are the rules that agree on all five keys. */
  lemma ComparePreorder(a: Rule, b: Rule, c: Rule)
    ensures Compare(a, a) == 0
    ensures Compare(a, b) < 0 <==> Compare(b, a) > 0
    ensures Compare(a, b) <= 0 && Compare(b, c) <= 0 ==> Compare(a, c) <= 0
    ensures Compare(a, b) == 0 <==> Tied(a, b)
  {
    hide ScopeRank, SelectorRank, Priority;
  }

  ghost predicate InOrder(rules: seq<Rule>) {
    forall j, k | 0 <= j < k < |rules| :: Compare(rules[j], rules[k]) <= 0
  }

  lemma {:induction false} InsertContents(rules: seq<Rule>, rule: Rule)
    ensures multiset(Insert(rules, rule)) == multiset(rules) + multiset{rule}
  {
    if rules != [] {
      hide Compare;
      var (front, last) := (rules[..|rules| - 1], rules[|rules| - 1]);
      assert rules == front + [last];
      InsertContents(front, rule);
    }
  }

  lemma {:induction false} InsertSorts(rules: seq<Rule>, rule: Rule)
    requires InOrder(rules)
    ensures InOrder(Insert(rules, rule))
  {
    hide Compare;
    if rules != [] {
      var (front, last) := (rules[..|rules| - 1], rules[|rules| - 1]);
      if Compare(last, rule) <= 0 {
        forall j | 0 <= j < |rules| ensures Compare(rules[j], rule) <= 0 {
          ComparePreorder(rules[j], last, rule);
        }
      } else {
        InsertSorts(front, rule);
        InsertContents(front, rule);
        var inserted := Insert(front, rule);
        forall j | 0 <= j < |inserted| ensures Compare(inserted[j], last) <= 0 {
          assert inserted[j] in multiset(inserted);
          assert inserted[j] in front || inserted[j] == rule;
          ComparePreorder(rule, last, last);
          ComparePreorder(last, rule, last);
        }
      }
    }
  }

  lemma {:induction false} SortSorts(rules: seq<Rule>)
    ensures InOrder(Sort(rules)) && multiset(Sort(rules)) == multiset(rules)
  {
    if rules != [] {
      var (front, last) := (rules[..|rules| - 1], rules[|rules| - 1]);
      assert rules == front + [last];
      SortSorts(front);
      InsertSorts(Sort(front), last);
      InsertContents(Sort(front), last);
    }
  }

  /** The first of the least rules, in the order of the list. */
  function FirstLeast(rules: seq<Rule>): Option<Rule> {
    if rules == [] then None else
      var (least, last) := (FirstLeast(rules[..|rules| - 1]), rules[|rules| - 1]);
      if least.None? || Compare(least.value, last) > 0 then Some(last) else least
  }

  lemma LessThrough(a: Rule, b: Rule, c: Rule)
    requires Compare(a, b) > 0 && Compare(a, c) <= 0
    ensures Compare(b, c) < 0
  {
    hide Compare;
    ComparePreorder(a, c, b);
    ComparePreorder(b, c, c);
  }

  /** `rules[k]` goes before all rules in front of it, and none after it goes before it. */
  predicate FirstAt(rules: seq<Rule>, k: nat)
    requires k < |rules|
  {
    && (forall j | 0 <= j < k :: Compare(rules[k], rules[j]) < 0)
    && (forall j | k <= j < |rules| :: Compare(rules[k], rules[j]) <= 0)
  }

  lemma FirstAtNext(rules: seq<Rule>, k: nat, rule: Rule)
    requires k < |rules| && FirstAt(rules, k)
    ensures Compare(rules[k], rule) > 0 ==> FirstAt(rules + [rule], |rules|)
    ensures Compare(rules[k], rule) <= 0 ==> FirstAt(rules + [rule], k)
  {
    hide Compare;
    if Compare(rules[k], rule) > 0 {
      forall j | 0 <= j < |rules| ensures Compare(rule, rules[j]) < 0 {
        ComparePreorder(rules[k], rules[j], rule);
        LessThrough(rules[k], rule, rules[j]);
      }
      ComparePreorder(rule, rule, rule);
    }
  }

  lemma {:induction false} FirstLeastIsLeast(rules: seq<Rule>)
    ensures FirstLeast(rules).None? <==> rules == []
    ensures FirstLeast(rules).Some? ==>
            exists k: nat | k < |rules| :: FirstAt(rules, k) && rules[k] == FirstLeast(rules).value
  {
    hide Compare, FirstAt;
    if rules != [] {
      var (front, last, n) := (rules[..|rules| - 1], rules[|rules| - 1], |rules| - 1);
      assert rules == front + [last];
      FirstLeastIsLeast(front);
      if FirstLeast(front).Some? {
        var m: nat :| m < |front| && FirstAt(front, m) && front[m] == FirstLeast(front).value;
        FirstAtNext(front, m, last);
      } else {
        OnlyRule(last);
      }
    }
  }

  lemma OnlyRule(rule: Rule)
    ensures FirstAt([rule], 0)
  {
    hide Compare;
    ComparePreorder(rule, rule, rule);
  }

  lemma {:induction false} InsertHead(rules: seq<Rule>, rule: Rule)
    requires InOrder(rules)
    ensures Insert(rules, rule) != []
    ensures Insert(rules, rule)[0] == if rules == [] || Compare(rules[0], rule) > 0 then rule else rules[0]
  {
    hide Compare;
    if rules != [] {
      var (front, last) := (rules[..|rules| - 1], rules[|rules| - 1]);
      if Compare(last, rule) <= 0 {
        ComparePreorder(rules[0], rules[0], rule);
        ComparePreorder(rules[0], last, rule);
      } else {
        InsertHead(front, rule);
      }
    }
  }

  /** Sorting is stable: the rule that comes first is the first of the least ones. */
  lemma {:induction false} SortedFirst(rules: seq<Rule>)
    ensures Sort(rules) == [] <==> rules == []
    ensures rules != [] ==> FirstLeast(rules) == Some(Sort(rules)[0])
  {
    hide Compare, Insert;
    if rules != [] {
      var front := rules[..|rules| - 1];
      SortedFirst(front);
      SortSorts(front);
      InsertHead(Sort(front), rules[|rules| - 1]);
    }
  }

  /** The rule selected is the first of the least rules that match and whose KYC level the user has; there is one
      whenever there is such a rule. */
  lemma SelectedIsFirst(rules: seq<Rule>, request: Request)
    ensures Selected(rules, request) == FirstLeast(Matching(rules, request))
    ensures Selected(rules, request).Some? ==>
              var matching := Matching(rules, request);
              exists k: nat | k < |matching| :: FirstAt(matching, k) && matching[k] == Selected(rules, request).value
    ensures Selected(rules, request).None? <==> forall rule <- rules :: !Eligible(rule, request)
    ensures Selected(rules, request).Some? ==>
              var best := Selected(rules, request).value;
              && best in rules && Eligible(best, request)
              && forall rule <- rules | Eligible(rule, request) :: Compare(best, rule) <= 0
  {
    hide Compare, Eligible, Sort, FirstLeast;
    var matching := Matching(rules, request);
    SortedFirst(matching);
    FirstLeastIsLeast(matching);
    assert forall rule <- rules | Eligible(rule, request) :: rule in matching;
    if matching != [] {
      assert matching[0] in matching;
    }
  }

  // ---------------------------------------------------------------- the selection, in the fields of the rules

  /** The rule is switched on, is about what is asked for, and nothing that it names is another than the user's; of its
      selectors only the narrowest counts. And the user has the level it asks for. */
  predicate Applies(rule: Rule, request: Request) {
    var context := request.context;
    && rule.enabled
    && rule.action == request.action && rule.metric == request.metric && rule.period == request.period
    && (rule.scopeType.UserScope? ==> rule.scopeUser == Some(context.user))
    && (rule.scopeType.GroupScope? ==> rule.scopeGroup == context.group)
    && (rule.product.Some? ==> context.product == rule.product)
    && (rule.product.None? && rule.instr.Some? ==> context.instr == rule.instr)
    && (rule.product.None? && rule.instr.None? && rule.instrumentType.Some? ==>
          context.instrumentType == rule.instrumentType)
    && (rule.minKyc == context.kyc || rule.minKyc.NoKyc? || context.kyc.Full?)
  }

  /** A rule of a user goes before one of a group, and that before one for everybody. */
  predicate NarrowerScope(a: Rule, b: Rule) {
    || (a.scopeType.UserScope? && !b.scopeType.UserScope?)
    || (a.scopeType.GroupScope? && b.scopeType.GlobalScope?)
  }

  /** A rule for a product goes before one for an instrument, that before one for a type, and that before one for
      all. */
  predicate NarrowerSelector(a: Rule, b: Rule) {
    || (a.product.Some? && b.product.None?)
    || (a.product.None? && b.product.None? && a.instr.Some? && b.instr.None?)
    || (a.product.None? && b.product.None? && a.instr.None? && b.instr.None?
        && a.instrumentType.Some? && b.instrumentType.None?)
  }

  /** The smaller number goes first, a hundred where none is given; then what was updated last, then what was created
      last. */
  predicate Precedes(a: Rule, b: Rule) {
    var (p, q) := (if a.priority.Some? then a.priority.value else 100, if b.priority.Some? then b.priority.value
                   else 100);
    || p < q
    || (p == q && a.updatedAt > b.updatedAt)
    || (p == q && a.updatedAt == b.updatedAt && a.createdAt > b.createdAt)
  }

  predicate GoesBefore(a: Rule, b: Rule) {
    || NarrowerScope(a, b)
    || (!NarrowerScope(b, a) && NarrowerSelector(a, b))
    || (!NarrowerScope(b, a) && !NarrowerSelector(b, a) && Precedes(a, b))
  }

  lemma AppliesIsEligible(rule: Rule, request: Request)
    ensures Applies(rule, request) <==> Eligible(rule, request)
  {
  }

  lemma CompareMeans(a: Rule, b: Rule)
    ensures GoesBefore(a, b) <==> Compare(a, b) < 0
  {
  }

  /** Of the rules that apply, none goes before the one whose limit is the answer; and there is an answer exactly when
      one applies. */
  lemma SelectedGoesFirst(rules: seq<Rule>, request: Request)
    ensures Resolve(rules, request).value.Some? <==> exists rule <- rules :: Applies(rule, request)
    ensures Resolve(rules, request).value.Some? ==>
              exists best <- rules :: && Applies(best, request) && Resolve(rules, request).value == Some(best.limit)
                && forall rule <- rules | Applies(rule, request) :: !GoesBefore(rule, best)
  {
    hide Compare, Eligible, Applies, Matching, Selected, LeastKyc, GoesBefore, FirstLeast, FirstAt;
    forall rule ensures Applies(rule, request) <==> Eligible(rule, request) {
      AppliesIsEligible(rule, request);
    }
    SelectedIsFirst(rules, request);
    if Selected(rules, request).Some? {
      var best := Selected(rules, request).value;
      forall rule <- rules | Applies(rule, request) ensures !GoesBefore(rule, best) {
        CompareMeans(rule, best);
        ComparePreorder(rule, best, best);
      }
    }
  }

  /** Shuffling the rules leaves the selection as it was, up to rules tied on all five keys, and the KYC level too. */
  lemma ResolvePermuted(rules: seq<Rule>, rules': seq<Rule>, request: Request)
    requires multiset(rules) == multiset(rules')
    ensures var (s, s') := (Selected(rules, request), Selected(rules', request));
            (s.Some? <==> s'.Some?) && (s.Some? ==> Tied(s.value, s'.value))
    ensures Resolve(rules, request).kycRequired == Resolve(rules', request).kycRequired
  {
    hide Compare, Eligible, Insert, Sort, Candidate, Selected, LeastKyc, HasRequiredKyc;
    forall rule ensures rule in rules <==> rule in rules' {
      assert rule in rules <==> rule in multiset(rules);
      assert rule in rules' <==> rule in multiset(rules');
    }
    SelectedIsFirst(rules, request);
    SelectedIsFirst(rules', request);
    var (s, s') := (Selected(rules, request), Selected(rules', request));
    if s.Some? {
      ComparePreorder(s.value, s'.value, s.value);
    }
    LeastKycIsLeast(Blocked(rules, request));
    LeastKycIsLeast(Blocked(rules', request));
    SameLeast(Blocked(rules, request), Blocked(rules', request));
  }

  lemma {:induction false} LeastKycIsLeast(blocked: seq<Rule>)
    ensures LeastKyc(blocked).None? <==> blocked == []
    ensures LeastKyc(blocked).Some? ==>
              && (exists rule <- blocked :: rule.minKyc == LeastKyc(blocked).value)
              && forall rule <- blocked :: KycIndex(LeastKyc(blocked).value) <= KycIndex(rule.minKyc)
  {
    if blocked != [] {
      var (front, last) := (blocked[..|blocked| - 1], blocked[|blocked| - 1]);
      assert forall rule :: rule in blocked <==> rule in front || rule == last;
      assert last in blocked;
      LeastKycIsLeast(front);
      LeastKycLast(blocked);
      hide LeastKyc, KycIndex;
      if LeastKyc(front).Some? {
        var least :| least in front && least.minKyc == LeastKyc(front).value;
        assert least in blocked;
      }
    }
  }

  lemma LeastKycLast(blocked: seq<Rule>)
    requires blocked != []
    ensures var (least, cand) := (LeastKyc(blocked[..|blocked| - 1]), blocked[|blocked| - 1].minKyc);
            && LeastKyc(blocked) ==
               (if least.None? || KycIndex(cand) < KycIndex(least.value) then Some(cand) else least)
            && (least.Some? && KycIndex(cand) >= KycIndex(least.value) ==> LeastKyc(blocked) == least)
  {
  }

  lemma SameLeast(xs: seq<Rule>, ys: seq<Rule>)
    requires forall rule :: rule in xs <==> rule in ys
    ensures LeastKyc(xs) == LeastKyc(ys)
  {
    hide LeastKyc;
    LeastKycIsLeast(xs);
    LeastKycIsLeast(ys);
    if xs != [] {
      assert xs[0] in ys;
    }
    if ys != [] {
      assert ys[0] in xs;
    }
  }

  function AtLevel(request: Request, level: KycLevel): Request {
    request.(context := request.context.(kyc := level))
  }

  /** Some candidate opens up when the user has `level` instead. */
  predicate Grows(rules: seq<Rule>, request: Request, level: KycLevel) {
    exists rule <- rules :: Eligible(rule, AtLevel(request, level)) && !Eligible(rule, request)
  }

  lemma KycAside(rule: Rule, request: Request, level: KycLevel)
    ensures Candidate(rule, AtLevel(request, level)) <==> Candidate(rule, request)
  {
  }

  /** The level reported is the least one at which more rules become eligible; none is reported when there is no such
      level. */
  lemma KycRequiredIsLeast(rules: seq<Rule>, request: Request)
    ensures var required := Resolve(rules, request).kycRequired;
            && (required.None? <==> forall level :: !Grows(rules, request, level))
            && (required.Some? ==>
                  && Grows(rules, request, required.value)
                  && forall level | Grows(rules, request, level) :: KycIndex(required.value) <= KycIndex(level))
  {
    hide Selected, LeastKyc, MatchesScope, MatchesSelector;
    var blocked := Blocked(rules, request);
    LeastKycIsLeast(blocked);
    forall rule, level ensures Candidate(rule, AtLevel(request, level)) <==> Candidate(rule, request) {
      KycAside(rule, request, level);
    }
    hide Candidate;
    forall rule, level | rule in rules && Eligible(rule, AtLevel(request, level)) && !Eligible(rule, request)
      ensures rule in blocked && KycIndex(rule.minKyc) <= KycIndex(level)
    {
    }
    forall rule <- blocked ensures Grows(rules, request, rule.minKyc) {
      assert Eligible(rule, AtLevel(request, rule.minKyc)) && !Eligible(rule, request);
    }
  }

  /** A rule that matches is not queried exactly when it is a rule for groups and the user is in none. */
  lemma QueriedCandidate(rule: Rule, request: Request)
    requires Candidate(rule, request)
    ensures Queried(rule, request.context) <==> request.context.group.Some? || !rule.scopeType.GroupScope?
    ensures request.context.group.None? && rule.scopeType.GroupScope? ==> rule.scopeGroup.None?
  {
  }

  lemma FirstLeastIn(rules: seq<Rule>)
    ensures FirstLeast(rules).Some? ==>
              FirstLeast(rules).value in rules && forall rule <- rules :: Compare(FirstLeast(rules).value, rule) <= 0
    ensures rules != [] ==> FirstLeast(rules).Some?
  {
    hide Compare, FirstLeast;
    FirstLeastIsLeast(rules);
  }

  lemma FirstLeastNext(rules: seq<Rule>, last: Rule)
    ensures var least := FirstLeast(rules);
            FirstLeast(rules + [last]) ==
              if least.None? || Compare(least.value, last) > 0 then Some(last) else least
  {
    hide Compare;
    assert (rules + [last])[..|rules|] == rules;
  }

  lemma {:induction false} FirstLeastKept(rules: seq<Rule>, keep: Rule -> bool)
    requires rules != [] && FirstLeast(rules).Some? && keep(FirstLeast(rules).value)
    ensures FirstLeast(Filter(rules, keep)) == FirstLeast(rules)
  {
    hide FirstLeast, Filter, Compare;
    var (front, last) := (rules[..|rules| - 1], rules[|rules| - 1]);
    assert rules == front + [last];
    FilterNext(front, last, keep);
    FirstLeastNext(front, last);
    FirstLeastIsLeast(front);
    var kept := Filter(front, keep);
    FirstLeastNext(kept, last);
    assert kept + [] == kept;
    if FirstLeast(rules) == FirstLeast(front) {
      FirstLeastKept(front, keep);
      ComparePreorder(last, last, last);
    } else {
      FirstLeastIn(front);
      FirstLeastIn(kept);
      if kept != [] {
        ComparePreorder(FirstLeast(front).value, FirstLeast(kept).value, last);
      }
    }
  }

  /** Some request of this user, of whatever product and level of KYC, has the rule as a candidate. */
  ghost predicate MayApply(rule: Rule, context: Context) {
    exists request: Request | Candidate(rule, request) ::
      request.context.user == context.user && request.context.group == context.group
  }

  /** What is loaded are the rules that may apply to some request of the user, but for group rules when there is no
      group. */
  lemma LoadedMayApply(rules: seq<Rule>, context: Context, rule: Rule)
    ensures rule in LoadRules(rules, context) <==>
            rule in rules && MayApply(rule, context) && (rule.scopeType.GroupScope? ==> context.group.Some?)
  {
    var widest := Request(rule.action, rule.metric, rule.period,
                          Context(context.user, context.group, rule.product, rule.instr, rule.instrumentType, Full));
    assert Queried(rule, context) <==>
           Candidate(rule, widest) && (rule.scopeType.GroupScope? ==> context.group.Some?);
  }

  /** The rules loaded select what all of them select exactly when the user is in a group, or some rule of the user's
      own is eligible, or no eligible rule is for groups without naming one: the matcher takes such a rule when the user
      is in no group, the query does not return it. */
  lemma LoadingSelects(rules: seq<Rule>, request: Request)
    ensures Selected(LoadRules(rules, request.context), request) == Selected(rules, request)
       <==> || request.context.group.Some?
            || (exists rule <- rules :: Eligible(rule, request) && rule.scopeType.UserScope?)
            || !exists rule <- rules :: Eligible(rule, request) && rule.scopeType.GroupScope? && rule.scopeGroup.None?
  {
    hide Sort, Filter, FirstLeast, HasRequiredKyc, Candidate, Queried;
    var (context, loaded) := (request.context, LoadRules(rules, request.context));
    var (queried, eligible) := (rule => Queried(rule, context), rule => Eligible(rule, request));
    SelectedIsFirst(rules, request);
    SelectedIsFirst(loaded, request);
    forall rule <- rules | Eligible(rule, request) {
      QueriedCandidate(rule, request);
    }
    FilterSwapped(rules, queried, eligible);
    var (all, best) := (Matching(rules, request), Selected(rules, request));
    assert Matching(loaded, request) == Filter(all, queried);
    if best.Some? {
      if Queried(best.value, context) {
        FirstLeastKept(all, queried);
      } else {
        forall rule <- rules | Eligible(rule, request) ensures !rule.scopeType.UserScope? {
          CompareScopes(best.value, rule);
        }
      }
      if request.context.group.None? {
        forall rule <- rules | Eligible(rule, request) &&
               rule.scopeType.GroupScope? ensures !best.value.scopeType.GlobalScope? {
          CompareScopes(best.value, rule);
        }
      }
    } else {
      FirstLeastIn(all);
      assert forall rule :: rule !in Filter(all, queried);
      FirstLeastIn(Filter(all, queried));
    }
  }

  lemma CompareScopes(a: Rule, b: Rule)
    requires Compare(a, b) <= 0
    ensures ScopeRank(a.scopeType) <= ScopeRank(b.scopeType)
  {
    hide ScopeRank;
  }

  predicate Blocks(rule: Rule, request: Request) {
    Candidate(rule, request) && !HasRequiredKyc(request.context.kyc, rule.minKyc)
  }

  /** The level of KYC reported is the same exactly when the user is in a group, or what every blocked rule for groups
      asks for, some other blocked rule asks no more than. */
  lemma LoadingRequires(rules: seq<Rule>, request: Request)
    ensures Resolve(LoadRules(rules, request.context), request).kycRequired == Resolve(rules, request).kycRequired
       <==> || request.context.group.Some?
            || forall rule <- rules | Blocks(rule, request) && rule.scopeType.GroupScope? ::
                 exists other <- rules ::
                 Blocks(other, request) && !other.scopeType.GroupScope? &&
                 KycIndex(other.minKyc) <= KycIndex(rule.minKyc)
  {
    hide Selected, LeastKyc, Candidate, HasRequiredKyc, Queried, KycIndex;
    var (all, some) := (Blocked(rules, request), Blocked(LoadRules(rules, request.context), request));
    forall rule <- rules | Candidate(rule, request) {
      QueriedCandidate(rule, request);
    }
    assert forall rule :: rule in all <==> rule in rules && Blocks(rule, request);
    assert forall rule :: rule in some <==> rule in all && (request.context.group.Some? || !rule.scopeType.GroupScope?);
    SubsetLeast(all, some);
  }

  /** A part of the rules has the same least level as all of them exactly when it goes as low as any. */
  lemma SubsetLeast(all: seq<Rule>, some: seq<Rule>)
    requires forall rule <- some :: rule in all
    ensures LeastKyc(some) == LeastKyc(all)
       <==> forall rule <- all | rule !in some ::
            exists other <- some :: KycIndex(other.minKyc) <= KycIndex(rule.minKyc)
  {
    LeastKycIsLeast(all);
    LeastKycIsLeast(some);
    hide LeastKyc;
    if some != [] {
      var low :| low in some && low.minKyc == LeastKyc(some).value;
      assert low in all;
    }
    if all != [] {
      assert all[0] in all;
    }
  }

  lemma FilterNext<T(!new)>(xs: seq<T>, x: T, keep: T -> bool)
    ensures Filter(xs + [x], keep) == Filter(xs, keep) + if keep(x) then [x] else []
  {
    assert (xs + [x])[..|xs|] == xs;
  }

  lemma FilterTwice<T(!new)>(xs: seq<T>, x: T, p: T -> bool, q: T -> bool)
    ensures Filter(Filter(xs + [x], p), q) == Filter(Filter(xs, p), q) + if p(x) && q(x) then [x] else []
  {
    hide Filter;
    FilterNext(xs, x, p);
    if p(x) {
      FilterNext(Filter(xs, p), x, q);
    } else {
      assert Filter(xs, p) + [] == Filter(xs, p);
    }
  }

  /** The order in which two filters are applied does not matter. */
  lemma {:induction false} FilterSwapped<T(!new)>(xs: seq<T>, p: T -> bool, q: T -> bool)
    ensures Filter(Filter(xs, p), q) == Filter(Filter(xs, q), p)
  {
    if xs != [] {
      hide Filter;
      var (front, last) := (xs[..|xs| - 1], xs[|xs| - 1]);
      assert xs == front + [last];
      FilterSwapped(front, p, q);
      FilterTwice(front, last, p, q);
      FilterTwice(front, last, q, p);
    }
  }

  /** The rule that makes the difference. */
  lemma UngroupedRule()
    ensures var rule := Rule(0, GroupScope, None, None, WithdrawIrr, NotionalIrr, Daily, 5, NoKyc, None, None, None,
                             true, None, 0, 0);
            var request := Request(WithdrawIrr, NotionalIrr, Daily, Context(1, None, None, None, None, NoKyc));
            && Resolve([rule], request).value == Some(5)
            && Resolve(LoadRules([rule], request.context), request).value == None
  {
    var rule := Rule(0, GroupScope, None, None, WithdrawIrr, NotionalIrr, Daily, 5, NoKyc, None, None, None, true, None,
                     0, 0);
    var request := Request(WithdrawIrr, NotionalIrr, Daily, Context(1, None, None, None, None, NoKyc));
    assert [rule][..0] == [];
    assert Matching([rule], request) == [rule];
    assert LoadRules([rule], request.context) == [];
  }
}
