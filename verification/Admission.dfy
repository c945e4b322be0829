/**
 What one admission call means: the batch of request-counter increments, the budget reads planned
 beside them, the decision taken from the flat reply, and the batch that settles a refusal.

 `NaiveViolation` is the reference: it reads the six limits of each scope one at a time from the
 counters. `FusedIsNaive` says that the decision taken from the flat reply is the same one.
 */
module Admission {
  import opened Common
  import opened Calendar
  import opened Keys

  // ---------------------------------------------------------------- data

  /** A limit of zero or less is no limit; cost limits are in micro-USD. */
  datatype Limits = Limits(requestsPerMinute: int, requestsPerDay: int,
                           tokensPerDay: int, tokensPerMonth: int,
                           costPerDay: int, costPerMonth: int)

  datatype Scope = Scope(limits: Option<Limits>, kind: string, id: string)

  const TOTAL_KIND: string := "total"
  const TOTAL_ID: string := "all"
  const MODEL_KIND: string := "model"

  predicate IsTotal(sc: Scope) { sc.kind == TOTAL_KIND && sc.id == TOTAL_ID }

  predicate SameScope(a: Scope, b: Scope) { a.kind == b.kind && a.id == b.id }

  /** No scope is listed twice in one call. */
  predicate DistinctScopes(scopes: seq<Scope>) {
    forall i, j :: 0 <= i < j < |scopes| ==> !SameScope(scopes[i], scopes[j])
  }

  /** One command of a batch: add `delta` under `key`, created with the given lifetimes. */
  datatype Incr = Incr(key: CounterKey, delta: int, ttl: int, enforceTTL: int)

  type Counters = map<CounterKey, int>

  function Value(c: Counters, k: CounterKey): int { if k in c then c[k] else 0 }

  function Apply(c: Counters, e: Incr): Counters { c[e.key := Value(c, e.key) + e.delta] }

  function ApplyAll(c: Counters, es: seq<Incr>): Counters {
    if es == [] then c else Apply(ApplyAll(c, es[..|es| - 1]), es[|es| - 1])
  }

  /** What one command adds to the counter `k`. */
  function DeltaOn(k: CounterKey): Incr -> int {
    (e: Incr) => if e.key == k then e.delta else 0
  }

  ghost function Net(es: seq<Incr>, k: CounterKey): int { SumOf(es, DeltaOn(k)) }

  /** A batch moves every counter by the sum of its own entries on it, and no other counter. */
  lemma {:induction false} ApplyAllValue(c: Counters, es: seq<Incr>, k: CounterKey)
    ensures Value(ApplyAll(c, es), k) == Value(c, k) + Net(es, k)
  {
    if es != [] { ApplyAllValue(c, es[..|es| - 1], k); }
  }

  lemma {:induction false} ApplyAllConcat(c: Counters, xs: seq<Incr>, ys: seq<Incr>)
    ensures ApplyAll(c, xs + ys) == ApplyAll(ApplyAll(c, xs), ys)
  {
    if ys == [] {
      assert xs + ys == xs;
    } else {
      ApplyAllConcat(c, xs, ys[..|ys| - 1]);
      assert (xs + ys)[..|xs + ys| - 1] == xs + ys[..|ys| - 1];
    }
  }

  // ---------------------------------------------------------------- the request counters

  function Counter(kind: string, id: string, metric: Metric, window: Window, now: int): CounterKey {
    CounterKey(kind, id, metric, window, Bucket(now, window))
  }

  /** A command carrying its window's own lifetimes, as every writer builds it. */
  function Command(key: CounterKey, delta: int): Incr {
    Incr(key, delta, WindowTTL(key.window), EnforceTTL(key.window))
  }

  function ScopeEntries(sc: Scope, now: int): (es: seq<Incr>)
    ensures |es| == 3
  {
    [ Command(Counter(sc.kind, sc.id, Req, Min, now), 1),
      Command(Counter(sc.kind, sc.id, Req, Day, now), 1),
      Command(Counter(sc.kind, sc.id, Req, Hour, now), 1) ]
  }

  function Entries(scopes: seq<Scope>, now: int): (es: seq<Incr>)
    ensures |es| == 3 * |scopes|
  {
    if scopes == [] then []
    else Entries(scopes[..|scopes| - 1], now) + ScopeEntries(scopes[|scopes| - 1], now)
  }

  /** The flat batch has a stride of three per scope. */
  lemma {:induction false} EntriesAt(scopes: seq<Scope>, now: int, i: nat)
    requires i < |scopes|
    ensures Entries(scopes, now)[3 * i..3 * i + 3] == ScopeEntries(scopes[i], now)
  {
    var n := |scopes| - 1;
    if i < n {
      EntriesAt(scopes[..n], now, i);
      assert Entries(scopes, now)[3 * i..3 * i + 3] == Entries(scopes[..n], now)[3 * i..3 * i + 3];
    }
  }

  /** The scope's own request counters: minute, day and hour of this instant. */
  predicate Touches(sc: Scope, now: int, k: CounterKey) {
    sc.kind == k.kind && sc.id == k.id && k.metric == Req && k.window != Month && k.bucket == Bucket(now, k.window)
  }

  function TouchedAt(now: int, k: CounterKey): Scope -> bool { (sc: Scope) => Touches(sc, now, k) }

  lemma NetOfScopeEntries(sc: Scope, now: int, k: CounterKey)
    ensures Net(ScopeEntries(sc, now), k) == if Touches(sc, now, k) then 1 else 0
  {
    var es, f := ScopeEntries(sc, now), DeltaOn(k);
    SumThree(es[0], es[1], es[2], f);
    assert es == [es[0], es[1], es[2]];
  }

  lemma {:induction false} NetOfEntries(scopes: seq<Scope>, now: int, k: CounterKey)
    ensures Net(Entries(scopes, now), k) == CountOf(scopes, TouchedAt(now, k))
  {
    if scopes != [] {
      var n := |scopes| - 1;
      NetOfEntries(scopes[..n], now, k);
      NetOfScopeEntries(scopes[n], now, k);
      SumConcat(Entries(scopes[..n], now), ScopeEntries(scopes[n], now), DeltaOn(k));
    }
  }

  /** With distinct scopes a counter is incremented by at most one entry. */
  lemma {:induction false} DistinctTouch(scopes: seq<Scope>, now: int, k: CounterKey)
    requires DistinctScopes(scopes)
    ensures CountOf(scopes, TouchedAt(now, k)) <= 1
    ensures forall i :: 0 <= i < |scopes| && Touches(scopes[i], now, k) ==> CountOf(scopes, TouchedAt(now, k)) == 1
    ensures CountOf(scopes, TouchedAt(now, k)) == 1 ==> exists i :: 0 <= i < |scopes| && Touches(scopes[i], now, k)
  {
    if scopes != [] {
      var n := |scopes| - 1;
      var init := scopes[..n];
      assert forall i :: 0 <= i < n ==> init[i] == scopes[i];
      DistinctTouch(init, now, k);
      if Touches(scopes[n], now, k) {
        assert forall i :: 0 <= i < n ==> !SameScope(init[i], scopes[n]);
      }
    }
  }

  // ---------------------------------------------------------------- the six limits

  datatype Rule = RequestsPerMinute | RequestsPerDay | TokensPerDay | TokensPerMonth | CostPerDay | CostPerMonth

  const REQUEST_RULES: seq<Rule> := [RequestsPerMinute, RequestsPerDay]
  const BUDGET_RULES: seq<Rule> := [TokensPerDay, TokensPerMonth, CostPerDay, CostPerMonth]

  function RuleWindow(r: Rule): Window {
    match r
    case RequestsPerMinute => Min
    case RequestsPerDay => Day
    case TokensPerDay => Day
    case TokensPerMonth => Month
    case CostPerDay => Day
    case CostPerMonth => Month
  }

  function LimitOf(l: Limits, r: Rule): int {
    match r
    case RequestsPerMinute => l.requestsPerMinute
    case RequestsPerDay => l.requestsPerDay
    case TokensPerDay => l.tokensPerDay
    case TokensPerMonth => l.tokensPerMonth
    case CostPerDay => l.costPerDay
    case CostPerMonth => l.costPerMonth
  }

  /** The counters whose sum a rule compares with its limit. */
  function RuleKeys(sc: Scope, r: Rule, now: int): (ks: seq<CounterKey>)
    ensures 1 <= |ks| <= 2
  {
    var w := RuleWindow(r);
    match r
    case RequestsPerMinute => [Counter(sc.kind, sc.id, Req, w, now)]
    case RequestsPerDay => [Counter(sc.kind, sc.id, Req, w, now)]
    case TokensPerDay => [Counter(sc.kind, sc.id, TokIn, w, now), Counter(sc.kind, sc.id, TokOut, w, now)]
    case TokensPerMonth => [Counter(sc.kind, sc.id, TokIn, w, now), Counter(sc.kind, sc.id, TokOut, w, now)]
    case CostPerDay => [Counter(sc.kind, sc.id, Cost, w, now)]
    case CostPerMonth => [Counter(sc.kind, sc.id, Cost, w, now)]
  }

  function Used(c: Counters, ks: seq<CounterKey>): int
    requires 1 <= |ks| <= 2
  {
    Value(c, ks[0]) + if |ks| == 2 then Value(c, ks[1]) else 0
  }

  /** Request limits compare the incremented count, budgets what earlier requests accumulated. */
  predicate Exceeds(r: Rule, limit: int, used: int) {
    limit > 0 && if r in REQUEST_RULES then used > limit else used >= limit
  }

  predicate Breached(c: Counters, sc: Scope, l: Limits, r: Rule, now: int) {
    Exceeds(r, LimitOf(l, r), Used(c, RuleKeys(sc, r, now)))
  }

  function FirstBreach(c: Counters, sc: Scope, l: Limits, rules: seq<Rule>, now: int): Option<Rule> {
    if rules == [] then None
    else if Breached(c, sc, l, rules[0], now) then Some(rules[0])
    else FirstBreach(c, sc, l, rules[1..], now)
  }

  datatype Violation =
    | Limit(scopeIdx: nat, rule: Rule, retryAfter: int)
    | StoreDown

  /** The first breach in scope order and, inside a scope, in rule order. */
  function NaiveFrom(c: Counters, scopes: seq<Scope>, i: nat, now: int): Option<Violation>
    requires i <= |scopes|
    decreases |scopes| - i
  {
    if i == |scopes| then None
    else if scopes[i].limits.None? then NaiveFrom(c, scopes, i + 1, now)
    else
      match FirstBreach(c, scopes[i], scopes[i].limits.value, REQUEST_RULES + BUDGET_RULES, now)
      case None => NaiveFrom(c, scopes, i + 1, now)
      case Some(r) => Some(Limit(i, r, RetryAfter(now, RuleWindow(r))))
  }

  function NaiveViolation(c: Counters, scopes: seq<Scope>, now: int): Option<Violation> {
    NaiveFrom(c, scopes, 0, now)
  }

  // ---------------------------------------------------------------- the verdict in the limits' own fields

  /** What a scope has counted of a metric in the present bucket of a window. */
  function Counted(c: Counters, sc: Scope, m: Metric, w: Window, now: int): int {
    Value(c, CounterKey(sc.kind, sc.id, m, w, Bucket(now, w)))
  }

  /**
   The limits field by field, over the counters before the call: a request limit must have room for one
   more, a budget must not be used up, and a field of zero or less says nothing.
   */
  predicate Passes(c: Counters, sc: Scope, l: Limits, now: int, r: Rule) {
    match r
    case RequestsPerMinute => l.requestsPerMinute > 0 ==> Counted(c, sc, Req, Min, now) + 1 <= l.requestsPerMinute
    case RequestsPerDay => l.requestsPerDay > 0 ==> Counted(c, sc, Req, Day, now) + 1 <= l.requestsPerDay
    case TokensPerDay => l.tokensPerDay > 0 ==> Counted(c, sc, TokIn, Day, now) + Counted(c, sc, TokOut, Day, now) < l.tokensPerDay
    case TokensPerMonth => l.tokensPerMonth > 0 ==> Counted(c, sc, TokIn, Month, now) + Counted(c, sc, TokOut, Month, now) < l.tokensPerMonth
    case CostPerDay => l.costPerDay > 0 ==> Counted(c, sc, Cost, Day, now) < l.costPerDay
    case CostPerMonth => l.costPerMonth > 0 ==> Counted(c, sc, Cost, Month, now) < l.costPerMonth
  }

  ghost predicate PassesAll(c: Counters, sc: Scope, now: int) {
    sc.limits.Some? ==> forall r :: Passes(c, sc, sc.limits.value, now, r)
  }

  /** The order in which a scope's limits are looked at. */
  function Rank(r: Rule): nat {
    match r
    case RequestsPerMinute => 0
    case RequestsPerDay => 1
    case TokensPerDay => 2
    case TokensPerMonth => 3
    case CostPerDay => 4
    case CostPerMonth => 5
  }

  /** `r` is the first limit of the scope that does not pass. */
  ghost predicate FailsFirst(c: Counters, sc: Scope, now: int, r: Rule) {
    sc.limits.Some? && !Passes(c, sc, sc.limits.value, now, r) &&
    forall r' :: Rank(r') < Rank(r) ==> Passes(c, sc, sc.limits.value, now, r')
  }

  /** How long a client refused by `r` is told to wait: to the end of the minute, the day or the month. */
  function Wait(r: Rule, now: int): int {
    match r
    case RequestsPerMinute => RetryAfter(now, Min)
    case RequestsPerDay => RetryAfter(now, Day)
    case TokensPerDay => RetryAfter(now, Day)
    case TokensPerMonth => RetryAfter(now, Month)
    case CostPerDay => RetryAfter(now, Day)
    case CostPerMonth => RetryAfter(now, Month)
  }

  /** The call adds one to each listed scope's request counters and moves no budget counter. */
  lemma {:induction false} CountedAfter(c: Counters, scopes: seq<Scope>, i: nat, now: int, m: Metric, w: Window)
    requires DistinctScopes(scopes) && i < |scopes|
    ensures Counted(ApplyAll(c, Entries(scopes, now)), scopes[i], m, w, now) ==
            Counted(c, scopes[i], m, w, now) + if m == Req && w != Month then 1 else 0
  {
    var k := CounterKey(scopes[i].kind, scopes[i].id, m, w, Bucket(now, w));
    ApplyAllValue(c, Entries(scopes, now), k);
    NetOfEntries(scopes, now, k);
    DistinctTouch(scopes, now, k);
    if m == Req && w != Month { assert Touches(scopes[i], now, k); }
  }

  lemma {:induction false} BreachInFields(c: Counters, scopes: seq<Scope>, i: nat, now: int, r: Rule)
    requires DistinctScopes(scopes) && i < |scopes| && scopes[i].limits.Some?
    ensures Breached(ApplyAll(c, Entries(scopes, now)), scopes[i], scopes[i].limits.value, r, now) <==>
            !Passes(c, scopes[i], scopes[i].limits.value, now, r)
  {
    CountedAfter(c, scopes, i, now, Req, Min);
    CountedAfter(c, scopes, i, now, Req, Day);
    forall m: Metric, w: Window | m != Req
      ensures Counted(ApplyAll(c, Entries(scopes, now)), scopes[i], m, w, now) == Counted(c, scopes[i], m, w, now)
    {
      CountedAfter(c, scopes, i, now, m, w);
    }
  }

  /** The rules in order: the first breach is the one of least rank. */
  lemma {:induction false} FirstBreachRank(c: Counters, sc: Scope, l: Limits, now: int)
    ensures var b := FirstBreach(c, sc, l, REQUEST_RULES + BUDGET_RULES, now);
            if b.None? then forall r :: !Breached(c, sc, l, r, now)
            else Breached(c, sc, l, b.value, now) && forall r :: Rank(r) < Rank(b.value) ==> !Breached(c, sc, l, r, now)
  {
    var rules := REQUEST_RULES + BUDGET_RULES;
    BudgetBreach(c, sc, l, now);
    assert rules[1..][0] == RequestsPerDay && rules[1..][1..] == BUDGET_RULES;
    assert FirstBreach(c, sc, l, rules[1..], now) ==
           if Breached(c, sc, l, RequestsPerDay, now) then Some(RequestsPerDay) else FirstBreach(c, sc, l, BUDGET_RULES, now);
  }

  lemma {:induction false} ScopeInFields(c: Counters, scopes: seq<Scope>, i: nat, now: int)
    requires DistinctScopes(scopes) && i < |scopes| && scopes[i].limits.Some?
    ensures var b := FirstBreach(ApplyAll(c, Entries(scopes, now)), scopes[i], scopes[i].limits.value, REQUEST_RULES + BUDGET_RULES, now);
            if b.None? then PassesAll(c, scopes[i], now) else FailsFirst(c, scopes[i], now, b.value)
  {
    FirstBreachRank(ApplyAll(c, Entries(scopes, now)), scopes[i], scopes[i].limits.value, now);
    forall r: Rule
      ensures Breached(ApplyAll(c, Entries(scopes, now)), scopes[i], scopes[i].limits.value, r, now) <==>
              !Passes(c, scopes[i], scopes[i].limits.value, now, r)
    {
      BreachInFields(c, scopes, i, now, r);
    }
  }

  /** A verdict over the scopes from `i` on, said in the fields. */
  ghost predicate SaysInFields(c: Counters, scopes: seq<Scope>, i: nat, now: int, v: Option<Violation>)
    requires i <= |scopes|
  {
    if v.None? then forall j :: i <= j < |scopes| ==> PassesAll(c, scopes[j], now)
    else
      v.value.Limit? && i <= v.value.scopeIdx < |scopes| && FailsFirst(c, scopes[v.value.scopeIdx], now, v.value.rule) &&
      v.value.retryAfter == Wait(v.value.rule, now) && forall j :: i <= j < v.value.scopeIdx ==> PassesAll(c, scopes[j], now)
  }

  lemma {:induction false} NaiveInFields(c: Counters, scopes: seq<Scope>, i: nat, now: int)
    requires DistinctScopes(scopes) && i <= |scopes|
    ensures SaysInFields(c, scopes, i, now, NaiveFrom(ApplyAll(c, Entries(scopes, now)), scopes, i, now))
    decreases |scopes| - i
  {
    if i < |scopes| {
      NaiveInFields(c, scopes, i + 1, now);
      if scopes[i].limits.Some? { ScopeInFields(c, scopes, i, now); }
    }
  }

  /**
   The reference verdict in the limits' own fields: admitted exactly when every limit of every scope
   passes, and refused by the first limit, in scope order and then in the order of the six, that does not.
   */
  lemma {:induction false} VerdictInFields(c: Counters, scopes: seq<Scope>, now: int)
    requires DistinctScopes(scopes)
    ensures var v := NaiveViolation(ApplyAll(c, Entries(scopes, now)), scopes, now);
            && (v.None? <==> forall j :: 0 <= j < |scopes| ==> PassesAll(c, scopes[j], now))
            && (v.Some? ==> v.value.Limit? && v.value.scopeIdx < |scopes| &&
                            FailsFirst(c, scopes[v.value.scopeIdx], now, v.value.rule) && v.value.retryAfter == Wait(v.value.rule, now) &&
                            forall j :: 0 <= j < v.value.scopeIdx ==> PassesAll(c, scopes[j], now))
  {
    NaiveInFields(c, scopes, 0, now);
  }

  // ---------------------------------------------------------------- planned budget reads

  /** One budget to evaluate; its readings start at `keyStart` of the flat reply. */
  datatype Probe = Probe(rule: Rule, scopeIdx: nat, limit: int, keyStart: nat, tokens: bool)

  datatype Plan = Plan(probes: seq<Probe>, gets: seq<CounterKey>)

  function IsTokenRule(r: Rule): bool { r == TokensPerDay || r == TokensPerMonth }

  function AddProbe(p: Plan, i: nat, sc: Scope, l: Limits, r: Rule, now: int): Plan {
    if LimitOf(l, r) <= 0 then p
    else Plan(p.probes + [Probe(r, i, LimitOf(l, r), |p.gets|, IsTokenRule(r))],
              p.gets + RuleKeys(sc, r, now))
  }

  function AddScope(p: Plan, i: nat, sc: Scope, now: int): Plan {
    match sc.limits
    case None => p
    case Some(l) =>
      var p1 := AddProbe(p, i, sc, l, TokensPerDay, now);
      var p2 := AddProbe(p1, i, sc, l, TokensPerMonth, now);
      var p3 := AddProbe(p2, i, sc, l, CostPerDay, now);
      AddProbe(p3, i, sc, l, CostPerMonth, now)
  }

  /** The plan for the first `n` scopes. */
  function PlanOf(scopes: seq<Scope>, n: nat, now: int): Plan
    requires n <= |scopes|
  {
    if n == 0 then Plan([], []) else AddScope(PlanOf(scopes, n - 1, now), n - 1, scopes[n - 1], now)
  }

  /** Where a probe's readings are, in a reply of `size` values. */
  predicate InReply(p: Probe, size: nat) { p.keyStart + (if p.tokens then 2 else 1) <= size }

  ghost predicate PlanFits(p: Plan) {
    forall j :: 0 <= j < |p.probes| ==> InReply(p.probes[j], |p.gets|)
  }

  lemma AddScopeFits(p: Plan, i: nat, sc: Scope, now: int)
    requires PlanFits(p)
    ensures PlanFits(AddScope(p, i, sc, now)) && p.gets <= AddScope(p, i, sc, now).gets
  {
  }

  lemma {:induction false} PlanAlwaysFits(scopes: seq<Scope>, n: nat, now: int)
    requires n <= |scopes|
    ensures PlanFits(PlanOf(scopes, n, now))
  {
    if n > 0 {
      PlanAlwaysFits(scopes, n - 1, now);
      AddScopeFits(PlanOf(scopes, n - 1, now), n - 1, scopes[n - 1], now);
    }
  }

  /** The budget fields, by rule. */
  function BudgetField(l: Limits, r: Rule): int {
    match r
    case TokensPerDay => l.tokensPerDay
    case TokensPerMonth => l.tokensPerMonth
    case CostPerDay => l.costPerDay
    case CostPerMonth => l.costPerMonth
    case _ => 0
  }

  /** A probe carries its scope's own field and points at that scope's own counters of that field's window. */
  predicate ProbeInFields(p: Probe, scopes: seq<Scope>, gets: seq<CounterKey>, now: int) {
    p.scopeIdx < |scopes| && scopes[p.scopeIdx].limits.Some? && p.limit == BudgetField(scopes[p.scopeIdx].limits.value, p.rule) > 0 &&
    InReply(p, |gets|) &&
    var sc := scopes[p.scopeIdx];
    var w := if p.rule == TokensPerDay || p.rule == CostPerDay then Day else Month;
    if p.rule == TokensPerDay || p.rule == TokensPerMonth then
      p.tokens && gets[p.keyStart] == CounterKey(sc.kind, sc.id, TokIn, w, Bucket(now, w)) &&
      gets[p.keyStart + 1] == CounterKey(sc.kind, sc.id, TokOut, w, Bucket(now, w))
    else !p.tokens && gets[p.keyStart] == CounterKey(sc.kind, sc.id, Cost, w, Bucket(now, w))
  }

  predicate Asked(plan: Plan, i: nat, r: Rule) { exists j :: 0 <= j < |plan.probes| && plan.probes[j].scopeIdx == i && plan.probes[j].rule == r }

  /** Every probe is right, and every positive budget of the first `n` scopes has one. */
  ghost predicate PlanInFields(plan: Plan, scopes: seq<Scope>, n: nat, now: int)
    requires n <= |scopes|
  {
    (forall j :: 0 <= j < |plan.probes| ==> ProbeInFields(plan.probes[j], scopes, plan.gets, now)) &&
    forall i, r :: 0 <= i < n && scopes[i].limits.Some? && BudgetField(scopes[i].limits.value, r) > 0 ==> Asked(plan, i, r)
  }

  lemma {:induction false} AddProbeInFields(plan: Plan, scopes: seq<Scope>, i: nat, l: Limits, r: Rule, now: int)
    requires i < |scopes| && scopes[i].limits == Some(l) && r in BUDGET_RULES
    requires forall j :: 0 <= j < |plan.probes| ==> ProbeInFields(plan.probes[j], scopes, plan.gets, now)
    ensures var next := AddProbe(plan, i, scopes[i], l, r, now);
            && (forall j :: 0 <= j < |next.probes| ==> ProbeInFields(next.probes[j], scopes, next.gets, now))
            && (forall i', r' :: Asked(plan, i', r') ==> Asked(next, i', r'))
            && (BudgetField(l, r) > 0 ==> Asked(next, i, r))
  {
    var next := AddProbe(plan, i, scopes[i], l, r, now);
    forall i', r' | Asked(plan, i', r') ensures Asked(next, i', r') {
      var j :| 0 <= j < |plan.probes| && plan.probes[j].scopeIdx == i' && plan.probes[j].rule == r';
      assert next.probes[j] == plan.probes[j];
    }
    forall j | 0 <= j < |next.probes| ensures ProbeInFields(next.probes[j], scopes, next.gets, now) {
      if j < |plan.probes| { assert next.probes[j] == plan.probes[j] && plan.gets <= next.gets; }
    }
    if BudgetField(l, r) > 0 { assert next.probes[|plan.probes|].rule == r; }
  }

  lemma {:induction false} AddScopeInFields(plan: Plan, next: Plan, scopes: seq<Scope>, i: nat, now: int)
    requires i < |scopes| && PlanInFields(plan, scopes, i, now) && next == AddScope(plan, i, scopes[i], now)
    ensures PlanInFields(next, scopes, i + 1, now)
  {
    if scopes[i].limits.Some? {
      var sc, l := scopes[i], scopes[i].limits.value;
      var p1 := AddProbe(plan, i, sc, l, TokensPerDay, now);
      var p2 := AddProbe(p1, i, sc, l, TokensPerMonth, now);
      var p3 := AddProbe(p2, i, sc, l, CostPerDay, now);
      AddProbeInFields(plan, scopes, i, l, TokensPerDay, now);
      AddProbeInFields(p1, scopes, i, l, TokensPerMonth, now);
      AddProbeInFields(p2, scopes, i, l, CostPerDay, now);
      AddProbeInFields(p3, scopes, i, l, CostPerMonth, now);
    }
  }

  /** The plan in the fields: nothing asked for that is not a budget, no budget left out, every key its own. */
  lemma {:induction false} PlanOfInFields(scopes: seq<Scope>, n: nat, now: int) returns (plan: Plan)
    requires n <= |scopes|
    ensures plan == PlanOf(scopes, n, now) && PlanInFields(plan, scopes, n, now)
  {
    plan := Plan([], []);
    if n > 0 {
      var before := PlanOfInFields(scopes, n - 1, now);
      plan := AddScope(before, n - 1, scopes[n - 1], now);
      AddScopeInFields(before, plan, scopes, n - 1, now);
    }
  }

  /** What a probe compares with its limit, out of the flat reply. */
  function ProbeReading(p: Probe, gets: seq<int>): int
    requires InReply(p, |gets|)
  {
    gets[p.keyStart] + if p.tokens then gets[p.keyStart + 1] else 0
  }

  /** The first probe of scope `i` that reached its limit. */
  function FirstProbe(probes: seq<Probe>, i: nat, gets: seq<int>): Option<Rule>
    requires forall j :: 0 <= j < |probes| ==> InReply(probes[j], |gets|)
  {
    if probes == [] then None
    else if probes[0].scopeIdx == i && ProbeReading(probes[0], gets) >= probes[0].limit then Some(probes[0].rule)
    else FirstProbe(probes[1..], i, gets)
  }

  // ---------------------------------------------------------------- the fused decision

  /** A reply has one value per increment and one per planned read. */
  predicate ReplyFits(scopes: seq<Scope>, now: int, vals: seq<int>, gets: seq<int>) {
    |vals| == 3 * |scopes| && |gets| == |PlanOf(scopes, |scopes|, now).gets|
  }

  function ScopeDecision(scopes: seq<Scope>, i: nat, now: int, vals: seq<int>, gets: seq<int>): Option<Rule>
    requires i < |scopes| && scopes[i].limits.Some?
    requires ReplyFits(scopes, now, vals, gets)
  {
    var l := scopes[i].limits.value;
    if Exceeds(RequestsPerMinute, l.requestsPerMinute, vals[3 * i]) then Some(RequestsPerMinute)
    else if Exceeds(RequestsPerDay, l.requestsPerDay, vals[3 * i + 1]) then Some(RequestsPerDay)
    else
      PlanAlwaysFits(scopes, |scopes|, now);
      FirstProbe(PlanOf(scopes, |scopes|, now).probes, i, gets)
  }

  function DecideFrom(scopes: seq<Scope>, i: nat, now: int, vals: seq<int>, gets: seq<int>): (v: Option<Violation>)
    requires i <= |scopes|
    requires ReplyFits(scopes, now, vals, gets)
    ensures v.Some? ==> v.value.Limit? && i <= v.value.scopeIdx < |scopes| && scopes[v.value.scopeIdx].limits.Some?
    decreases |scopes| - i
  {
    if i == |scopes| then None
    else if scopes[i].limits.None? then DecideFrom(scopes, i + 1, now, vals, gets)
    else
      match ScopeDecision(scopes, i, now, vals, gets)
      case None => DecideFrom(scopes, i + 1, now, vals, gets)
      case Some(r) => Some(Limit(i, r, RetryAfter(now, RuleWindow(r))))
  }

  /** An admitted call passed every limit of every scope, on the values its own reply carried. */
  lemma {:induction false} AdmittedPasses(scopes: seq<Scope>, i: nat, now: int, vals: seq<int>, gets: seq<int>, j: nat)
    requires i <= j < |scopes|
    requires ReplyFits(scopes, now, vals, gets)
    requires DecideFrom(scopes, i, now, vals, gets).None?
    requires scopes[j].limits.Some?
    ensures ScopeDecision(scopes, j, now, vals, gets).None?
    decreases |scopes| - i
  {
    if i < j { AdmittedPasses(scopes, i + 1, now, vals, gets, j); }
  }

  // ---------------------------------------------------------------- fused equals naive

  lemma {:induction false} FirstProbeConcat(ps: seq<Probe>, qs: seq<Probe>, i: nat, gets: seq<int>)
    requires forall j :: 0 <= j < |ps| ==> InReply(ps[j], |gets|)
    requires forall j :: 0 <= j < |qs| ==> InReply(qs[j], |gets|)
    ensures forall j :: 0 <= j < |ps + qs| ==> InReply((ps + qs)[j], |gets|)
    ensures FirstProbe(ps + qs, i, gets) ==
            if FirstProbe(ps, i, gets).Some? then FirstProbe(ps, i, gets) else FirstProbe(qs, i, gets)
  {
    if ps == [] {
      assert ps + qs == qs;
    } else {
      FirstProbeConcat(ps[1..], qs, i, gets);
      assert (ps + qs)[1..] == ps[1..] + qs;
    }
  }

  /** A reply holds the counters' values under the planned keys. */
  ghost predicate Answers(c: Counters, keys: seq<CounterKey>, gets: seq<int>) {
    |keys| <= |gets| && forall j :: 0 <= j < |keys| ==> gets[j] == Value(c, keys[j])
  }

  lemma {:induction false} AddProbeDecision(c: Counters, p: Plan, i: nat, sc: Scope, l: Limits, r: Rule, now: int, gets: seq<int>, s: nat)
    requires r in BUDGET_RULES
    requires PlanFits(p) && Answers(c, AddProbe(p, i, sc, l, r, now).gets, gets)
    ensures PlanFits(AddProbe(p, i, sc, l, r, now)) && Answers(c, p.gets, gets)
    ensures FirstProbe(AddProbe(p, i, sc, l, r, now).probes, s, gets) ==
            if FirstProbe(p.probes, s, gets).Some? then FirstProbe(p.probes, s, gets)
            else if s == i && Breached(c, sc, l, r, now) then Some(r) else None
  {
    var p' := AddProbe(p, i, sc, l, r, now);
    assert p.gets <= p'.gets;
    if LimitOf(l, r) > 0 {
      var probe := Probe(r, i, LimitOf(l, r), |p.gets|, IsTokenRule(r));
      var ks := RuleKeys(sc, r, now);
      assert p'.gets[|p.gets|] == ks[0];
      if IsTokenRule(r) { assert p'.gets[|p.gets| + 1] == ks[1]; }
      FirstProbeConcat(p.probes, [probe], s, gets);
      assert [probe][1..] == [];
    }
  }

  lemma {:induction false} AddScopeDecision(c: Counters, p: Plan, i: nat, sc: Scope, now: int, gets: seq<int>, s: nat)
    requires PlanFits(p) && Answers(c, AddScope(p, i, sc, now).gets, gets)
    ensures PlanFits(AddScope(p, i, sc, now)) && Answers(c, p.gets, gets)
    ensures FirstProbe(AddScope(p, i, sc, now).probes, s, gets) ==
            if FirstProbe(p.probes, s, gets).Some? then FirstProbe(p.probes, s, gets)
            else if s == i && sc.limits.Some? then FirstBreach(c, sc, sc.limits.value, BUDGET_RULES, now) else None
  {
    if sc.limits.Some? {
      var l := sc.limits.value;
      var p1 := AddProbe(p, i, sc, l, TokensPerDay, now);
      var p2 := AddProbe(p1, i, sc, l, TokensPerMonth, now);
      var p3 := AddProbe(p2, i, sc, l, CostPerDay, now);
      assert p1.gets <= p2.gets <= p3.gets <= AddScope(p, i, sc, now).gets;
      AddProbeDecision(c, p, i, sc, l, TokensPerDay, now, gets, s);
      AddProbeDecision(c, p1, i, sc, l, TokensPerMonth, now, gets, s);
      AddProbeDecision(c, p2, i, sc, l, CostPerDay, now, gets, s);
      AddProbeDecision(c, p3, i, sc, l, CostPerMonth, now, gets, s);
      BudgetBreach(c, sc, l, now);
    }
  }

  lemma {:induction false} BudgetBreach(c: Counters, sc: Scope, l: Limits, now: int)
    ensures FirstBreach(c, sc, l, BUDGET_RULES, now) ==
            if Breached(c, sc, l, TokensPerDay, now) then Some(TokensPerDay)
            else if Breached(c, sc, l, TokensPerMonth, now) then Some(TokensPerMonth)
            else if Breached(c, sc, l, CostPerDay, now) then Some(CostPerDay)
            else if Breached(c, sc, l, CostPerMonth, now) then Some(CostPerMonth)
            else None
  {
    var last := [CostPerMonth];
    var costs := [CostPerDay, CostPerMonth];
    var three := [TokensPerMonth, CostPerDay, CostPerMonth];
    assert last[1..] == [] && costs[1..] == last && three[1..] == costs && BUDGET_RULES[1..] == three;
    assert FirstBreach(c, sc, l, last, now) == if Breached(c, sc, l, CostPerMonth, now) then Some(CostPerMonth) else None;
    assert FirstBreach(c, sc, l, costs, now) ==
           if Breached(c, sc, l, CostPerDay, now) then Some(CostPerDay) else FirstBreach(c, sc, l, last, now);
    assert FirstBreach(c, sc, l, three, now) ==
           if Breached(c, sc, l, TokensPerMonth, now) then Some(TokensPerMonth) else FirstBreach(c, sc, l, costs, now);
  }

  /** The probes of scope `s` sit in the flat plan in order, and no other scope's probe answers for it. */
  lemma {:induction false} PlanDecision(c: Counters, scopes: seq<Scope>, n: nat, now: int, gets: seq<int>, s: nat)
    requires n <= |scopes| && s < |scopes|
    requires Answers(c, PlanOf(scopes, n, now).gets, gets)
    ensures PlanFits(PlanOf(scopes, n, now))
    ensures FirstProbe(PlanOf(scopes, n, now).probes, s, gets) ==
            if s < n && scopes[s].limits.Some? then FirstBreach(c, scopes[s], scopes[s].limits.value, BUDGET_RULES, now)
            else None
  {
    PlanAlwaysFits(scopes, n, now);
    if n > 0 {
      var p := PlanOf(scopes, n - 1, now);
      PlanAlwaysFits(scopes, n - 1, now);
      AddScopeDecision(c, p, n - 1, scopes[n - 1], now, gets, s);
      PlanDecision(c, scopes, n - 1, now, gets, s);
    }
  }

  /** The increments' replies are the counters' values, scope by scope. */
  ghost predicate Counts(c: Counters, scopes: seq<Scope>, now: int, vals: seq<int>) {
    |vals| == 3 * |scopes| && forall j :: 0 <= j < |vals| ==> vals[j] == Value(c, Entries(scopes, now)[j].key)
  }

  lemma {:induction false} ScopeDecisionIsNaive(c: Counters, scopes: seq<Scope>, i: nat, now: int, vals: seq<int>, gets: seq<int>)
    requires i < |scopes| && scopes[i].limits.Some?
    requires Counts(c, scopes, now, vals)
    requires |gets| == |PlanOf(scopes, |scopes|, now).gets| && Answers(c, PlanOf(scopes, |scopes|, now).gets, gets)
    ensures ScopeDecision(scopes, i, now, vals, gets) ==
            FirstBreach(c, scopes[i], scopes[i].limits.value, REQUEST_RULES + BUDGET_RULES, now)
  {
    var sc, l := scopes[i], scopes[i].limits.value;
    EntriesAt(scopes, now, i);
    var es := Entries(scopes, now);
    assert es[3 * i] == es[3 * i..3 * i + 3][0] && es[3 * i + 1] == es[3 * i..3 * i + 3][1];
    assert vals[3 * i] == Value(c, es[3 * i].key) && vals[3 * i + 1] == Value(c, es[3 * i + 1].key);
    var rules := REQUEST_RULES + BUDGET_RULES;
    assert rules[1..][0] == RequestsPerDay && rules[1..][1..] == BUDGET_RULES;
    PlanDecision(c, scopes, |scopes|, now, gets, i);
  }

  /**
   Deciding from one flat reply gives the violation, scope and rule that reading every limit one by
   one would give, in the same precedence.
   */
  lemma {:induction false} FusedIsNaive(c: Counters, scopes: seq<Scope>, i: nat, now: int, vals: seq<int>, gets: seq<int>)
    requires i <= |scopes|
    requires Counts(c, scopes, now, vals)
    requires |gets| == |PlanOf(scopes, |scopes|, now).gets| && Answers(c, PlanOf(scopes, |scopes|, now).gets, gets)
    ensures DecideFrom(scopes, i, now, vals, gets) == NaiveFrom(c, scopes, i, now)
    decreases |scopes| - i
  {
    if i < |scopes| {
      FusedIsNaive(c, scopes, i + 1, now, vals, gets);
      if scopes[i].limits.Some? { ScopeDecisionIsNaive(c, scopes, i, now, vals, gets); }
    }
  }

  // ---------------------------------------------------------------- settling a refusal

  function Negate(e: Incr): Incr { Incr(e.key, -e.delta, e.ttl, e.enforceTTL) }

  function NegateScope(sc: Scope, now: int): (es: seq<Incr>)
    ensures |es| == 3
  {
    var es := ScopeEntries(sc, now);
    [Negate(es[0]), Negate(es[1]), Negate(es[2])]
  }

  /** The compensations for the first `n` scopes, the violator's own left out. */
  function Compensations(scopes: seq<Scope>, now: int, violator: nat, n: nat): seq<Incr>
    requires n <= |scopes|
  {
    if n == 0 then []
    else Compensations(scopes, now, violator, n - 1) +
         if n - 1 == violator then [] else NegateScope(scopes[n - 1], now)
  }

  predicate TotalPresent(scopes: seq<Scope>, violator: nat, n: nat)
    requires n <= |scopes|
  {
    exists i :: 0 <= i < n && i != violator && IsTotal(scopes[i])
  }

  function Rejection(kind: string, id: string, w: Window, now: int): Incr {
    Command(Counter(kind, id, Rej, w, now), 1)
  }

  function RejectionEntries(sc: Scope, total: bool, w: Window, now: int): seq<Incr> {
    [Rejection(sc.kind, sc.id, w, now)] + if total then [Rejection(TOTAL_KIND, TOTAL_ID, w, now)] else []
  }

  /** The batch settleRejection sends: compensations, then the rejection counters. */
  function SettleBatch(scopes: seq<Scope>, now: int, violator: nat, stats: bool): seq<Incr>
    requires violator < |scopes|
  {
    var total := TotalPresent(scopes, violator, |scopes|);
    Compensations(scopes, now, violator, |scopes|) +
    RejectionEntries(scopes[violator], total, Day, now) +
    if stats then RejectionEntries(scopes[violator], total, Hour, now) else []
  }

  lemma NetOfNegateScope(sc: Scope, now: int, k: CounterKey)
    ensures Net(NegateScope(sc, now), k) == if Touches(sc, now, k) then -1 else 0
  {
    var es, f := NegateScope(sc, now), DeltaOn(k);
    SumThree(es[0], es[1], es[2], f);
    assert es == [es[0], es[1], es[2]];
  }

  lemma {:induction false} NetOfCompensations(scopes: seq<Scope>, now: int, violator: nat, n: nat, k: CounterKey)
    requires n <= |scopes| && violator < |scopes|
    ensures Net(Compensations(scopes, now, violator, n), k) ==
            0 - CountOf(scopes[..n], TouchedAt(now, k)) + if violator < n && Touches(scopes[violator], now, k) then 1 else 0
  {
    if n > 0 {
      NetOfCompensations(scopes, now, violator, n - 1, k);
      assert scopes[..n] == scopes[..n - 1] + [scopes[n - 1]];
      CountAppend(scopes[..n - 1], scopes[n - 1], TouchedAt(now, k));
      CompensationStep(scopes, now, violator, n, k);
    }
  }

  lemma {:induction false} CompensationStep(scopes: seq<Scope>, now: int, violator: nat, n: nat, k: CounterKey)
    requires 0 < n <= |scopes|
    ensures Net(Compensations(scopes, now, violator, n), k) ==
            Net(Compensations(scopes, now, violator, n - 1), k) -
            if n - 1 != violator && Touches(scopes[n - 1], now, k) then 1 else 0
  {
    if n - 1 != violator {
      NetOfNegateScope(scopes[n - 1], now, k);
      SumConcat(Compensations(scopes, now, violator, n - 1), NegateScope(scopes[n - 1], now), DeltaOn(k));
    } else {
      assert Compensations(scopes, now, violator, n) == Compensations(scopes, now, violator, n - 1);
    }
  }

  /** The rejection counter of a scope at this instant. */
  predicate IsRejectionOf(kind: string, id: string, w: Window, now: int, k: CounterKey) {
    k == Counter(kind, id, Rej, w, now)
  }

  lemma NetOfRejections(sc: Scope, total: bool, w: Window, now: int, k: CounterKey)
    ensures Net(RejectionEntries(sc, total, w, now), k) ==
            (if IsRejectionOf(sc.kind, sc.id, w, now, k) then 1 else 0) +
            (if total && IsRejectionOf(TOTAL_KIND, TOTAL_ID, w, now, k) then 1 else 0)
  {
    var a, b := [Rejection(sc.kind, sc.id, w, now)], [Rejection(TOTAL_KIND, TOTAL_ID, w, now)];
    SumConcat(a, b, DeltaOn(k));
    assert a + [] == a;
  }

  /** The marks of a refusal by `sc` on the rejection counter `k`: the violator's, and the total's if it was listed beside it. */
  function RejectionMarks(sc: Scope, total: bool, now: int, stats: bool, k: CounterKey): int {
    var here := k.metric == Rej && k.bucket == Bucket(now, k.window) && (k.window == Day || (stats && k.window == Hour));
    (if here && k.kind == sc.kind && k.id == sc.id then 1 else 0) +
    (if here && total && k.kind == "total" && k.id == "all" then 1 else 0)
  }

  /** What a settled refusal leaves on the rejection counter `k`. */
  function RejectionShare(scopes: seq<Scope>, now: int, violator: nat, stats: bool, k: CounterKey): int
    requires violator < |scopes|
  {
    RejectionMarks(scopes[violator],
                   exists i :: 0 <= i < |scopes| && i != violator && scopes[i].kind == "total" && scopes[i].id == "all", now, stats, k)
  }

  lemma {:induction false} NetOfMarks(sc: Scope, total: bool, now: int, stats: bool, k: CounterKey)
    ensures Net(RejectionEntries(sc, total, Day, now) + if stats then RejectionEntries(sc, total, Hour, now) else [], k) ==
            RejectionMarks(sc, total, now, stats, k)
  {
    NetOfRejections(sc, total, Day, now, k);
    NetOfRejections(sc, total, Hour, now, k);
    SumConcat(RejectionEntries(sc, total, Day, now), if stats then RejectionEntries(sc, total, Hour, now) else [], DeltaOn(k));
  }

  lemma TotalSpelled(scopes: seq<Scope>, violator: nat)
    ensures TotalPresent(scopes, violator, |scopes|) <==>
            exists i :: 0 <= i < |scopes| && i != violator && scopes[i].kind == "total" && scopes[i].id == "all"
  {
    if i :| 0 <= i < |scopes| && i != violator && IsTotal(scopes[i]) { assert scopes[i].kind == "total" && scopes[i].id == "all"; }
    if i :| 0 <= i < |scopes| && i != violator && scopes[i].kind == "total" && scopes[i].id == "all" { assert IsTotal(scopes[i]); }
  }

  /**
   A refused and settled call leaves exactly one trace per counter: +1 on the violating scope's own
   request counters, +1 on the rejection counters, and nothing on any other scope's counters.
   */
  lemma {:induction false} NetOfRefusal(scopes: seq<Scope>, now: int, violator: nat, stats: bool, k: CounterKey)
    requires violator < |scopes|
    ensures Net(Entries(scopes, now) + SettleBatch(scopes, now, violator, stats), k) ==
            (if Touches(scopes[violator], now, k) then 1 else 0) + RejectionShare(scopes, now, violator, stats, k)
  {
    var f := DeltaOn(k);
    var total := TotalPresent(scopes, violator, |scopes|);
    var comp := Compensations(scopes, now, violator, |scopes|);
    var marks := RejectionEntries(scopes[violator], total, Day, now) + if stats then RejectionEntries(scopes[violator], total, Hour, now) else [];
    NetOfEntries(scopes, now, k);
    NetOfCompensations(scopes, now, violator, |scopes|, k);
    assert scopes[..|scopes|] == scopes;
    NetOfMarks(scopes[violator], total, now, stats, k);
    TotalSpelled(scopes, violator);
    SettleSplit(scopes, now, violator, stats);
    SumConcat(comp, marks, f);
    SumConcat(Entries(scopes, now), comp + marks, f);
  }

  lemma {:induction false} SettleSplit(scopes: seq<Scope>, now: int, violator: nat, stats: bool)
    requires violator < |scopes|
    ensures var total := TotalPresent(scopes, violator, |scopes|);
            SettleBatch(scopes, now, violator, stats) ==
            Compensations(scopes, now, violator, |scopes|) +
            (RejectionEntries(scopes[violator], total, Day, now) + if stats then RejectionEntries(scopes[violator], total, Hour, now) else [])
  {
  }

  // ---------------------------------------------------------------- accounting

  const MAX_TOKENS: int := 0x4000_0000
  const MAX_COST: int := 0x100_0000_0000

  datatype Usage = Usage(prompt: int, completion: int)

  /** A figure outside `0..cap` is dropped. */
  function Plausible(figure: int, cap: int): int { if figure < 0 || figure > cap then 0 else figure }

  /** Hour, day and month of one metric, or nothing for a zero amount. */
  function MetricEntries(kind: string, id: string, m: Metric, amount: int, now: int): seq<Incr> {
    if amount == 0 then []
    else [ Command(Counter(kind, id, m, Hour, now), amount),
           Command(Counter(kind, id, m, Day, now), amount),
           Command(Counter(kind, id, m, Month, now), amount) ]
  }

  function ScopeCharges(sc: Scope, now: int, u: Usage, cost: int): seq<Incr> {
    (if sc.kind == MODEL_KIND then MetricEntries(sc.kind, sc.id, Req, 1, now) else []) +
    MetricEntries(sc.kind, sc.id, TokIn, u.prompt, now) +
    MetricEntries(sc.kind, sc.id, TokOut, u.completion, now) +
    MetricEntries(sc.kind, sc.id, Cost, cost, now)
  }

  function ChargesOf(scopes: seq<Scope>, now: int, u: Usage, cost: int): seq<Incr> {
    if scopes == [] then []
    else ChargesOf(scopes[..|scopes| - 1], now, u, cost) + ScopeCharges(scopes[|scopes| - 1], now, u, cost)
  }

  /** accountWith's batch, after the plausibility bounds. */
  function AccountBatch(scopes: seq<Scope>, now: int, u: Usage, cost: int): seq<Incr> {
    ChargesOf(scopes, now,
              Usage(Plausible(u.prompt, MAX_TOKENS), Plausible(u.completion, MAX_TOKENS)),
              Plausible(cost, MAX_COST))
  }

  /** The counters a charge on the scope goes to: hour, day and month of this instant. */
  predicate ChargedAt(sc: Scope, now: int, k: CounterKey) {
    sc.kind == k.kind && sc.id == k.id && k.window != Min && k.bucket == Bucket(now, k.window)
  }

  /** What a report is worth on one metric: its figures, and one request for a served model. */
  function Worth(u: Usage, cost: int, kind: string, m: Metric): int {
    match m
    case TokIn => u.prompt
    case TokOut => u.completion
    case Cost => cost
    case Req => if kind == MODEL_KIND then 1 else 0
    case Rej => 0
  }

  lemma {:induction false} NetOfMetricEntries(sc: Scope, m: Metric, amount: int, now: int, k: CounterKey)
    ensures Net(MetricEntries(sc.kind, sc.id, m, amount, now), k) == if ChargedAt(sc, now, k) && m == k.metric then amount else 0
  {
    if amount != 0 {
      var es := MetricEntries(sc.kind, sc.id, m, amount, now);
      SumThree(es[0], es[1], es[2], DeltaOn(k));
      assert es == [es[0], es[1], es[2]];
    }
  }

  lemma {:induction false} NetOfScopeCharges(sc: Scope, now: int, u: Usage, cost: int, k: CounterKey)
    ensures Net(ScopeCharges(sc, now, u, cost), k) == if ChargedAt(sc, now, k) then Worth(u, cost, k.kind, k.metric) else 0
  {
    var f := DeltaOn(k);
    var req := if sc.kind == MODEL_KIND then MetricEntries(sc.kind, sc.id, Req, 1, now) else [];
    var tin := MetricEntries(sc.kind, sc.id, TokIn, u.prompt, now);
    var tout := MetricEntries(sc.kind, sc.id, TokOut, u.completion, now);
    var paid := MetricEntries(sc.kind, sc.id, Cost, cost, now);
    NetOfMetricEntries(sc, Req, 1, now, k);
    NetOfMetricEntries(sc, TokIn, u.prompt, now, k);
    NetOfMetricEntries(sc, TokOut, u.completion, now, k);
    NetOfMetricEntries(sc, Cost, cost, now, k);
    SumConcat(req, tin, f);
    SumConcat(req + tin, tout, f);
    SumConcat(req + tin + tout, paid, f);
  }

  ghost predicate SomeCharged(scopes: seq<Scope>, now: int, k: CounterKey) { exists i :: 0 <= i < |scopes| && ChargedAt(scopes[i], now, k) }

  lemma {:induction false} ChargedSnoc(scopes: seq<Scope>, now: int, k: CounterKey)
    requires scopes != []
    ensures var n := |scopes| - 1; SomeCharged(scopes, now, k) <==> SomeCharged(scopes[..n], now, k) || ChargedAt(scopes[n], now, k)
    ensures var n := |scopes| - 1;
            DistinctScopes(scopes) ==> DistinctScopes(scopes[..n]) && !(SomeCharged(scopes[..n], now, k) && ChargedAt(scopes[n], now, k))
  {
    var n := |scopes| - 1;
    var init := scopes[..n];
    assert forall i :: 0 <= i < n ==> init[i] == scopes[i];
    if i :| 0 <= i < n && ChargedAt(init[i], now, k) { assert ChargedAt(scopes[i], now, k); }
  }

  lemma {:induction false} ChargesStep(scopes: seq<Scope>, now: int, u: Usage, cost: int, k: CounterKey)
    requires scopes != []
    ensures var n := |scopes| - 1;
            Net(ChargesOf(scopes, now, u, cost), k) ==
            Net(ChargesOf(scopes[..n], now, u, cost), k) + if ChargedAt(scopes[n], now, k) then Worth(u, cost, k.kind, k.metric) else 0
  {
    var n := |scopes| - 1;
    NetOfScopeCharges(scopes[n], now, u, cost, k);
    SumConcat(ChargesOf(scopes[..n], now, u, cost), ScopeCharges(scopes[n], now, u, cost), DeltaOn(k));
  }

  /** One report charges each counter of each listed scope exactly once, and no other counter. */
  lemma {:induction false} NetOfCharges(scopes: seq<Scope>, now: int, u: Usage, cost: int, k: CounterKey)
    requires DistinctScopes(scopes)
    ensures Net(ChargesOf(scopes, now, u, cost), k) == if SomeCharged(scopes, now, k) then Worth(u, cost, k.kind, k.metric) else 0
  {
    if scopes != [] {
      ChargedSnoc(scopes, now, k);
      NetOfCharges(scopes[..|scopes| - 1], now, u, cost, k);
      ChargesStep(scopes, now, u, cost, k);
    }
  }

  /**
   What a report adds to a counter: to the hour, day and month counters of every listed scope its
   figures, up to 2^30 tokens and 2^40 micro-USD and otherwise nothing, and one request to a model's.
   */
  function Owed(scopes: seq<Scope>, now: int, u: Usage, cost: int, k: CounterKey): int {
    if k.window == Min || k.bucket != Bucket(now, k.window) ||
       !exists i :: 0 <= i < |scopes| && scopes[i].kind == k.kind && scopes[i].id == k.id
    then 0
    else
      match k.metric
      case TokIn => if 0 <= u.prompt <= 1_073_741_824 then u.prompt else 0
      case TokOut => if 0 <= u.completion <= 1_073_741_824 then u.completion else 0
      case Cost => if 0 <= cost <= 1_099_511_627_776 then cost else 0
      case Req => if k.kind == "model" then 1 else 0
      case Rej => 0
  }

  lemma {:induction false} ChargedIsListed(scopes: seq<Scope>, now: int, k: CounterKey)
    ensures SomeCharged(scopes, now, k) <==>
            k.window != Min && k.bucket == Bucket(now, k.window) && exists i :: 0 <= i < |scopes| && scopes[i].kind == k.kind && scopes[i].id == k.id
  {
    if i :| 0 <= i < |scopes| && ChargedAt(scopes[i], now, k) { assert scopes[i].kind == k.kind && scopes[i].id == k.id; }
    if k.window != Min && k.bucket == Bucket(now, k.window) {
      if i :| 0 <= i < |scopes| && scopes[i].kind == k.kind && scopes[i].id == k.id { assert ChargedAt(scopes[i], now, k); }
    }
  }

  lemma {:induction false} OwedIsWorth(scopes: seq<Scope>, now: int, u: Usage, cost: int, k: CounterKey)
    ensures Owed(scopes, now, u, cost, k) ==
            if SomeCharged(scopes, now, k)
            then Worth(Usage(Plausible(u.prompt, MAX_TOKENS), Plausible(u.completion, MAX_TOKENS)), Plausible(cost, MAX_COST), k.kind, k.metric)
            else 0
  {
    ChargedIsListed(scopes, now, k);
  }

  /** Every counter before and after a report whose batch went through. */
  lemma {:induction false} ReportEffect(c: Counters, scopes: seq<Scope>, now: int, u: Usage, cost: int, k: CounterKey)
    requires DistinctScopes(scopes)
    ensures Value(ApplyAll(c, AccountBatch(scopes, now, u, cost)), k) == Value(c, k) + Owed(scopes, now, u, cost, k)
  {
    ApplyAllValue(c, AccountBatch(scopes, now, u, cost), k);
    NetOfCharges(scopes, now, Usage(Plausible(u.prompt, MAX_TOKENS), Plausible(u.completion, MAX_TOKENS)), Plausible(cost, MAX_COST), k);
    OwedIsWorth(scopes, now, u, cost, k);
  }

  const MAX_MODEL_ID: nat := 256

  /** withModelScope: the served model's scope, unless its id names no model or is not printable. */
  function WithModelScope(scopes: seq<Scope>, canonical: string): seq<Scope> {
    if canonical == "" || canonical[|canonical| - 1] == '/' || |canonical| > MAX_MODEL_ID
       || (exists i :: 0 <= i < |canonical| && (canonical[i] < 0x20 as char || canonical[i] == 0x7f as char))
    then scopes
    else scopes + [Scope(None, MODEL_KIND, canonical)]
  }
}
