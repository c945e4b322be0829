/**
 How far a token or cost budget can be overshot: under every interleaving of store commands, if at
 most `K` requests carrying the scope are in flight at any moment and each spends at most `C`, the
 total in any bucket never exceeds `limit - 1 + K * C`, rollovers included.

 A request is cleared for a bucket when it started before the bucket did, or when what it has read of
 the budget is below the limit. A cleared request weighs `C` while it may still spend, that is while
 the bucket lasts or it owes charges on it; any other weighs what it has spent. Only such a request
 can spend, so the total weight grows only when a request becomes cleared, and at that moment what is
 already spent is below the limit. The backend has to tell the truth about the budget only while the
 bucket lasts.
 */
module BudgetBound {
  import opened Common
  import opened DivMod
  import opened Calendar
  import opened Keys
  import opened Admission
  import opened Protocol

  /** A token or cost budget of one scope in one bucket. */
  datatype Budget = Budget(kind: string, id: string, rule: Rule, bucket: int)

  ghost predicate IsBudget(b: Budget) { b.rule in BUDGET_RULES && b.kind != MODEL_KIND }

  /** The day or the month the budget is for. */
  function BudgetWindow(b: Budget): Window { if b.rule == TokensPerDay || b.rule == CostPerDay then Day else Month }

  /** Prompt and completion tokens of the window, or its cost. */
  function BudgetKeys(b: Budget): (ks: seq<CounterKey>)
    ensures 1 <= |ks| <= 2
  {
    var w := BudgetWindow(b);
    if b.rule == TokensPerDay || b.rule == TokensPerMonth
    then [CounterKey(b.kind, b.id, TokIn, w, b.bucket), CounterKey(b.kind, b.id, TokOut, w, b.bucket)]
    else [CounterKey(b.kind, b.id, Cost, w, b.bucket)]
  }

  function Total(s: State, b: Budget): int { Used(s.counters, BudgetKeys(b)) }

  predicate ScopeAt(q: Request, b: Budget, i: int) {
    0 <= i < |q.scopes| && q.scopes[i].kind == b.kind && q.scopes[i].id == b.id
  }

  /** Not yet refused and not yet closed. */
  predicate IsOpen(q: Request) { q.phase.Counting? || q.phase.Reading? || q.phase.Admitted? }

  ghost predicate InFlight(q: Request, b: Budget) { IsOpen(q) && exists i :: ScopeAt(q, b, i) }

  ghost function InFlightOn(b: Budget): Request -> bool { (q: Request) => InFlight(q, b) }

  ghost function Spent(q: Request, b: Budget): int {
    var ks := BudgetKeys(b);
    Net(q.executed, ks[0]) + if |ks| == 2 then Net(q.executed, ks[1]) else 0
  }

  ghost function SpentOn(b: Budget): Request -> int { (q: Request) => Spent(q, b) }

  // ---------------------------------------------------------------- where a budget's readings are

  /** The plan just before the probe of scope `i` for a budget rule is added. */
  function PlanBefore(scopes: seq<Scope>, i: nat, r: Rule, now: int): Plan
    requires i < |scopes|
  {
    var p := PlanOf(scopes, i, now);
    var sc := scopes[i];
    match sc.limits
    case None => p
    case Some(l) =>
      var p1 := AddProbe(p, i, sc, l, TokensPerDay, now);
      var p2 := AddProbe(p1, i, sc, l, TokensPerMonth, now);
      var p3 := AddProbe(p2, i, sc, l, CostPerDay, now);
      match r
      case TokensPerMonth => p1
      case CostPerDay => p2
      case CostPerMonth => p3
      case _ => p
  }

  function ProbeStart(scopes: seq<Scope>, i: nat, r: Rule, now: int): nat
    requires i < |scopes|
  {
    |PlanBefore(scopes, i, r, now).gets|
  }

  lemma {:induction false} PlanGrows(scopes: seq<Scope>, m: nat, n: nat, now: int)
    requires m <= n <= |scopes|
    ensures PlanOf(scopes, m, now).gets <= PlanOf(scopes, n, now).gets
    ensures PlanOf(scopes, m, now).probes <= PlanOf(scopes, n, now).probes
    decreases n - m
  {
    if m < n { PlanGrows(scopes, m, n - 1, now); }
  }

  /** A positive budget has its probe in the plan, pointing at its own keys. */
  lemma {:induction false} ProbePlaced(scopes: seq<Scope>, i: nat, r: Rule, now: int)
    requires i < |scopes| && scopes[i].limits.Some? && r in BUDGET_RULES && LimitOf(scopes[i].limits.value, r) > 0
    ensures var plan := PlanOf(scopes, |scopes|, now);
            PlanBefore(scopes, i, r, now).gets + RuleKeys(scopes[i], r, now) <= plan.gets &&
            Probe(r, i, LimitOf(scopes[i].limits.value, r), ProbeStart(scopes, i, r, now), IsTokenRule(r)) in plan.probes
  {
    ProbeAdded(scopes, i, r, now);
    PlanGrows(scopes, i + 1, |scopes|, now);
    var before, next, plan := PlanBefore(scopes, i, r, now), PlanOf(scopes, i + 1, now), PlanOf(scopes, |scopes|, now);
    assert plan.probes[|before.probes|] == next.probes[|before.probes|];
  }

  lemma {:induction false} ProbeAdded(scopes: seq<Scope>, i: nat, r: Rule, now: int)
    requires i < |scopes| && scopes[i].limits.Some? && r in BUDGET_RULES && LimitOf(scopes[i].limits.value, r) > 0
    ensures var before, next := PlanBefore(scopes, i, r, now), PlanOf(scopes, i + 1, now);
            before.gets + RuleKeys(scopes[i], r, now) <= next.gets && |before.probes| < |next.probes| &&
            next.probes[|before.probes|] == Probe(r, i, LimitOf(scopes[i].limits.value, r), |before.gets|, IsTokenRule(r))
  {
    var sc, l := scopes[i], scopes[i].limits.value;
    var before, next := PlanBefore(scopes, i, r, now), PlanOf(scopes, i + 1, now);
    var after := AddProbe(before, i, sc, l, r, now);
    assert after.gets <= next.gets && after.probes <= next.probes;
  }

  lemma {:induction false} NoProbeBreached(probes: seq<Probe>, i: nat, gets: seq<int>, p: Probe)
    requires forall j :: 0 <= j < |probes| ==> InReply(probes[j], |gets|)
    requires FirstProbe(probes, i, gets).None? && p in probes && p.scopeIdx == i
    ensures InReply(p, |gets|) && ProbeReading(p, gets) < p.limit
  {
    if probes[0] != p { NoProbeBreached(probes[1..], i, gets, p); }
  }

  /** What a request has read of the budget, an unread second key standing at its present value. */
  function Seen(q: Request, c: Counters, b: Budget, i: nat): int
    requires i < |q.scopes| && ProbeStart(q.scopes, i, b.rule, q.now) < |q.gets|
  {
    var p, ks := ProbeStart(q.scopes, i, b.rule, q.now), BudgetKeys(b);
    q.gets[p] + if |ks| == 1 then 0 else if p + 1 < |q.gets| then q.gets[p + 1] else Value(c, ks[1])
  }

  ghost predicate ReadBelow(q: Request, c: Counters, b: Budget, limit: int) {
    exists i :: ScopeAt(q, b, i) && ProbeStart(q.scopes, i, b.rule, q.now) < |q.gets| && Seen(q, c, b, i) < limit
  }

  /** In flight, and either started before the bucket or found the budget below the limit. */
  ghost predicate Cleared(q: Request, c: Counters, b: Budget, limit: int) {
    InFlight(q, b) &&
    (Bucket(q.now, RuleWindow(b.rule)) < b.bucket ||
     (Bucket(q.now, RuleWindow(b.rule)) == b.bucket && ReadBelow(q, c, b, limit)))
  }

  /** It still has charges on the budget to send. */
  ghost predicate Owes(q: Request, b: Budget) { exists j :: 0 <= j < |q.todo| && q.todo[j].key in BudgetKeys(b) }

  /** The bucket has not ended. */
  predicate Lasts(clock: int, b: Budget) { Bucket(clock, RuleWindow(b.rule)) <= b.bucket }

  ghost predicate MaySpend(q: Request, c: Counters, clock: int, b: Budget, limit: int) {
    Cleared(q, c, b, limit) && (Lasts(clock, b) || Owes(q, b))
  }

  /** A request that may still spend weighs `most`; any other what it has spent. */
  ghost function Weight(c: Counters, clock: int, b: Budget, limit: int, most: int): Request -> int {
    (q: Request) => if MaySpend(q, c, clock, b, limit) then most else Spent(q, b)
  }

  ghost function WeightOf(s: State, b: Budget, limit: int, most: int): int {
    SumOf(s.requests, Weight(s.counters, s.clock, b, limit, most))
  }

  /** While the bucket lasts, answers about the budget's counters are the truth. */
  ghost predicate TruthfulFor(s: State, a: Action, b: Budget) {
    Lasts(s.clock, b) ==> forall k :: k in BudgetKeys(b) ==> TruthfulOn(s, a, k)
  }

  /** The budget's own field of the limits is set, to at most `limit`. */
  predicate FieldWithin(limits: Option<Limits>, rule: Rule, limit: int) {
    limits.Some? &&
    match rule
    case TokensPerDay => 0 < limits.value.tokensPerDay <= limit
    case TokensPerMonth => 0 < limits.value.tokensPerMonth <= limit
    case CostPerDay => 0 < limits.value.costPerDay <= limit
    case CostPerMonth => 0 < limits.value.costPerMonth <= limit
    case _ => false
  }

  /** Every request naming the scope carries the budget, at most `limit`. */
  ghost predicate LimitedTo(q: Request, b: Budget, limit: int) {
    forall i :: ScopeAt(q, b, i) ==> FieldWithin(q.scopes[i].limits, b.rule, limit)
  }

  /** What a state is required to satisfy: the limit, the concurrency bound and the spending bound. */
  ghost predicate Bounded(s: State, b: Budget, limit: int, inFlight: nat, most: int) {
    CountOf(s.requests, InFlightOn(b)) <= inFlight &&
    forall r :: 0 <= r < |s.requests| ==> LimitedTo(s.requests[r], b, limit) && Spent(s.requests[r], b) <= most
  }

  // ---------------------------------------------------------------- spending

  lemma SpentNonNegative(q: Request, clock: int, stats: bool, b: Budget)
    requires Ok(q, clock, stats)
    ensures Spent(q, b) >= 0
  {
    var ks := BudgetKeys(b);
    NetNonNegative(q, clock, stats, ks[0]);
    if |ks| == 2 { NetNonNegative(q, clock, stats, ks[1]); }
  }

  lemma TotalIsSpent(s: State, b: Budget)
    requires Ledger(s)
    ensures Total(s, b) == SumOf(s.requests, SpentOn(b))
  {
    var ks := BudgetKeys(b);
    if |ks| == 1 {
      SumEqual(s.requests, NetOn(ks[0]), SpentOn(b));
    } else {
      SumPair(s.requests, NetOn(ks[0]), NetOn(ks[1]), SpentOn(b));
    }
  }

  lemma {:induction false} WeightSum(qs: seq<Request>, p: Request -> bool, f: Request -> int, g: Request -> int, most: int)
    requires most >= 0
    requires forall i :: 0 <= i < |qs| ==> f(qs[i]) >= 0 && g(qs[i]) <= f(qs[i]) + if p(qs[i]) then most else 0
    ensures SumOf(qs, g) <= SumOf(qs, f) + CountOf(qs, p) * most
  {
    if qs != [] {
      var init := qs[..|qs| - 1];
      assert forall i :: 0 <= i < |init| ==> init[i] == qs[i];
      WeightSum(init, p, f, g, most);
      var last := qs[|qs| - 1];
      if p(last) {
        assert CountOf(qs, p) == CountOf(init, p) + 1;
        assert (CountOf(init, p) + 1) * most == CountOf(init, p) * most + most;
      }
    }
  }

  /** While the bucket's total is below the limit the weight is within the bound. */
  lemma WeightWhenBelow(s: State, b: Budget, limit: int, inFlight: nat, most: int)
    requires Inv(s) && most >= 0 && Bounded(s, b, limit, inFlight, most)
    requires Total(s, b) <= limit - 1
    ensures WeightOf(s, b, limit, most) <= limit - 1 + inFlight * most
  {
    forall r | 0 <= r < |s.requests| ensures SpentOn(b)(s.requests[r]) >= 0 {
      SpentNonNegative(s.requests[r], s.clock, s.stats, b);
    }
    TotalIsSpent(s, b);
    WeightSum(s.requests, InFlightOn(b), SpentOn(b), Weight(s.counters, s.clock, b, limit, most), most);
    MulMonotone(CountOf(s.requests, InFlightOn(b)), inFlight, most);
  }

  lemma {:induction false} NetOutside(es: seq<Incr>, k: CounterKey)
    requires forall j :: 0 <= j < |es| ==> es[j].key != k
    ensures Net(es, k) == 0
  {
    SumZero(es, DeltaOn(k));
  }

  /** Nothing is spent in a bucket that has not begun. */
  lemma NothingSpentEarly(q: Request, clock: int, stats: bool, b: Budget)
    requires Ok(q, clock, stats) && IsBudget(b) && Bucket(clock, RuleWindow(b.rule)) < b.bucket
    ensures Spent(q, b) == 0
  {
    forall k | k in BudgetKeys(b) ensures Net(q.executed, k) == 0 {
      var n := 3 * |q.scopes|;
      EntriesSigns(q.scopes, q.now);
      if q.phase.Refused? { SettleSigns(q.scopes, q.now, q.phase.violator, stats); }
      forall j | 0 <= j < |q.executed| ensures q.executed[j].key != k {
        if q.phase.Counting? || q.phase.Refused? {
          assert q.executed[j] == (q.executed + q.todo)[j];
        } else if j < n {
          assert q.executed[j] == Entries(q.scopes, q.now)[j];
        } else {
          assert q.executed[j] == (q.executed[n..] + q.todo)[j - n];
        }
      }
      NetOutside(q.executed, k);
    }
    assert BudgetKeys(b)[0] in BudgetKeys(b) && BudgetKeys(b)[|BudgetKeys(b)| - 1] in BudgetKeys(b);
  }

  lemma TotalEarly(s: State, b: Budget)
    requires Inv(s) && IsBudget(b) && Bucket(s.clock, RuleWindow(b.rule)) < b.bucket
    ensures Total(s, b) == 0
  {
    forall r | 0 <= r < |s.requests| ensures SpentOn(b)(s.requests[r]) == 0 {
      NothingSpentEarly(s.requests[r], s.clock, s.stats, b);
    }
    SumZero(s.requests, SpentOn(b));
    TotalIsSpent(s, b);
  }

  // ---------------------------------------------------------------- only a cleared request spends

  /** An admitted request that started in the bucket read the budget below its own limit. */
  lemma AdmittedReadBelow(q: Request, clock: int, stats: bool, c: Counters, b: Budget, limit: int, i: int)
    requires Ok(q, clock, stats) && IsBudget(b) && q.phase.Admitted? && LimitedTo(q, b, limit)
    requires ScopeAt(q, b, i) && Bucket(q.now, RuleWindow(b.rule)) == b.bucket
    ensures ReadBelow(q, c, b, limit)
  {
    var l := q.scopes[i].limits.value;
    AdmittedPasses(q.scopes, 0, q.now, q.vals, q.gets, i);
    ProbePlaced(q.scopes, i, b.rule, q.now);
    PlanAlwaysFits(q.scopes, |q.scopes|, q.now);
    var plan := PlanOf(q.scopes, |q.scopes|, q.now);
    var probe := Probe(b.rule, i, LimitOf(l, b.rule), ProbeStart(q.scopes, i, b.rule, q.now), IsTokenRule(b.rule));
    NoProbeBreached(plan.probes, i, q.gets, probe);
    assert Seen(q, c, b, i) == ProbeReading(probe, q.gets);
  }

  /** The next command of a request touches the budget only if the request is admitted and cleared. */
  lemma SpenderIsCleared(q: Request, clock: int, stats: bool, c: Counters, b: Budget, limit: int)
    requires Ok(q, clock, stats) && IsBudget(b) && LimitedTo(q, b, limit)
    requires q.todo != [] && q.todo[0].key in BudgetKeys(b)
    ensures q.phase.Admitted? && Cleared(q, c, b, limit) && q.todo[0].delta >= 0
  {
    var e := q.todo[0];
    EntriesSigns(q.scopes, q.now);
    assert e == (q.executed + q.todo)[|q.executed|];
    if q.phase.Refused? { SettleSigns(q.scopes, q.now, q.phase.violator, stats); }
    assert q.phase.Admitted?;
    var n := 3 * |q.scopes|;
    assert e == (q.executed[n..] + q.todo)[|q.executed| - n];
    var i :| 0 <= i < |q.scopes| && q.scopes[i].kind == e.key.kind && q.scopes[i].id == e.key.id;
    assert ScopeAt(q, b, i);
    if Bucket(q.now, RuleWindow(b.rule)) == b.bucket {
      AdmittedReadBelow(q, clock, stats, c, b, limit, i);
    }
  }

  // ---------------------------------------------------------------- steps

  lemma SameScopes(q: Request, q': Request, b: Budget)
    requires q'.scopes == q.scopes
    ensures (exists i :: ScopeAt(q, b, i)) <==> (exists i :: ScopeAt(q', b, i))
  {
    if i :| ScopeAt(q, b, i) { assert ScopeAt(q', b, i); }
    if i :| ScopeAt(q', b, i) { assert ScopeAt(q, b, i); }
  }

  lemma SameReading(q: Request, q': Request, c: Counters, b: Budget, limit: int)
    requires q'.scopes == q.scopes && q'.now == q.now && q'.gets == q.gets
    requires ReadBelow(q, c, b, limit)
    ensures ReadBelow(q', c, b, limit)
  {
    var i :| ScopeAt(q, b, i) && ProbeStart(q.scopes, i, b.rule, q.now) < |q.gets| && Seen(q, c, b, i) < limit;
    assert ScopeAt(q', b, i) && Seen(q', c, b, i) == Seen(q, c, b, i);
  }

  /** A counter that grows can only take requests out of the cleared set. */
  lemma GrowthUnclears(q: Request, c: Counters, c': Counters, b: Budget, limit: int)
    requires forall k :: k in BudgetKeys(b) ==> Value(c, k) <= Value(c', k)
    requires Cleared(q, c', b, limit)
    ensures Cleared(q, c, b, limit)
  {
    if !(Bucket(q.now, RuleWindow(b.rule)) < b.bucket) {
      var i :| ScopeAt(q, b, i) && ProbeStart(q.scopes, i, b.rule, q.now) < |q.gets| && Seen(q, c', b, i) < limit;
      if |BudgetKeys(b)| == 2 { assert BudgetKeys(b)[1] in BudgetKeys(b); }
      assert Seen(q, c, b, i) <= Seen(q, c', b, i);
    }
  }

  lemma WeightsAfterStep(s: State, s': State, r: nat, b: Budget, limit: int, most: int)
    requires r < |s.requests| && |s'.requests| == |s.requests| && s'.requests == s.requests[r := s'.requests[r]]
    requires s'.clock == s.clock
    requires forall k :: k in BudgetKeys(b) ==> Value(s.counters, k) <= Value(s'.counters, k)
    requires forall j :: 0 <= j < |s.requests| ==> Spent(s.requests[j], b) <= most
    requires Weight(s'.counters, s'.clock, b, limit, most)(s'.requests[r]) <= Weight(s.counters, s.clock, b, limit, most)(s.requests[r])
    ensures WeightOf(s', b, limit, most) <= WeightOf(s, b, limit, most)
  {
    var f, g := Weight(s'.counters, s'.clock, b, limit, most), Weight(s.counters, s.clock, b, limit, most);
    forall j | 0 <= j < |s.requests| ensures f(s'.requests[j]) <= g(s.requests[j]) {
      if j != r {
        assert s'.requests[j] == s.requests[j];
        if Cleared(s.requests[j], s'.counters, b, limit) {
          GrowthUnclears(s.requests[j], s.counters, s'.counters, b, limit);
        }
      }
    }
    SumPointwise(s'.requests, s.requests, f, g);
  }

  /** The plan holds the budget's own keys where its probe starts. */
  lemma PlannedKeys(q: Request, b: Budget, i: nat)
    requires IsBudget(b) && ScopeAt(q, b, i) && Bucket(q.now, RuleWindow(b.rule)) == b.bucket
    requires q.scopes[i].limits.Some? && LimitOf(q.scopes[i].limits.value, b.rule) > 0
    ensures var p, ks := ProbeStart(q.scopes, i, b.rule, q.now), BudgetKeys(b);
            p + |ks| <= |PlanKeys(q)| && PlanKeys(q)[p] == ks[0] && (|ks| == 2 ==> PlanKeys(q)[p + 1] == ks[1])
  {
    ProbePlaced(q.scopes, i, b.rule, q.now);
    var p, ks := ProbeStart(q.scopes, i, b.rule, q.now), RuleKeys(q.scopes[i], b.rule, q.now);
    assert ks == BudgetKeys(b);
    var planned := PlanBefore(q.scopes, i, b.rule, q.now).gets + ks;
    assert planned[p] == ks[0] && (|ks| == 2 ==> planned[p + 1] == ks[1]);
  }

  /** Reading one more value does not change what a probe already being read amounts to. */
  lemma SeenUnmoved(q: Request, q': Request, c: Counters, reply: int, b: Budget, i: nat)
    requires i < |q.scopes| && q' == q.(gets := q.gets + [reply]) && ProbeStart(q.scopes, i, b.rule, q.now) < |q.gets|
    requires ProbeStart(q.scopes, i, b.rule, q.now) + 1 == |q.gets| && |BudgetKeys(b)| == 2 ==> reply == Value(c, BudgetKeys(b)[1])
    ensures Seen(q', c, b, i) == Seen(q, c, b, i)
  {
  }

  /** The reading that brings a probe below the limit is its first, and shows the whole total. */
  lemma ReadingShows(q: Request, q': Request, c: Counters, reply: int, b: Budget, limit: int, i: nat)
    requires i < |q.scopes| && |q.gets| < |PlanKeys(q)| && q' == q.(gets := q.gets + [reply])
    requires PlanKeys(q)[|q.gets|] in BudgetKeys(b) ==> reply == Value(c, PlanKeys(q)[|q.gets|])
    requires var p, ks := ProbeStart(q.scopes, i, b.rule, q.now), BudgetKeys(b);
             p + |ks| <= |PlanKeys(q)| && PlanKeys(q)[p] == ks[0] && (|ks| == 2 ==> PlanKeys(q)[p + 1] == ks[1]) &&
             p < |q'.gets| && (p < |q.gets| ==> Seen(q, c, b, i) >= limit)
    requires Seen(q', c, b, i) < limit
    ensures Used(c, BudgetKeys(b)) < limit
  {
    var p, ks := ProbeStart(q.scopes, i, b.rule, q.now), BudgetKeys(b);
    assert ks[0] in ks && ks[|ks| - 1] in ks;
    assert p == |q.gets| by {
      if p < |q.gets| { SeenUnmoved(q, q', c, reply, b, i); }
    }
  }

  /** A request that becomes cleared by a truthful reading finds the whole bucket's total below the limit. */
  lemma ClearedByReading(q: Request, c: Counters, stats: bool, reply: int, b: Budget, limit: int)
    requires IsBudget(b) && Reads(q) && LimitedTo(q, b, limit)
    requires AsksFor(q).Some? && AsksFor(q).value in BudgetKeys(b) ==> reply == TrueReply(q, c)
    requires !Cleared(q, c, b, limit) && Cleared(StepRequest(q, c, stats, reply).0, c, b, limit)
    ensures Used(c, BudgetKeys(b)) < limit
  {
    var q' := q.(gets := q.gets + [reply]);
    assert StepRequest(q, c, stats, reply).0 == q';
    SameScopes(q, q', b);
    var i :| ScopeAt(q', b, i) && ProbeStart(q'.scopes, i, b.rule, q'.now) < |q'.gets| && Seen(q', c, b, i) < limit;
    assert ScopeAt(q, b, i);
    PlannedKeys(q, b, i);
    ReadingShows(q, q', c, reply, b, limit, i);
  }

  /** A command on the budget: the request already weighs the most it may spend. */
  lemma OnBudgetWeight(s: State, s': State, r: nat, e: Incr, b: Budget, limit: int, inFlight: nat, most: int)
    requires Inv(s) && IsBudget(b) && r < |s.requests| && s.requests[r].todo != [] && e == s.requests[r].todo[0] && e.key in BudgetKeys(b)
    requires s'.counters == Apply(s.counters, e) && s'.clock == s.clock && |s'.requests| == |s.requests|
    requires s'.requests == s.requests[r := s'.requests[r]]
    requires Bounded(s, b, limit, inFlight, most) && Bounded(s', b, limit, inFlight, most)
    ensures WeightOf(s', b, limit, most) <= WeightOf(s, b, limit, most)
  {
    SpenderIsCleared(s.requests[r], s.clock, s.stats, s.counters, b, limit);
    assert Owes(s.requests[r], b);
    WeightsAfterStep(s, s', r, b, limit, most);
  }

  /** Any other command leaves its weight alone. */
  lemma OffBudgetWeight(s: State, s': State, r: nat, e: Incr, b: Budget, limit: int, inFlight: nat, most: int)
    requires r < |s.requests| && s.requests[r].todo != [] && e.key !in BudgetKeys(b)
    requires s'.counters == Apply(s.counters, e) && s'.clock == s.clock && |s'.requests| == |s.requests|
    requires var q, q' := s.requests[r], s'.requests[r];
             s'.requests == s.requests[r := q'] && q' == q.(executed := q.executed + [e], todo := q.todo[1..], vals := q'.vals)
    requires Bounded(s, b, limit, inFlight, most)
    ensures WeightOf(s', b, limit, most) <= WeightOf(s, b, limit, most)
  {
    var q, q' := s.requests[r], s'.requests[r];
    SpentAppend(q, q', e, b);
    assert forall k :: k in BudgetKeys(b) ==> Value(s'.counters, k) == Value(s.counters, k);
    if MaySpend(q', s'.counters, s.clock, b, limit) {
      CommandKeepsCleared(q, q', s.counters, s'.counters, b, limit);
      OwesLess(q, q', b);
    }
    WeightsAfterStep(s, s', r, b, limit, most);
  }

  lemma ExecCommandWeight(s: State, s': State, r: nat, reply: int, b: Budget, limit: int, inFlight: nat, most: int)
    requires Inv(s) && IsBudget(b) && r < |s.requests| && s.requests[r].todo != [] && s' == Step(s, Exec(r, reply))
    requires Bounded(s, b, limit, inFlight, most) && Bounded(s', b, limit, inFlight, most)
    ensures WeightOf(s', b, limit, most) <= WeightOf(s, b, limit, most)
  {
    var e := s.requests[r].todo[0];
    if e.key in BudgetKeys(b) {
      OnBudgetWeight(s, s', r, e, b, limit, inFlight, most);
    } else {
      OffBudgetWeight(s, s', r, e, b, limit, inFlight, most);
    }
  }

  lemma OwesLess(q: Request, q': Request, b: Budget)
    requires q.todo != [] && q'.todo == q.todo[1..]
    ensures Owes(q', b) ==> Owes(q, b)
  {
    if j :| 0 <= j < |q'.todo| && q'.todo[j].key in BudgetKeys(b) { assert q.todo[j + 1] == q'.todo[j]; }
  }

  lemma SpentAppend(q: Request, q': Request, e: Incr, b: Budget)
    requires q'.executed == q.executed + [e]
    ensures e.key !in BudgetKeys(b) ==> Spent(q', b) == Spent(q, b)
  {
    var ks := BudgetKeys(b);
    SumAppend(q.executed, e, DeltaOn(ks[0]));
    if |ks| == 2 { SumAppend(q.executed, e, DeltaOn(ks[1])); }
    assert ks[0] in ks && ks[|ks| - 1] in ks;
  }

  lemma CommandKeepsCleared(q: Request, q': Request, c: Counters, c': Counters, b: Budget, limit: int)
    requires q'.scopes == q.scopes && q'.now == q.now && q'.phase == q.phase && q'.gets == q.gets
    requires forall k :: k in BudgetKeys(b) ==> Value(c', k) == Value(c, k)
    requires Cleared(q', c', b, limit)
    ensures Cleared(q, c, b, limit)
  {
    GrowthUnclears(q', c, c', b, limit);
    SameScopes(q, q', b);
    if !(Bucket(q.now, RuleWindow(b.rule)) < b.bucket) { SameReading(q', q, c, b, limit); }
  }

  /** A step without a store write: a read, a decision, a charge being queued, or the end of a request. */
  lemma QuietStepWeight(s: State, s': State, r: nat, b: Budget, limit: int, inFlight: nat, most: int)
    requires Inv(s) && Inv(s') && IsBudget(b) && most >= 0 && r < |s.requests| && |s'.requests| == |s.requests|
    requires s'.counters == s.counters && s'.clock == s.clock && s'.requests == s.requests[r := s'.requests[r]]
    requires s'.requests[r].executed == s.requests[r].executed
    requires Bounded(s, b, limit, inFlight, most) && Bounded(s', b, limit, inFlight, most)
    requires WeightOf(s, b, limit, most) <= limit - 1 + inFlight * most
    requires (MaySpend(s'.requests[r], s.counters, s.clock, b, limit) ==> MaySpend(s.requests[r], s.counters, s.clock, b, limit))
             || Total(s, b) < limit
    ensures WeightOf(s', b, limit, most) <= limit - 1 + inFlight * most
  {
    var q, q' := s.requests[r], s'.requests[r];
    assert Spent(q', b) == Spent(q, b);
    if MaySpend(q', s.counters, s.clock, b, limit) && !MaySpend(q, s.counters, s.clock, b, limit) {
      WeightWhenBelow(s', b, limit, inFlight, most);
    } else {
      WeightsAfterStep(s, s', r, b, limit, most);
    }
  }

  /** Reading another budget, or deciding, does not clear a request. */
  lemma PhaseKeepsCleared(q: Request, q': Request, c: Counters, b: Budget, limit: int)
    requires q'.scopes == q.scopes && q'.now == q.now && q'.gets == q.gets && (IsOpen(q') ==> IsOpen(q))
    requires Cleared(q', c, b, limit)
    ensures Cleared(q, c, b, limit)
  {
    SameScopes(q, q', b);
    if !(Bucket(q.now, RuleWindow(b.rule)) < b.bucket) { SameReading(q', q, c, b, limit); }
  }

  /** A request's read or decision lets it spend only while the bucket lasts and its total is below the limit. */
  lemma QuietExecClears(q: Request, c: Counters, clock: int, stats: bool, reply: int, b: Budget, limit: int)
    requires Ok(q, clock, stats) && IsBudget(b) && q.todo == [] && LimitedTo(q, b, limit)
    requires Lasts(clock, b) ==> forall k :: k in BudgetKeys(b) && AsksFor(q) == Some(k) ==> reply == TrueReply(q, c)
    requires !MaySpend(q, c, clock, b, limit) && MaySpend(StepRequest(q, c, stats, reply).0, c, clock, b, limit)
    ensures Used(c, BudgetKeys(b)) < limit
  {
    var q' := StepRequest(q, c, stats, reply).0;
    assert q'.todo == [];
    if Reads(q) {
      ClearedByReading(q, c, stats, reply, b, limit);
    } else {
      PhaseKeepsCleared(q, q', c, b, limit);
    }
  }

  lemma QuietExec(s: State, r: nat, reply: int)
    requires r < |s.requests| && s.requests[r].todo == []
    ensures var s' := Step(s, Exec(r, reply));
            s'.counters == s.counters && s'.clock == s.clock && |s'.requests| == |s.requests| &&
            s'.requests == s.requests[r := s'.requests[r]] && s'.requests[r].executed == s.requests[r].executed &&
            s'.requests[r] == StepRequest(s.requests[r], s.counters, s.stats, reply).0
  {
  }

  lemma ExecWeight(s: State, s': State, r: nat, reply: int, b: Budget, limit: int, inFlight: nat, most: int)
    requires Inv(s) && Inv(s') && IsBudget(b) && most >= 0 && r < |s.requests| && s' == Step(s, Exec(r, reply))
    requires s.requests[r].todo == [] && TruthfulFor(s, Exec(r, reply), b)
    requires Bounded(s, b, limit, inFlight, most) && Bounded(s', b, limit, inFlight, most)
    requires WeightOf(s, b, limit, most) <= limit - 1 + inFlight * most
    ensures WeightOf(s', b, limit, most) <= limit - 1 + inFlight * most
  {
    QuietExec(s, r, reply);
    var q, q' := s.requests[r], s'.requests[r];
    assert Ok(q, s.clock, s.stats) && LimitedTo(q, b, limit);
    if MaySpend(q', s.counters, s.clock, b, limit) && !MaySpend(q, s.counters, s.clock, b, limit) {
      assert Lasts(s.clock, b) ==> forall k :: k in BudgetKeys(b) ==> TruthfulOn(s, Exec(r, reply), k);
      QuietExecClears(q, s.counters, s.clock, s.stats, reply, b, limit);
      assert Total(s, b) < limit;
    }
    QuietStepWeight(s, s', r, b, limit, inFlight, most);
  }

  lemma StartWeight(s: State, s': State, scopes: seq<Scope>, b: Budget, limit: int, inFlight: nat, most: int)
    requires Inv(s) && Inv(s') && IsBudget(b) && most >= 0 && limit >= 1 && WellFormedScopes(scopes) && s' == Step(s, Start(scopes))
    requires Bounded(s', b, limit, inFlight, most)
    requires WeightOf(s, b, limit, most) <= limit - 1 + inFlight * most
    ensures WeightOf(s', b, limit, most) <= limit - 1 + inFlight * most
  {
    if Bucket(s.clock, RuleWindow(b.rule)) < b.bucket {
      TotalEarly(s', b);
      WeightWhenBelow(s', b, limit, inFlight, most);
    } else {
      NewcomerWeighsNothing(s, s'.requests[|s.requests|], b, limit, most);
    }
  }

  lemma NewcomerWeighsNothing(s: State, q: Request, b: Budget, limit: int, most: int)
    requires q.executed == [] && q.gets == [] && Bucket(q.now, RuleWindow(b.rule)) >= b.bucket
    ensures SumOf(s.requests + [q], Weight(s.counters, s.clock, b, limit, most)) == WeightOf(s, b, limit, most)
  {
    SumAppend(s.requests, q, Weight(s.counters, s.clock, b, limit, most));
    assert !ReadBelow(q, s.counters, b, limit);
    assert Spent(q, b) == 0;
  }

  /** Charges queued now are for this bucket or a later one. */
  lemma AccountKeepsMaySpend(q: Request, q': Request, c: Counters, clock: int, u: Usage, cost: int, model: string, b: Budget, limit: int)
    requires q' == q.(todo := AccountBatch(WithModelScope(q.scopes, model), clock, u, cost), accounts := q'.accounts)
    requires q.phase.Admitted? && IsBudget(b) && MaySpend(q', c, clock, b, limit)
    ensures MaySpend(q, c, clock, b, limit)
  {
    PhaseKeepsCleared(q, q', c, b, limit);
    if j :| 0 <= j < |q'.todo| && q'.todo[j].key in BudgetKeys(b) {
      AccountBatchCharges(q.(now := clock), clock, u, cost, model);
      assert IsCharge(q'.todo[j], q.scopes, clock, clock);
    }
  }

  lemma AccountWeight(s: State, s': State, r: nat, q': Request, u: Usage, cost: int, model: string, b: Budget, limit: int, inFlight: nat, most: int)
    requires Inv(s) && Inv(s') && IsBudget(b) && most >= 0 && r < |s.requests| && s.requests[r].phase.Admitted?
    requires q' == s.requests[r].(todo := AccountBatch(WithModelScope(s.requests[r].scopes, model), s.clock, u, cost),
                                  accounts := q'.accounts)
    requires s' == s.(requests := s.requests[r := q'])
    requires Bounded(s, b, limit, inFlight, most) && Bounded(s', b, limit, inFlight, most)
    requires WeightOf(s, b, limit, most) <= limit - 1 + inFlight * most
    ensures WeightOf(s', b, limit, most) <= limit - 1 + inFlight * most
  {
    if MaySpend(q', s.counters, s.clock, b, limit) {
      AccountKeepsMaySpend(s.requests[r], q', s.counters, s.clock, u, cost, model, b, limit);
    }
    QuietStepWeight(s, s', r, b, limit, inFlight, most);
  }

  /** As time passes requests only lose the chance to spend. */
  lemma TickWeight(s: State, to: int, b: Budget, limit: int, inFlight: nat, most: int)
    requires to >= s.clock && Bounded(s, b, limit, inFlight, most)
    ensures WeightOf(s.(clock := to), b, limit, most) <= WeightOf(s, b, limit, most)
  {
    BucketMonotone(s.clock, to, RuleWindow(b.rule));
    SumMonotone(s.requests, Weight(s.counters, to, b, limit, most), Weight(s.counters, s.clock, b, limit, most));
  }

  lemma ServedWeight(s: State, s': State, a: Action, b: Budget, limit: int, inFlight: nat, most: int)
    requires Inv(s) && Inv(s') && IsBudget(b) && most >= 0 && (a.Account? || a.Close?) && s' == Step(s, a)
    requires a.r < |s.requests| && s.requests[a.r].phase.Admitted? && s.requests[a.r].todo == []
    requires Bounded(s, b, limit, inFlight, most) && Bounded(s', b, limit, inFlight, most)
    requires WeightOf(s, b, limit, most) <= limit - 1 + inFlight * most
    ensures WeightOf(s', b, limit, most) <= limit - 1 + inFlight * most
  {
    if a.Account? {
      AccountWeight(s, s', a.r, s'.requests[a.r], a.u, a.cost, a.model, b, limit, inFlight, most);
    } else {
      QuietStepWeight(s, s', a.r, b, limit, inFlight, most);
    }
  }

  lemma StepWeight(s: State, a: Action, b: Budget, limit: int, inFlight: nat, most: int)
    requires Inv(s) && IsBudget(b) && most >= 0 && limit >= 1 && TruthfulFor(s, a, b)
    requires Bounded(s, b, limit, inFlight, most) && Bounded(Step(s, a), b, limit, inFlight, most)
    requires WeightOf(s, b, limit, most) <= limit - 1 + inFlight * most
    ensures WeightOf(Step(s, a), b, limit, most) <= limit - 1 + inFlight * most
  {
    var s' := Step(s, a);
    StepInv(s, a);
    if a.Tick? {
      if a.to >= s.clock { TickWeight(s, a.to, b, limit, inFlight, most); }
    } else if a.Start? {
      if WellFormedScopes(a.scopes) { StartWeight(s, s', a.scopes, b, limit, inFlight, most); }
    } else if a.r < |s.requests| && a.Exec? {
      if s.requests[a.r].todo != [] {
        ExecCommandWeight(s, s', a.r, a.reply, b, limit, inFlight, most);
      } else {
        ExecWeight(s, s', a.r, a.reply, b, limit, inFlight, most);
      }
    } else if a.r < |s.requests| && s.requests[a.r].phase.Admitted? && s.requests[a.r].todo == [] {
      ServedWeight(s, s', a, b, limit, inFlight, most);
    }
  }

  // ---------------------------------------------------------------- the bound

  /** At every moment of the run. */
  ghost predicate AlwaysBounded(clock: int, stats: bool, actions: seq<Action>, b: Budget, limit: int, inFlight: nat, most: int) {
    Bounded(Run(Initial(clock, stats), actions), b, limit, inFlight, most) &&
    (actions != [] ==> AlwaysBounded(clock, stats, actions[..|actions| - 1], b, limit, inFlight, most))
  }

  /** At every step of the run, answers about the budget given while its bucket lasts are the truth. */
  ghost predicate HonestInBucket(clock: int, stats: bool, actions: seq<Action>, b: Budget) {
    actions != [] ==>
      var before := actions[..|actions| - 1];
      HonestInBucket(clock, stats, before, b) && TruthfulFor(Run(Initial(clock, stats), before), actions[|actions| - 1], b)
  }

  lemma {:induction false} RunWeight(clock: int, stats: bool, actions: seq<Action>, b: Budget, limit: int, inFlight: nat, most: int)
    requires IsBudget(b) && limit >= 1 && most >= 0 && HonestInBucket(clock, stats, actions, b)
    requires AlwaysBounded(clock, stats, actions, b, limit, inFlight, most)
    ensures WeightOf(Run(Initial(clock, stats), actions), b, limit, most) <= limit - 1 + inFlight * most
  {
    if actions != [] {
      var before, a := actions[..|actions| - 1], actions[|actions| - 1];
      RunWeight(clock, stats, before, b, limit, inFlight, most);
      RunInv(clock, stats, before);
      StepWeight(Run(Initial(clock, stats), before), a, b, limit, inFlight, most);
    } else {
      MulMonotone(0, inFlight, most);
    }
  }

  /**
   If at every moment at most `inFlight` requests carrying the scope are in flight and none has spent
   more than `most` on the bucket, the bucket's total never passes `limit - 1 + inFlight * most`.
   */
  lemma {:induction false} OvershootBound(clock: int, stats: bool, actions: seq<Action>, b: Budget, limit: int, inFlight: nat, most: int)
    requires IsBudget(b) && limit >= 1 && most >= 0 && HonestInBucket(clock, stats, actions, b)
    requires AlwaysBounded(clock, stats, actions, b, limit, inFlight, most)
    ensures Total(Run(Initial(clock, stats), actions), b) <= limit - 1 + inFlight * most
  {
    var s := Run(Initial(clock, stats), actions);
    RunWeight(clock, stats, actions, b, limit, inFlight, most);
    RunInv(clock, stats, actions);
    TotalIsSpent(s, b);
    SumMonotone(s.requests, SpentOn(b), Weight(s.counters, s.clock, b, limit, most));
  }

  // ---------------------------------------------------------------- what one report can spend

  /** The most one report can add to a budget. */
  function ReportCap(b: Budget): int { if IsTokenRule(b.rule) then 2 * MAX_TOKENS else MAX_COST }

  /** Spending queued or done. */
  ghost function Committed(q: Request, b: Budget): int {
    var ks := BudgetKeys(b);
    Net(q.executed + q.todo, ks[0]) + if |ks| == 2 then Net(q.executed + q.todo, ks[1]) else 0
  }

  lemma ReportAtMostCap(scopes: seq<Scope>, model: string, now: int, u: Usage, cost: int, b: Budget)
    requires WellFormedScopes(scopes) && IsBudget(b)
    ensures var es, ks := AccountBatch(WithModelScope(scopes, model), now, u, cost), BudgetKeys(b);
            Net(es, ks[0]) + (if |ks| == 2 then Net(es, ks[1]) else 0) <= if Bills(u, cost) then ReportCap(b) else 0
  {
    var ks, charged := BudgetKeys(b), WithModelScope(scopes, model);
    assert DistinctScopes(charged);
    PlausibleCharges(charged, now, u, cost, ks[0]);
    if |ks| == 2 { PlausibleCharges(charged, now, u, cost, ks[1]); }
  }

  lemma PlausibleCharges(charged: seq<Scope>, now: int, u: Usage, cost: int, k: CounterKey)
    requires DistinctScopes(charged) && k.kind != MODEL_KIND && k.metric in {TokIn, TokOut, Cost}
    ensures Net(AccountBatch(charged, now, u, cost), k) <= if !Bills(u, cost) then 0 else if k.metric == Cost then MAX_COST else MAX_TOKENS
  {
    NetOfCharges(charged, now, Usage(Plausible(u.prompt, MAX_TOKENS), Plausible(u.completion, MAX_TOKENS)),
                 Plausible(cost, MAX_COST), k);
  }

  ghost predicate WithinReports(qs: seq<Request>, b: Budget) {
    forall r :: 0 <= r < |qs| ==> Committed(qs[r], b) <= qs[r].accounts * ReportCap(b)
  }

  lemma CommittedAppend(q: Request, q': Request, es: seq<Incr>, b: Budget)
    requires q'.executed + q'.todo == q.executed + q.todo + es
    ensures Committed(q', b) == Committed(q, b) + Net(es, BudgetKeys(b)[0]) +
            if |BudgetKeys(b)| == 2 then Net(es, BudgetKeys(b)[1]) else 0
  {
    var ks := BudgetKeys(b);
    SumConcat(q.executed + q.todo, es, DeltaOn(ks[0]));
    if |ks| == 2 { SumConcat(q.executed + q.todo, es, DeltaOn(ks[1])); }
  }

  lemma NotOnBudget(es: seq<Incr>, b: Budget)
    requires IsBudget(b) && forall j :: 0 <= j < |es| ==> es[j].key.metric == Req || es[j].key.metric == Rej
    ensures Net(es, BudgetKeys(b)[0]) == 0 && (|BudgetKeys(b)| == 2 ==> Net(es, BudgetKeys(b)[1]) == 0)
  {
    NetOutside(es, BudgetKeys(b)[0]);
    if |BudgetKeys(b)| == 2 { NetOutside(es, BudgetKeys(b)[1]); }
  }

  lemma SettlingReportsNothing(q: Request, q': Request, stats: bool, violator: nat, b: Budget)
    requires IsBudget(b) && violator < |q.scopes| && q.todo == []
    requires q' == q.(phase := Refused(violator), todo := SettleBatch(q.scopes, q.now, violator, stats))
    ensures Committed(q', b) == Committed(q, b)
  {
    SettleSigns(q.scopes, q.now, violator, stats);
    NotOnBudget(q'.todo, b);
    assert q'.executed + q'.todo == q.executed + q.todo + q'.todo;
    CommittedAppend(q, q', q'.todo, b);
  }

  lemma ExecReports(q: Request, c: Counters, stats: bool, reply: int, clock: int, b: Budget)
    requires Ok(q, clock, stats) && IsBudget(b)
    ensures Committed(StepRequest(q, c, stats, reply).0, b) == Committed(q, b)
    ensures StepRequest(q, c, stats, reply).0.accounts == q.accounts
  {
    var q' := StepRequest(q, c, stats, reply).0;
    if q'.phase.Refused? && !q.phase.Refused? {
      SettlingReportsNothing(q, q', stats, q'.phase.violator, b);
    } else {
      assert q'.executed + q'.todo == q.executed + q.todo;
    }
  }

  lemma AccountReports(s: State, r: nat, u: Usage, cost: int, model: string, b: Budget)
    requires Inv(s) && IsBudget(b) && WithinReports(s.requests, b)
    requires r < |s.requests| && s.requests[r].phase.Admitted? && s.requests[r].todo == []
    ensures WithinReports(Step(s, Account(r, u, cost, model)).requests, b)
  {
    var q := s.requests[r];
    var es := AccountBatch(WithModelScope(q.scopes, model), s.clock, u, cost);
    var q' := q.(todo := es, accounts := q.accounts + if Bills(u, cost) then 1 else 0);
    assert Committed(q', b) <= q'.accounts * ReportCap(b) by {
      ReportAtMostCap(q.scopes, model, s.clock, u, cost, b);
      assert Committed(q, b) <= q.accounts * ReportCap(b);
      OneMoreReport(q, q', es, b);
    }
    ReportsAfter(s.requests, r, q', b);
  }

  lemma ReportsAfter(qs: seq<Request>, r: nat, q': Request, b: Budget)
    requires r < |qs| && WithinReports(qs, b) && Committed(q', b) <= q'.accounts * ReportCap(b)
    ensures WithinReports(qs[r := q'], b)
  {
  }

  lemma OneMoreReport(q: Request, q': Request, es: seq<Incr>, b: Budget)
    requires q.todo == [] && q.accounts <= q'.accounts <= q.accounts + 1 && q' == q.(todo := es, accounts := q'.accounts)
    requires Net(es, BudgetKeys(b)[0]) + (if |BudgetKeys(b)| == 2 then Net(es, BudgetKeys(b)[1]) else 0) <=
             if q'.accounts == q.accounts then 0 else ReportCap(b)
    requires Committed(q, b) <= q.accounts * ReportCap(b)
    ensures Committed(q', b) <= q'.accounts * ReportCap(b)
  {
    assert q.executed + q.todo + es == q'.executed + q'.todo;
    CommittedAppend(q, q', es, b);
    assert (q.accounts + 1) * ReportCap(b) == q.accounts * ReportCap(b) + ReportCap(b);
  }

  lemma StartReports(s: State, scopes: seq<Scope>, b: Budget)
    requires IsBudget(b) && WithinReports(s.requests, b) && WellFormedScopes(scopes)
    ensures WithinReports(Step(s, Start(scopes)).requests, b)
  {
    var s' := Step(s, Start(scopes));
    var q := s'.requests[|s.requests|];
    EntriesSigns(scopes, s.clock);
    assert q.executed + q.todo == q.todo;
    NotOnBudget(q.todo, b);
    forall j | 0 <= j < |s'.requests| ensures Committed(s'.requests[j], b) <= s'.requests[j].accounts * ReportCap(b) {
      if j < |s.requests| { assert s'.requests[j] == s.requests[j]; }
    }
  }

  lemma OtherStepReports(s: State, r: nat, q: Request, b: Budget)
    requires WithinReports(s.requests, b) && r < |s.requests|
    requires q.accounts == s.requests[r].accounts && Committed(q, b) == Committed(s.requests[r], b)
    ensures WithinReports(s.requests[r := q], b)
  {
  }

  lemma ExecStepReports(s: State, r: nat, reply: int, b: Budget)
    requires Inv(s) && IsBudget(b) && WithinReports(s.requests, b) && r < |s.requests|
    ensures WithinReports(Step(s, Exec(r, reply)).requests, b)
  {
    ExecReports(s.requests[r], s.counters, s.stats, reply, s.clock, b);
    OtherStepReports(s, r, StepRequest(s.requests[r], s.counters, s.stats, reply).0, b);
  }

  lemma CloseReports(s: State, r: nat, b: Budget)
    requires WithinReports(s.requests, b) && r < |s.requests|
    ensures WithinReports(s.requests[r := s.requests[r].(phase := Closed)], b)
  {
    OtherStepReports(s, r, s.requests[r].(phase := Closed), b);
  }

  lemma StepReports(s: State, a: Action, b: Budget)
    requires Inv(s) && IsBudget(b) && WithinReports(s.requests, b)
    ensures WithinReports(Step(s, a).requests, b)
  {
    match a
    case Tick(to) =>
    case Start(scopes) => if WellFormedScopes(scopes) { StartReports(s, scopes, b); }
    case Exec(r, reply) =>
      if r < |s.requests| {
        ExecStepReports(s, r, reply, b);
      }
    case Account(r, u, cost, model) =>
      if r < |s.requests| && s.requests[r].phase.Admitted? && s.requests[r].todo == [] {
        AccountReports(s, r, u, cost, model, b);
      }
    case Close(r) =>
      if r < |s.requests| && s.requests[r].phase.Admitted? && s.requests[r].todo == [] {
        CloseReports(s, r, b);
      }
  }

  lemma {:induction false} RunReports(clock: int, stats: bool, actions: seq<Action>, b: Budget)
    requires IsBudget(b)
    ensures WithinReports(Run(Initial(clock, stats), actions).requests, b)
  {
    if actions != [] {
      var before := actions[..|actions| - 1];
      RunReports(clock, stats, before, b);
      RunInv(clock, stats, before);
      StepReports(Run(Initial(clock, stats), before), actions[|actions| - 1], b);
    }
  }

  /** What a request still has to send takes nothing off a budget. */
  lemma TodoNotNegative(q: Request, clock: int, stats: bool, k: CounterKey)
    requires Ok(q, clock, stats) && k.metric != Req
    ensures forall j :: 0 <= j < |q.todo| ==> DeltaOn(k)(q.todo[j]) >= 0
  {
    if q.phase.Admitted? {
      var n := 3 * |q.scopes|;
      forall j | 0 <= j < |q.todo| ensures q.todo[j].delta >= 0 {
        assert q.todo[j] == (q.executed[n..] + q.todo)[|q.executed| - n + j];
      }
    } else {
      EntriesSigns(q.scopes, q.now);
      if q.phase.Refused? { SettleSigns(q.scopes, q.now, q.phase.violator, stats); }
      forall j | 0 <= j < |q.todo| ensures DeltaOn(k)(q.todo[j]) >= 0 {
        assert q.todo[j] == (q.executed + q.todo)[|q.executed| + j];
      }
    }
  }

  lemma NetWithinCommitted(q: Request, clock: int, stats: bool, k: CounterKey)
    requires Ok(q, clock, stats) && k.metric != Req
    ensures Net(q.executed, k) <= Net(q.executed + q.todo, k)
  {
    TodoNotNegative(q, clock, stats, k);
    SumConcat(q.executed, q.todo, DeltaOn(k));
    SumNonNegative(q.todo, DeltaOn(k));
  }

  lemma SpentWithinCommitted(q: Request, clock: int, stats: bool, b: Budget)
    requires Ok(q, clock, stats) && IsBudget(b)
    ensures Spent(q, b) <= Committed(q, b)
  {
    var ks := BudgetKeys(b);
    NetWithinCommitted(q, clock, stats, ks[0]);
    if |ks| == 2 { NetWithinCommitted(q, clock, stats, ks[1]); }
  }

  ghost predicate Reporting(s: State, b: Budget, limit: int, inFlight: nat, reports: nat) {
    CountOf(s.requests, InFlightOn(b)) <= inFlight &&
    forall r :: 0 <= r < |s.requests| ==> LimitedTo(s.requests[r], b, limit) && s.requests[r].accounts <= reports
  }

  ghost predicate AlwaysReporting(clock: int, stats: bool, actions: seq<Action>, b: Budget, limit: int, inFlight: nat, reports: nat) {
    Reporting(Run(Initial(clock, stats), actions), b, limit, inFlight, reports) &&
    (actions != [] ==> AlwaysReporting(clock, stats, actions[..|actions| - 1], b, limit, inFlight, reports))
  }

  lemma ReportingSpends(s: State, b: Budget, limit: int, inFlight: nat, reports: nat)
    requires IsBudget(b) && Inv(s) && WithinReports(s.requests, b) && Reporting(s, b, limit, inFlight, reports)
    ensures Bounded(s, b, limit, inFlight, reports * ReportCap(b))
  {
    forall r | 0 <= r < |s.requests| ensures Spent(s.requests[r], b) <= reports * ReportCap(b) {
      SpentWithinCommitted(s.requests[r], s.clock, s.stats, b);
      MulMonotone(s.requests[r].accounts, reports, ReportCap(b));
    }
  }

  /** The source's own caps bound what a request can spend by how often it reports. */
  lemma {:induction false} ReportingIsBounded(clock: int, stats: bool, actions: seq<Action>, b: Budget, limit: int, inFlight: nat, reports: nat)
    requires IsBudget(b) && AlwaysReporting(clock, stats, actions, b, limit, inFlight, reports)
    ensures AlwaysBounded(clock, stats, actions, b, limit, inFlight, reports * ReportCap(b))
  {
    RunInv(clock, stats, actions);
    RunReports(clock, stats, actions, b);
    ReportingSpends(Run(Initial(clock, stats), actions), b, limit, inFlight, reports);
    if actions != [] { ReportingIsBounded(clock, stats, actions[..|actions| - 1], b, limit, inFlight, reports); }
  }

  /**
   The bound with the source's own caps instead of an assumed `most`: whatever figures the upstreams
   report, if each request sends at most `reports` reports that bill anything the overshoot is at most
   `inFlight * reports` times the per-report cap.
   */
  lemma {:induction false} CappedOvershoot(clock: int, stats: bool, actions: seq<Action>, b: Budget, limit: int, inFlight: nat, reports: nat)
    requires IsBudget(b) && limit >= 1 && HonestInBucket(clock, stats, actions, b)
    requires AlwaysReporting(clock, stats, actions, b, limit, inFlight, reports)
    ensures Total(Run(Initial(clock, stats), actions), b) <= limit - 1 + inFlight * (reports * ReportCap(b))
  {
    MulMonotone(0, reports, ReportCap(b));
    ReportingIsBounded(clock, stats, actions, b, limit, inFlight, reports);
    OvershootBound(clock, stats, actions, b, limit, inFlight, reports * ReportCap(b));
  }
}
