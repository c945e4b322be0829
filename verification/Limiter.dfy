/**
 The limiter's own operations over one counter backend. The backend is the never-expiring map of
 counters; MemoryStore proves that the in-process store answers as this map does. A parameter `up`
 says whether a round trip reaches a fail-closed backend.
 */
module LimiterModel {
  import opened Common
  import opened Calendar
  import opened Keys
  import opened Admission

  // ---------------------------------------------------------------- facts about one batch

  lemma {:induction false} EntryIndex(scopes: seq<Scope>, now: int, j: nat)
    requires j < 3 * |scopes|
    ensures Entries(scopes, now)[j] == ScopeEntries(scopes[j / 3], now)[j % 3]
  {
    EntriesAt(scopes, now, j / 3);
    var es := Entries(scopes, now);
    assert es[j] == es[3 * (j / 3)..3 * (j / 3) + 3][j % 3];
  }

  /** Distinct scopes have pairwise distinct request counters. */
  lemma {:induction false} EntriesDistinct(scopes: seq<Scope>, now: int, i: nat, j: nat)
    requires DistinctScopes(scopes) && i < j < 3 * |scopes|
    ensures Entries(scopes, now)[i].key != Entries(scopes, now)[j].key
  {
    EntryIndex(scopes, now, i);
    EntryIndex(scopes, now, j);
    if i / 3 < j / 3 { assert !SameScope(scopes[i / 3], scopes[j / 3]); }
  }

  /** The value replied for an entry is still the counter's value at the end of the batch. */
  lemma {:induction false} ReplyIsFinal(c: Counters, scopes: seq<Scope>, now: int, j: nat)
    requires DistinctScopes(scopes) && j < 3 * |scopes|
    ensures Value(ApplyAll(c, Entries(scopes, now)[..j + 1]), Entries(scopes, now)[j].key) ==
            Value(ApplyAll(c, Entries(scopes, now)), Entries(scopes, now)[j].key)
  {
    var es := Entries(scopes, now);
    var k := es[j].key;
    var rest := es[j + 1..];
    assert es == es[..j + 1] + rest;
    ApplyAllConcat(c, es[..j + 1], rest);
    ApplyAllValue(ApplyAll(c, es[..j + 1]), rest, k);
    forall i | 0 <= i < |rest| ensures DeltaOn(k)(rest[i]) == 0 {
      EntriesDistinct(scopes, now, j, j + 1 + i);
    }
    SumZero(rest, DeltaOn(k));
  }

  /** Budget counters are not request counters: the increments do not move what the reads see. */
  lemma {:induction false} BudgetReadsUnmoved(c: Counters, scopes: seq<Scope>, now: int, k: CounterKey)
    requires k.metric != Req
    ensures Value(ApplyAll(c, Entries(scopes, now)), k) == Value(c, k)
  {
    ApplyAllValue(c, Entries(scopes, now), k);
    NetOfEntries(scopes, now, k);
    NoneTouched(scopes, now, k);
  }

  lemma {:induction false} NoneTouched(scopes: seq<Scope>, now: int, k: CounterKey)
    requires forall i :: 0 <= i < |scopes| ==> !Touches(scopes[i], now, k)
    ensures CountOf(scopes, TouchedAt(now, k)) == 0
  {
    if scopes != [] {
      var init := scopes[..|scopes| - 1];
      assert forall i :: 0 <= i < |init| ==> init[i] == scopes[i];
      NoneTouched(init, now, k);
    }
  }

  // ---------------------------------------------------------------- the outcome of a call

  /** A round trip that succeeds, or one that fails after the server executed its first commands. */
  datatype Trip = Whole | Broken(executed: nat)

  /** What a round trip leaves executed of a batch. */
  function Executed(es: seq<Incr>, trip: Trip): seq<Incr> {
    if trip.Broken? && trip.executed < |es| then es[..trip.executed] else es
  }

  /** The counters once a call that counted and decided `v` has settled it. */
  function AfterVerdict(counted: Counters, v: Option<Violation>, scopes: seq<Scope>, now: int, stats: bool, settling: Trip): Counters {
    if v.Some? && v.value.Limit? && v.value.scopeIdx < |scopes| then
      ApplyAll(counted, Executed(SettleBatch(scopes, now, v.value.scopeIdx, stats), settling))
    else counted
  }

  /** The counters after an admission call. */
  function AfterCheck(c: Counters, scopes: seq<Scope>, now: int, stats: bool, settling: Trip): Counters {
    var counted := ApplyAll(c, Entries(scopes, now));
    AfterVerdict(counted, NaiveViolation(counted, scopes, now), scopes, now, stats, settling)
  }

  lemma {:induction false} NaiveIsLimit(c: Counters, scopes: seq<Scope>, i: nat, now: int)
    requires i <= |scopes|
    ensures var v := NaiveFrom(c, scopes, i, now);
            v.Some? ==> v.value.Limit? && i <= v.value.scopeIdx < |scopes| && scopes[v.value.scopeIdx].limits.Some?
    decreases |scopes| - i
  {
    if i < |scopes| { NaiveIsLimit(c, scopes, i + 1, now); }
  }

  /**
   Every counter before and after a call whose settlement went through: an admitted call adds one to
   its scopes' request counters; a refused one leaves every scope but the violator as it was, adds one
   to the violator's own request counters, and records the rejection.
   */
  lemma {:induction false} CallEffect(c: Counters, scopes: seq<Scope>, now: int, stats: bool, k: CounterKey)
    requires DistinctScopes(scopes)
    ensures var counted := ApplyAll(c, Entries(scopes, now));
            var v := NaiveViolation(counted, scopes, now);
            var after := AfterCheck(c, scopes, now, stats, Whole);
            if v.None? then
              Value(after, k) == Value(c, k) +
                (if exists i :: 0 <= i < |scopes| && Touches(scopes[i], now, k) then 1 else 0)
            else
              v.value.Limit? && v.value.scopeIdx < |scopes| &&
              Value(after, k) == Value(c, k) +
                (if Touches(scopes[v.value.scopeIdx], now, k) then 1 else 0) +
                RejectionShare(scopes, now, v.value.scopeIdx, stats, k)
  {
    var es := Entries(scopes, now);
    var counted := ApplyAll(c, es);
    var v := NaiveViolation(counted, scopes, now);
    NaiveIsLimit(counted, scopes, 0, now);
    if v.None? {
      ApplyAllValue(c, es, k);
      NetOfEntries(scopes, now, k);
      DistinctTouch(scopes, now, k);
    } else {
      var settle := SettleBatch(scopes, now, v.value.scopeIdx, stats);
      ApplyAllConcat(c, es, settle);
      ApplyAllValue(c, es + settle, k);
      NetOfRefusal(scopes, now, v.value.scopeIdx, stats, k);
    }
  }

  // ---------------------------------------------------------------- operations

  /** buildBudgetProbes. */
  method BuildBudgetProbes(scopes: seq<Scope>, now: int) returns (p: Plan)
    ensures p == PlanOf(scopes, |scopes|, now) && PlanInFields(p, scopes, |scopes|, now)
  {
    ghost var inFields := PlanOfInFields(scopes, |scopes|, now);
    var probes: seq<Probe> := [];
    var keys: seq<CounterKey> := [];
    for i := 0 to |scopes|
      invariant Plan(probes, keys) == PlanOf(scopes, i, now)
    {
      var sc := scopes[i];
      if sc.limits.None? { continue; }
      var lim := sc.limits.value;
      ghost var start := Plan(probes, keys);
      if lim.tokensPerDay > 0 {
        probes := probes + [Probe(TokensPerDay, i, lim.tokensPerDay, |keys|, true)];
        keys := keys + [Counter(sc.kind, sc.id, TokIn, Day, now), Counter(sc.kind, sc.id, TokOut, Day, now)];
      }
      if lim.tokensPerMonth > 0 {
        probes := probes + [Probe(TokensPerMonth, i, lim.tokensPerMonth, |keys|, true)];
        keys := keys + [Counter(sc.kind, sc.id, TokIn, Month, now), Counter(sc.kind, sc.id, TokOut, Month, now)];
      }
      if lim.costPerDay > 0 {
        probes := probes + [Probe(CostPerDay, i, lim.costPerDay, |keys|, false)];
        keys := keys + [Counter(sc.kind, sc.id, Cost, Day, now)];
      }
      if lim.costPerMonth > 0 {
        probes := probes + [Probe(CostPerMonth, i, lim.costPerMonth, |keys|, false)];
        keys := keys + [Counter(sc.kind, sc.id, Cost, Month, now)];
      }
      assert Plan(probes, keys) == AddScope(start, i, sc, now);
    }
    p := Plan(probes, keys);
  }

  lemma AppendCharges(es: seq<Incr>, req: seq<Incr>, sc: Scope, now: int, u: Usage, cost: int)
    requires req == if sc.kind == MODEL_KIND then MetricEntries(sc.kind, sc.id, Req, 1, now) else []
    ensures es + req + MetricEntries(sc.kind, sc.id, TokIn, u.prompt, now) +
            MetricEntries(sc.kind, sc.id, TokOut, u.completion, now) +
            MetricEntries(sc.kind, sc.id, Cost, cost, now) == es + ScopeCharges(sc, now, u, cost)
  {
  }

  /** The per-scope half of accountWith: requests for a served model, then tokens and cost. */
  method BuildCharges(scopes: seq<Scope>, now: int, u: Usage, cost: int) returns (entries: seq<Incr>)
    ensures entries == ChargesOf(scopes, now, u, cost)
  {
    entries := [];
    for i := 0 to |scopes|
      invariant entries == ChargesOf(scopes[..i], now, u, cost)
    {
      var sc := scopes[i];
      var req := [];
      if sc.kind == MODEL_KIND { req := MetricEntries(sc.kind, sc.id, Req, 1, now); }
      AppendCharges(entries, req, sc, now, u, cost);
      entries := entries + req + MetricEntries(sc.kind, sc.id, TokIn, u.prompt, now) +
                 MetricEntries(sc.kind, sc.id, TokOut, u.completion, now) +
                 MetricEntries(sc.kind, sc.id, Cost, cost, now);
      assert scopes[..i + 1][..i] == scopes[..i];
    }
    assert scopes[..|scopes|] == scopes;
  }

  /** The inner loop of settleRejection: the scope's own three increments, negated. */
  method CompensateScope(entries: seq<Incr>, scopes: seq<Scope>, i: nat, now: int) returns (comp: seq<Incr>)
    requires i < |scopes| && entries == Entries(scopes, now)
    ensures comp == NegateScope(scopes[i], now)
  {
    EntriesAt(scopes, now, i);
    comp := [];
    for m := 0 to 3
      invariant comp == NegateScope(scopes[i], now)[..m]
    {
      assert entries[3 * i + m] == entries[3 * i..3 * i + 3][m];
      comp := comp + [Negate(entries[3 * i + m])];
    }
  }

  /** The inner loop of the evaluation: the scope's first probe that reached its limit. */
  method FindProbe(plan: Plan, i: nat, getVals: seq<int>) returns (breached: Option<Rule>)
    requires PlanFits(plan) && |getVals| == |plan.gets|
    ensures breached == FirstProbe(plan.probes, i, getVals)
  {
    for j := 0 to |plan.probes|
      invariant FirstProbe(plan.probes, i, getVals) == FirstProbe(plan.probes[j..], i, getVals)
    {
      var p := plan.probes[j];
      assert InReply(p, |getVals|);
      assert plan.probes[j..][1..] == plan.probes[j + 1..];
      if p.scopeIdx != i { continue; }
      var used := getVals[p.keyStart];
      if p.tokens { used := used + getVals[p.keyStart + 1]; }
      if used < p.limit { continue; }
      return Some(p.rule);
    }
    breached := None;
  }

  /** withModelScope: the served model's scope is added unless its id is empty, ends in a slash, is longer than
      256 bytes or holds a control byte. */
  method AddModelScope(scopes: seq<Scope>, canonical: string) returns (out: seq<Scope>)
    ensures out == WithModelScope(scopes, canonical)
    ensures out == if 0 < |canonical| <= 256 && canonical[|canonical| - 1] != '/' &&
                      (forall i :: 0 <= i < |canonical| ==> ' ' <= canonical[i] && canonical[i] as int != 127)
                   then scopes + [Scope(None, "model", canonical)] else scopes
  {
    if canonical == "" || canonical[|canonical| - 1] == '/' { return scopes; }
    if |canonical| > MAX_MODEL_ID { return scopes; }
    for i := 0 to |canonical|
      invariant forall j :: 0 <= j < i ==> !(canonical[j] < 0x20 as char || canonical[j] == 0x7f as char)
    {
      if canonical[i] < 0x20 as char || canonical[i] == 0x7f as char { return scopes; }
    }
    return scopes + [Scope(None, MODEL_KIND, canonical)];
  }

  class Limiter {
    var counters: Counters
    const statsAdmin: bool

    constructor (statsAdmin: bool)
      ensures counters == map[] && this.statsAdmin == statsAdmin
    {
      counters := map[];
      this.statsAdmin := statsAdmin;
    }

    method IncrMulti(entries: seq<Incr>) returns (vals: seq<int>)
      modifies this`counters
      ensures counters == ApplyAll(old(counters), entries)
      ensures |vals| == |entries|
      ensures forall j :: 0 <= j < |vals| ==> vals[j] == Value(ApplyAll(old(counters), entries[..j + 1]), entries[j].key)
    {
      vals := [];
      for i := 0 to |entries|
        invariant |vals| == i
        invariant counters == ApplyAll(old(counters), entries[..i])
        invariant forall j :: 0 <= j < i ==> vals[j] == Value(ApplyAll(old(counters), entries[..j + 1]), entries[j].key)
      {
        assert entries[..i + 1][..i] == entries[..i];
        var e := entries[i];
        var v := Value(counters, e.key) + e.delta;
        counters := counters[e.key := v];
        vals := vals + [v];
      }
      assert entries[..|entries|] == entries;
    }

    method GetMulti(keys: seq<CounterKey>) returns (vals: seq<int>)
      ensures |vals| == |keys| && Answers(counters, keys, vals)
    {
      vals := [];
      for i := 0 to |keys|
        invariant |vals| == i
        invariant forall j :: 0 <= j < i ==> vals[j] == Value(counters, keys[j])
      {
        vals := vals + [Value(counters, keys[i])];
      }
    }

    /** settleRejection; `trip` is what becomes of its round trip. */
    method SettleRejection(entries: seq<Incr>, violatedIdx: nat, scopes: seq<Scope>, now: int, trip: Trip)
      requires violatedIdx < |scopes| && entries == Entries(scopes, now)
      modifies this`counters
      ensures counters == ApplyAll(old(counters), Executed(SettleBatch(scopes, now, violatedIdx, statsAdmin), trip))
    {
      var comp: seq<Incr> := [];
      var totalPresent := false;
      for i := 0 to |scopes|
        invariant comp == Compensations(scopes, now, violatedIdx, i)
        invariant totalPresent == TotalPresent(scopes, violatedIdx, i)
        invariant counters == old(counters)
      {
        if i == violatedIdx {
          assert comp + [] == comp;
          continue;
        }
        var sc := scopes[i];
        var own := CompensateScope(entries, scopes, i, now);
        comp := comp + own;
        if IsTotal(sc) { totalPresent := true; }
      }
      var violated := scopes[violatedIdx];
      ghost var all := comp;
      comp := comp + [Rejection(violated.kind, violated.id, Day, now)];
      if totalPresent { comp := comp + [Rejection(TOTAL_KIND, TOTAL_ID, Day, now)]; }
      assert comp == all + RejectionEntries(violated, totalPresent, Day, now);
      ghost var day := comp;
      if statsAdmin {
        comp := comp + [Rejection(violated.kind, violated.id, Hour, now)];
        if totalPresent { comp := comp + [Rejection(TOTAL_KIND, TOTAL_ID, Hour, now)]; }
        assert comp == day + RejectionEntries(violated, totalPresent, Hour, now);
      }
      assert comp == SettleBatch(scopes, now, violatedIdx, statsAdmin);
      var _ := IncrMulti(Executed(comp, trip));
    }

    /**
     checkAndCount. The result is the one the naive reader of the incremented counters would give, and
     the counters move as `AfterCheck` says; a failed round trip refuses, and what the server executed of
     it before failing stays counted.
     */
    method CheckAndCount(scopes: seq<Scope>, now: int, trip: Trip, settling: Trip) returns (v: Option<Violation>)
      requires DistinctScopes(scopes)
      modifies this`counters
      ensures trip.Broken? ==> v == Some(StoreDown) && counters == ApplyAll(old(counters), Executed(Entries(scopes, now), trip))
      ensures trip.Whole? ==> v == NaiveViolation(ApplyAll(old(counters), Entries(scopes, now)), scopes, now)
      ensures trip.Whole? ==> (v.None? <==> forall j :: 0 <= j < |scopes| ==> PassesAll(old(counters), scopes[j], now))
      ensures trip.Whole? && v.Some? ==>
                v.value.Limit? && v.value.scopeIdx < |scopes| &&
                FailsFirst(old(counters), scopes[v.value.scopeIdx], now, v.value.rule) && v.value.retryAfter == Wait(v.value.rule, now) &&
                forall j :: 0 <= j < v.value.scopeIdx ==> PassesAll(old(counters), scopes[j], now)
      ensures trip.Whole? ==> counters == AfterCheck(old(counters), scopes, now, statsAdmin, settling)
    {
      var entries: seq<Incr> := [];
      for i := 0 to |scopes|
        invariant entries == Entries(scopes[..i], now)
        invariant counters == old(counters)
      {
        var sc := scopes[i];
        assert scopes[..i + 1][..i] == scopes[..i];
        entries := entries + [ Command(Counter(sc.kind, sc.id, Req, Min, now), 1),
                               Command(Counter(sc.kind, sc.id, Req, Day, now), 1),
                               Command(Counter(sc.kind, sc.id, Req, Hour, now), 1) ];
      }
      assert scopes[..|scopes|] == scopes;
      var plan := BuildBudgetProbes(scopes, now);
      if trip.Broken? {
        var _ := IncrMulti(Executed(entries, trip));
        return Some(StoreDown);
      }
      var incrVals := IncrMulti(entries);
      var getVals := GetMulti(plan.gets);
      ghost var counted := counters;
      forall j | 0 <= j < |incrVals| ensures incrVals[j] == Value(counted, entries[j].key) {
        ReplyIsFinal(old(counters), scopes, now, j);
      }
      FusedIsNaive(counted, scopes, 0, now, incrVals, getVals);
      VerdictInFields(old(counters), scopes, now);
      PlanAlwaysFits(scopes, |scopes|, now);
      v := Decide(scopes, now, entries, plan, incrVals, getVals, settling);
    }

    /** The evaluation half of checkAndCount, over the flat reply. */
    method Decide(scopes: seq<Scope>, now: int, entries: seq<Incr>, plan: Plan,
                  incrVals: seq<int>, getVals: seq<int>, settling: Trip)
      returns (v: Option<Violation>)
      requires entries == Entries(scopes, now) && plan == PlanOf(scopes, |scopes|, now)
      requires ReplyFits(scopes, now, incrVals, getVals) && PlanFits(plan)
      modifies this`counters
      ensures v == DecideFrom(scopes, 0, now, incrVals, getVals)
      ensures counters ==
              if v.Some? then ApplyAll(old(counters), Executed(SettleBatch(scopes, now, v.value.scopeIdx, statsAdmin), settling))
              else old(counters)
    {
      for i := 0 to |scopes|
        invariant DecideFrom(scopes, 0, now, incrVals, getVals) == DecideFrom(scopes, i, now, incrVals, getVals)
        invariant counters == old(counters)
      {
        var sc := scopes[i];
        if sc.limits.None? { continue; }
        var lim := sc.limits.value;
        var minCount := incrVals[3 * i];
        var dayCount := incrVals[3 * i + 1];
        if lim.requestsPerMinute > 0 && minCount > lim.requestsPerMinute {
          SettleRejection(entries, i, scopes, now, settling);
          return Some(Limit(i, RequestsPerMinute, RetryAfter(now, Min)));
        }
        if lim.requestsPerDay > 0 && dayCount > lim.requestsPerDay {
          SettleRejection(entries, i, scopes, now, settling);
          return Some(Limit(i, RequestsPerDay, RetryAfter(now, Day)));
        }
        var breached := FindProbe(plan, i, getVals);
        if breached.Some? {
          SettleRejection(entries, i, scopes, now, settling);
          return Some(Limit(i, breached.value, RetryAfter(now, RuleWindow(breached.value))));
        }
      }
      v := None;
    }

    /** accountWith without the opt-in statistics; `trip` is what becomes of its round trip. */
    method AccountWith(scopes: seq<Scope>, now: int, u: Usage, costMicros: int, trip: Trip)
      modifies this`counters
      ensures counters == ApplyAll(old(counters), Executed(AccountBatch(scopes, now, u, costMicros), trip))
      ensures trip.Whole? && DistinctScopes(scopes) ==>
                forall k :: Value(counters, k) == Value(old(counters), k) + Owed(scopes, now, u, costMicros, k)
    {
      if DistinctScopes(scopes) {
        forall k
          ensures Value(ApplyAll(old(counters), AccountBatch(scopes, now, u, costMicros)), k) ==
                  Value(old(counters), k) + Owed(scopes, now, u, costMicros, k)
        {
          ReportEffect(old(counters), scopes, now, u, costMicros, k);
        }
      }
      var prompt, completion, cost := u.prompt, u.completion, costMicros;
      if prompt > MAX_TOKENS { prompt := 0; }
      if completion > MAX_TOKENS { completion := 0; }
      if cost > MAX_COST { cost := 0; }
      if prompt < 0 { prompt := 0; }
      if completion < 0 { completion := 0; }
      if cost < 0 { cost := 0; }
      var entries := BuildCharges(scopes, now, Usage(prompt, completion), cost);
      if |entries| == 0 { return; }
      var _ := IncrMulti(Executed(entries, trip));
    }
  }
}
