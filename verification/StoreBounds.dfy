/**
 The limits over the expiring store. Here every answer a request gets is the one the in-process store
 gives at that moment, expiry, sweeping and int64 included.

 The budget bound holds as it stands: whoever can still spend in a bucket has read its budget while
 the bucket lasted, and by then no counter of the bucket can have expired. The rate bound holds as
 long as the increments of a counter are sent within its lifetime, and no longer: `RateHoldsIff`.
 */
module StoreBounds {
  import opened Common
  import opened DivMod
  import opened Calendar
  import opened Keys
  import opened Int64
  import A = Admission
  import opened Protocol
  import opened MemoryStoreModel
  import opened StoreRefinement
  import R = RateBound
  import B = BudgetBound

  /** The store after everything a run has sent. */
  function StoreAt(s: State, actions: seq<Action>): Image {
    RunStore(EMPTY, Rendered(Commands(s, actions), Times(s, actions)))
  }

  /** What the store answers the request's next command with. */
  function StoreReply(q: Request, store: Image, clock: int): int {
    if q.todo != [] then After(store, EventOf(q.todo[0], clock)).data[Render(q.todo[0].key)].value
    else if Reads(q) then Lookup(store, Render(PlanKeys(q)[|q.gets|]), clock)
    else 0
  }

  /** A step whose answer, if it gets one, is the store's. */
  predicate AnsweredBy(s: State, a: Action, store: Image) {
    a.Exec? && a.r < |s.requests| && AsksFor(s.requests[a.r]).Some? ==> a.reply == StoreReply(s.requests[a.r], store, s.clock)
  }

  /** A step that, if it asks for `k`, does so less than `lag` after `k`'s bucket began. */
  predicate Within(s: State, a: Action, k: CounterKey, lag: int) {
    a.Exec? && a.r < |s.requests| && AsksFor(s.requests[a.r]) == Some(k) ==> s.clock < BucketStart(k.window, k.bucket) + lag
  }

  /** A run over the store: every answer is the store's. */
  ghost predicate StoreRun(clock: int, stats: bool, actions: seq<Action>) {
    actions != [] ==>
      var before, s := actions[..|actions| - 1], Initial(clock, stats);
      StoreRun(clock, stats, before) && AnsweredBy(Run(s, before), actions[|actions| - 1], StoreAt(s, before))
  }

  ghost predicate AlwaysWithin(clock: int, stats: bool, actions: seq<Action>, k: CounterKey, lag: int) {
    actions != [] ==>
      var before, a := actions[..|actions| - 1], actions[|actions| - 1];
      AlwaysWithin(clock, stats, before, k, lag) && Within(Run(Initial(clock, stats), before), a, k, lag)
  }

  // ---------------------------------------------------------------- when the store tells the truth

  /** An increment is answered with what a read would have given, plus the increment. */
  lemma IncrementReply(store: Image, e: A.Incr, now: int)
    ensures After(store, EventOf(e, now)).data[Render(e.key)].value == Wrap(Lookup(store, Render(e.key), now) + e.delta)
  {
    IncrValue(store, Render(e.key), e.delta, ClampTTL(e.ttl, e.enforceTTL), now);
  }

  lemma IncrValue(store: Image, key: string, n: int, ttl: int, now: int)
    ensures AfterIncr(store, key, n, ttl, now).data[key].value == Wrap(Lookup(store, key, now) + n)
  {
    assert Lookup(SweepIfDue(store, now), key, now) == Lookup(store, key, now);
  }

  lemma {:induction false} ReplyFromLookup(q: Request, store: Image, clock: int, c: A.Counters, k: CounterKey)
    requires AsksFor(q) == Some(k) && Lookup(store, Render(k), clock) == Wrap(A.Value(c, k)) && Fits(TrueReply(q, c))
    ensures StoreReply(q, store, clock) == TrueReply(q, c)
  {
    if q.todo != [] {
      IncrementReply(store, q.todo[0], clock);
      WrapAdd(A.Value(c, k), q.todo[0].delta);
    }
  }

  /** Before its lifetime has passed since its bucket began, the store tells the truth about a counter. */
  lemma {:induction false} InTimeIsTrue(clock: int, stats: bool, actions: seq<Action>, q: Request, k: CounterKey)
    requires AllPlain(actions) && NoColon(k.kind) && AsksFor(q) == Some(k)
    requires var s := Run(Initial(clock, stats), actions);
             s.clock < BucketStart(k.window, k.bucket) + Lifetime(k.window) && Fits(TrueReply(q, s.counters))
    ensures var s := Run(Initial(clock, stats), actions);
            StoreReply(q, StoreAt(Initial(clock, stats), actions), s.clock) == TrueReply(q, s.counters)
  {
    var s := Run(Initial(clock, stats), actions);
    StoreServesProtocol(clock, stats, actions, k, s.clock);
    ReplyFromLookup(q, StoreAt(Initial(clock, stats), actions), s.clock, s.counters, k);
  }

  // ---------------------------------------------------------------- the rate bound

  /** A request adds at most one to a request counter. */
  lemma {:induction false} NetAtMostOne(q: Request, clock: int, stats: bool, k: CounterKey)
    requires Ok(q, clock, stats) && k.metric == Req && k.kind != A.MODEL_KIND
    ensures A.Net(q.executed, k) <= 1
  {
    var es := A.Entries(q.scopes, q.now);
    A.NetOfEntries(q.scopes, q.now, k);
    A.DistinctTouch(q.scopes, q.now, k);
    if q.phase.Counting? {
      EntriesSigns(q.scopes, q.now);
      CountedPart(q.executed, q.todo, k);
    } else {
      RestNotPositive(q, clock, stats, k);
      assert es <= q.executed;
      SplitNet(es, q.executed, k);
    }
  }

  lemma {:induction false} CountedPart(executed: seq<A.Incr>, todo: seq<A.Incr>, k: CounterKey)
    requires forall j :: 0 <= j < |executed + todo| ==> (executed + todo)[j].delta == 1
    ensures A.Net(executed, k) <= A.Net(executed + todo, k)
  {
    SumConcat(executed, todo, A.DeltaOn(k));
    assert forall j :: 0 <= j < |todo| ==> todo[j] == (executed + todo)[|executed| + j];
    SumNonNegative(todo, A.DeltaOn(k));
  }

  lemma {:induction false} SplitNet(es: seq<A.Incr>, all: seq<A.Incr>, k: CounterKey)
    requires es <= all
    ensures A.Net(all, k) == A.Net(es, k) + A.Net(all[|es|..], k)
  {
    assert all == es + all[|es|..];
    SumConcat(es, all[|es|..], A.DeltaOn(k));
  }

  /** Beyond its increments it only ever takes request counts back. */
  lemma {:induction false} RestNotPositive(q: Request, clock: int, stats: bool, k: CounterKey)
    requires Ok(q, clock, stats) && k.metric == Req && k.kind != A.MODEL_KIND && !q.phase.Counting?
    ensures |q.executed| >= 3 * |q.scopes| && A.Net(q.executed[3 * |q.scopes|..], k) <= 0
  {
    var n, f := 3 * |q.scopes|, A.DeltaOn(k);
    var rest := q.executed[n..];
    if q.phase.Refused? {
      var es, settle := A.Entries(q.scopes, q.now), A.SettleBatch(q.scopes, q.now, q.phase.violator, stats);
      SettleSigns(q.scopes, q.now, q.phase.violator, stats);
      forall j | 0 <= j < |rest| ensures f(rest[j]) <= 0 {
        assert rest[j] == (q.executed + q.todo)[n + j] == (es + settle)[n + j] == settle[j];
      }
    } else {
      forall j | 0 <= j < |rest| ensures f(rest[j]) <= 0 {
        if !q.phase.Reading? { assert rest[j] == (rest + q.todo)[j]; }
      }
    }
    SumZeroOrLess(rest, f);
  }

  lemma {:induction false} SumAtMostCount(qs: seq<Request>, f: Request -> int)
    requires forall r :: 0 <= r < |qs| ==> f(qs[r]) <= 1
    ensures SumOf(qs, f) <= |qs|
  {
    if qs != [] {
      var init := qs[..|qs| - 1];
      assert forall r :: 0 <= r < |init| ==> init[r] == qs[r];
      SumAtMostCount(init, f);
    }
  }

  /** A request counter is never above the number of requests, nor below zero. */
  lemma {:induction false} CounterWithinRequests(s: State, k: CounterKey)
    requires Inv(s) && k.metric == Req && k.kind != A.MODEL_KIND
    ensures 0 <= A.Value(s.counters, k) <= |s.requests|
  {
    forall r | 0 <= r < |s.requests| ensures 0 <= NetOn(k)(s.requests[r]) <= 1 {
      NetNonNegative(s.requests[r], s.clock, s.stats, k);
      NetAtMostOne(s.requests[r], s.clock, s.stats, k);
    }
    SumNonNegative(s.requests, NetOn(k));
    SumAtMostCount(s.requests, NetOn(k));
  }

  lemma {:induction false} RequestsGrow(s: State, a: Action)
    ensures |s.requests| <= |Step(s, a).requests|
  {
  }

  /** A step that asks for `k` in time is answered with the truth. */
  lemma {:induction false} StepIsTrue(clock: int, stats: bool, actions: seq<Action>, a: Action, k: CounterKey)
    requires k.metric == Req && k.kind != A.MODEL_KIND && NoColon(k.kind) && AllPlain(actions)
    requires var s := Run(Initial(clock, stats), actions);
             AnsweredBy(s, a, StoreAt(Initial(clock, stats), actions)) && Within(s, a, k, Lifetime(k.window)) &&
             |Step(s, a).requests| <= MAX
    ensures TruthfulOn(Run(Initial(clock, stats), actions), a, k)
  {
    var s := Run(Initial(clock, stats), actions);
    if a.Exec? && a.r < |s.requests| && AsksFor(s.requests[a.r]) == Some(k) {
      var q := s.requests[a.r];
      RunInv(clock, stats, actions);
      StepInv(s, a);
      CounterWithinRequests(s, k);
      CounterWithinRequests(Step(s, a), k);
      InTimeIsTrue(clock, stats, actions, q, k);
    }
  }

  lemma {:induction false} StoreIsHonest(clock: int, stats: bool, actions: seq<Action>, k: CounterKey)
    requires k.metric == Req && k.kind != A.MODEL_KIND && NoColon(k.kind) && AllPlain(actions) && StoreRun(clock, stats, actions)
    requires AlwaysWithin(clock, stats, actions, k, Lifetime(k.window))
    requires |Run(Initial(clock, stats), actions).requests| <= MAX
    ensures Honest(clock, stats, actions, k)
  {
    if actions != [] {
      var before, a := actions[..|actions| - 1], actions[|actions| - 1];
      RequestsGrow(Run(Initial(clock, stats), before), a);
      StoreIsHonest(clock, stats, before, k);
      StepIsTrue(clock, stats, before, a, k);
    }
  }

  lemma {:induction false} WithinLonger(clock: int, stats: bool, actions: seq<Action>, k: CounterKey, lag: int, longer: int)
    requires AlwaysWithin(clock, stats, actions, k, lag) && lag <= longer
    ensures AlwaysWithin(clock, stats, actions, k, longer)
  {
    if actions != [] { WithinLonger(clock, stats, actions[..|actions| - 1], k, lag, longer); }
  }

  /**
   A run over the store, with plain scope kinds, in which every increment of the limit's own counter is sent less than `lag`
   after its bucket began; fewer than 2^63 requests; and the limit never above `max`.
   */
  ghost predicate Qualifies(clock: int, stats: bool, actions: seq<Action>, l: R.Rate, max: int, lag: int) {
    R.IsRate(l) && NoColon(l.kind) && max >= 0 && AllPlain(actions) && StoreRun(clock, stats, actions) &&
    AlwaysWithin(clock, stats, actions, R.RateKey(l), lag) &&
    R.LimitedBy(Run(Initial(clock, stats), actions), l, max) && |Run(Initial(clock, stats), actions).requests| <= MAX
  }

  /** Over the store: at most `max` admitted requests per bucket, if no increment comes after the lifetime. */
  lemma {:induction false} AdmittedAtMostLimitInStore(clock: int, stats: bool, actions: seq<Action>, l: R.Rate, max: int, lag: int)
    requires Qualifies(clock, stats, actions, l, max, lag) && lag <= Lifetime(A.RuleWindow(l.rule))
    ensures CountOf(Run(Initial(clock, stats), actions).requests, R.AdmittedBy(l)) <= max
  {
    WithinLonger(clock, stats, actions, R.RateKey(l), lag, Lifetime(A.RuleWindow(l.rule)));
    StoreIsHonest(clock, stats, actions, R.RateKey(l));
    R.AdmittedAtMostLimit(clock, stats, actions, l, max);
  }

  // ---------------------------------------------------------------- the budget bound

  /** While a bucket lasts none of its counters has expired. */
  lemma {:induction false} LastsIsInTime(now: int, w: Window, b: int)
    requires Bucket(now, w) <= b
    ensures now < BucketStart(w, b) + Lifetime(w)
  {
    BucketIff(now, w, Bucket(now, w));
    BucketStartMonotone(w, Bucket(now, w) + 1, b + 1);
    EnforceTTLCoversBucket(w, b);
  }

  /** A counter of a budget is never negative and never above the budget's total. */
  lemma {:induction false} BudgetKeyWithinTotal(s: State, b: B.Budget, k: CounterKey)
    requires Inv(s) && k in B.BudgetKeys(b)
    ensures 0 <= A.Value(s.counters, k) <= B.Total(s, b)
  {
    var ks := B.BudgetKeys(b);
    NotNegative(s, ks[0]);
    NotNegative(s, ks[|ks| - 1]);
  }

  lemma {:induction false} NotNegative(s: State, k: CounterKey)
    requires Inv(s)
    ensures A.Value(s.counters, k) >= 0
  {
    forall r | 0 <= r < |s.requests| ensures NetOn(k)(s.requests[r]) >= 0 {
      NetNonNegative(s.requests[r], s.clock, s.stats, k);
    }
    SumNonNegative(s.requests, NetOn(k));
  }

  lemma {:induction false} CountsOnlyRequests(q: Request, clock: int, stats: bool)
    requires Ok(q, clock, stats) && q.phase.Counting?
    ensures forall j :: 0 <= j < |q.todo| ==> q.todo[j].key.metric == Req
  {
    EntriesSigns(q.scopes, q.now);
    assert forall j :: 0 <= j < |q.todo| ==> q.todo[j] == (q.executed + q.todo)[|q.executed| + j];
  }

  /** A request asks for a budget's counter only by reading it. */
  lemma {:induction false} AsksByReading(q: Request, clock: int, stats: bool, b: B.Budget, k: CounterKey)
    requires Ok(q, clock, stats) && k in B.BudgetKeys(b) && AsksFor(q) == Some(k)
    ensures q.todo == [] && Reads(q)
  {
    if q.phase.Counting? { CountsOnlyRequests(q, clock, stats); }
  }

  lemma {:induction false} BudgetStepIsTrue(clock: int, stats: bool, actions: seq<Action>, a: Action, b: B.Budget)
    requires B.IsBudget(b) && NoColon(b.kind) && AllPlain(actions)
    requires var s := Run(Initial(clock, stats), actions);
             AnsweredBy(s, a, StoreAt(Initial(clock, stats), actions)) && B.Total(s, b) <= MAX
    ensures B.TruthfulFor(Run(Initial(clock, stats), actions), a, b)
  {
    var s := Run(Initial(clock, stats), actions);
    RunInv(clock, stats, actions);
    if B.Lasts(s.clock, b) && a.Exec? && a.r < |s.requests| {
      var q := s.requests[a.r];
      forall k | k in B.BudgetKeys(b) ensures TruthfulOn(s, a, k) {
        if AsksFor(q) == Some(k) { BudgetAnswerIsTrue(clock, stats, actions, s, q, b, k); }
      }
    }
  }

  lemma {:induction false} BudgetAnswerIsTrue(clock: int, stats: bool, actions: seq<Action>, s: State, q: Request, b: B.Budget, k: CounterKey)
    requires s == Run(Initial(clock, stats), actions) && Inv(s) && Ok(q, s.clock, s.stats) && AllPlain(actions)
    requires k in B.BudgetKeys(b) && NoColon(b.kind) && AsksFor(q) == Some(k) && B.Lasts(s.clock, b) && B.Total(s, b) <= MAX
    requires B.IsBudget(b)
    ensures StoreReply(q, StoreAt(Initial(clock, stats), actions), s.clock) == TrueReply(q, s.counters)
  {
    AsksByReading(q, s.clock, s.stats, b, k);
    BudgetKeyWithinTotal(s, b, k);
    LastsIsInTime(s.clock, k.window, k.bucket);
    InTimeIsTrue(clock, stats, actions, q, k);
  }

  /** The bound of each prefix keeps its counters within int64, which keeps the next answer true. */
  lemma {:induction false} StoreIsHonestInBucket(clock: int, stats: bool, actions: seq<Action>, b: B.Budget, limit: int, inFlight: nat, most: int)
    requires B.IsBudget(b) && NoColon(b.kind) && limit >= 1 && most >= 0 && AllPlain(actions) && StoreRun(clock, stats, actions)
    requires B.AlwaysBounded(clock, stats, actions, b, limit, inFlight, most) && limit - 1 + inFlight * most <= MAX
    ensures B.HonestInBucket(clock, stats, actions, b)
  {
    if actions != [] {
      var before, a := actions[..|actions| - 1], actions[|actions| - 1];
      StoreIsHonestInBucket(clock, stats, before, b, limit, inFlight, most);
      B.OvershootBound(clock, stats, before, b, limit, inFlight, most);
      BudgetStepIsTrue(clock, stats, before, a, b);
    }
  }

  /** Over the store, however late reads and charges come: the budget bound, wherever the bound itself fits int64. */
  lemma {:induction false} OvershootBoundInStore(clock: int, stats: bool, actions: seq<Action>, b: B.Budget, limit: int, inFlight: nat, most: int)
    requires B.IsBudget(b) && NoColon(b.kind) && limit >= 1 && most >= 0 && AllPlain(actions) && StoreRun(clock, stats, actions)
    requires B.AlwaysBounded(clock, stats, actions, b, limit, inFlight, most) && limit - 1 + inFlight * most <= MAX
    ensures B.Total(Run(Initial(clock, stats), actions), b) <= limit - 1 + inFlight * most
  {
    StoreIsHonestInBucket(clock, stats, actions, b, limit, inFlight, most);
    B.OvershootBound(clock, stats, actions, b, limit, inFlight, most);
  }

  /** The same with the source's own caps. */
  lemma {:induction false} CappedOvershootInStore(clock: int, stats: bool, actions: seq<Action>, b: B.Budget, limit: int, inFlight: nat, reports: nat)
    requires B.IsBudget(b) && NoColon(b.kind) && limit >= 1 && AllPlain(actions) && StoreRun(clock, stats, actions)
    requires B.AlwaysReporting(clock, stats, actions, b, limit, inFlight, reports)
    requires limit - 1 + inFlight * (reports * B.ReportCap(b)) <= MAX
    ensures B.Total(Run(Initial(clock, stats), actions), b) <= limit - 1 + inFlight * (reports * B.ReportCap(b))
  {
    MulMonotone(0, reports, B.ReportCap(b));
    B.ReportingIsBounded(clock, stats, actions, b, limit, inFlight, reports);
    OvershootBoundInStore(clock, stats, actions, b, limit, inFlight, reports * B.ReportCap(b));
  }
}
