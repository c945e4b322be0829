/**
 The rate bound fails once an increment may come after its counter's lifetime: a request that read its
 clock in one bucket and was held up sends its increment when the store has already dropped the
 counter, is told it is the first, and is admitted. With `AdmittedAtMostLimitInStore` that makes the
 lifetime the exact condition, for both request limits: `RateHoldsIff`.
 */
module LateCount {
  import opened Common
  import opened Calendar
  import opened Keys
  import opened Int64
  import opened Admission
  import opened Protocol
  import M = MemoryStoreModel
  import S = StoreRefinement
  import R = RateBound
  import opened StoreBounds

  /** One user with a limit of one request per bucket of the rule's window. */
  function OneUser(rule: Rule): seq<Scope> {
    [Scope(Some(Limits(if rule == RequestsPerMinute then 1 else 0, if rule == RequestsPerDay then 1 else 0, 0, 0, 0, 0)), "user", "u")]
  }

  function TheRate(rule: Rule): R.Rate { R.Rate("user", "u", rule, 0) }

  function TheKey(rule: Rule): CounterKey { R.RateKey(TheRate(rule)) }

  function TheText(rule: Rule): string { Render(TheKey(rule)) }

  predicate IsRequestRule(rule: Rule) { rule == RequestsPerMinute || rule == RequestsPerDay }

  /** The place of the limited counter among the three. */
  function Place(rule: Rule): nat { if rule == RequestsPerMinute then 0 else 1 }

  lemma {:induction false} TheEntries(rule: Rule)
    requires IsRequestRule(rule)
    ensures var es := Entries(OneUser(rule), 0);
            |es| == 3 && (forall j :: 0 <= j < 3 ==> es[j].delta == 1 && es[j].key.kind == "user" && S.OwnLifetimes(es[j])) &&
            (forall j :: 0 <= j < 3 ==> (es[j].key == TheKey(rule) <==> j == Place(rule)))
    ensures PlanOf(OneUser(rule), 1, 0) == Plan([], [])
  {
    var scopes := OneUser(rule);
    assert scopes[..0] == [];
    assert Entries(scopes, 0) == Entries([], 0) + ScopeEntries(scopes[0], 0);
    assert PlanOf(scopes, 0, 0) == Plan([], []);
  }

  lemma {:induction false} Admits(rule: Rule, vals: seq<int>)
    requires IsRequestRule(rule) && |vals| == 3 && vals[Place(rule)] == 1
    ensures ReplyFits(OneUser(rule), 0, vals, []) && DecideFrom(OneUser(rule), 0, 0, vals, []).None?
  {
    TheEntries(rule);
    var scopes := OneUser(rule);
    assert DecideFrom(scopes, 1, 0, vals, []).None?;
    assert ScopeDecision(scopes, 0, 0, vals, []).None?;
  }

  // ---------------------------------------------------------------- what the store keeps

  /** Whatever is stored under the text expires by `t`. */
  predicate ExpiresBy(store: M.Image, text: string, t: int) { text in store.data ==> store.data[text].expiry <= t }

  lemma {:induction false} OtherKeyExpires(store: M.Image, e: Incr, now: int, text: string, t: int)
    requires ExpiresBy(store, text, t) && Render(e.key) != text
    ensures ExpiresBy(M.After(store, S.EventOf(e, now)), text, t)
  {
  }

  /** The first increment after expiry is answered with itself and starts a new lifetime. */
  lemma {:induction false} FirstAgain(store: M.Image, e: Incr, now: int)
    requires ExpiresBy(store, Render(e.key), now) && e.delta == 1 && S.OwnLifetimes(e)
    ensures M.After(store, S.EventOf(e, now)).data[Render(e.key)].value == 1
    ensures ExpiresBy(M.After(store, S.EventOf(e, now)), Render(e.key), now + M.Lifetime(e.key.window))
  {
    assert Wrap(1) == 1;
  }

  lemma {:induction false} OtherText(rule: Rule, e: Incr)
    requires e.key.kind == "user" && e.key != TheKey(rule)
    ensures Render(e.key) != TheText(rule)
  {
    RenderInjective(e.key, TheKey(rule));
  }

  // ---------------------------------------------------------------- building a run over the store

  /** The actions make a run over the store that ends in `s` with `store`. */
  ghost predicate Stands(rule: Rule, lag: int, actions: seq<Action>, s: State, store: M.Image) {
    s == Run(Initial(0, false), actions) && store == StoreAt(Initial(0, false), actions) &&
    S.AllPlain(actions) && StoreRun(0, false, actions) && AlwaysWithin(0, false, actions, TheKey(rule), lag)
  }

  function Stored(s: State, a: Action, store: M.Image): M.Image {
    if S.Sends(s, a) == [] then store else M.After(store, S.EventOf(S.Sends(s, a)[0], s.clock))
  }

  /** One action, in time and answered by the store. */
  ghost predicate Moves(rule: Rule, lag: int, s: State, store: M.Image, a: Action, s': State, store': M.Image) {
    S.PlainAction(a) && AnsweredBy(s, a, store) && s.clock < BucketStart(TheKey(rule).window, 0) + lag &&
    s' == Step(s, a) && store' == Stored(s, a, store)
  }

  datatype Site = Site(state: State, store: M.Image)

  ghost function Moving(rule: Rule, lag: int): (Site, Action, Site) -> bool {
    (x: Site, a: Action, y: Site) => Moves(rule, lag, x.state, x.store, a, y.state, y.store)
  }

  ghost predicate Linked(m: (Site, Action, Site) -> bool, sites: seq<Site>, actions: seq<Action>, i: nat)
    requires i < |actions| && |sites| == |actions| + 1
  {
    m(sites[i], actions[i], sites[i + 1])
  }

  /** The actions lead from the first site to the last, each move as `m` allows. */
  ghost predicate Path(m: (Site, Action, Site) -> bool, sites: seq<Site>, actions: seq<Action>, x: Site, y: Site) {
    |sites| == |actions| + 1 && sites[0] == x && sites[|actions|] == y &&
    forall i :: 0 <= i < |actions| ==> Linked(m, sites, actions, i)
  }

  const START: Site := Site(Initial(0, false), M.EMPTY)

  /** Actions in time and answered by the store lead here. */
  ghost predicate Reached(rule: Rule, lag: int, s: State, store: M.Image) {
    exists sites, actions :: Path(Moving(rule, lag), sites, actions, START, Site(s, store))
  }

  lemma {:induction false} PathSnoc(m: (Site, Action, Site) -> bool, sites: seq<Site>, actions: seq<Action>, x: Site, y: Site, a: Action, z: Site)
    requires Path(m, sites, actions, x, y) && m(y, a, z)
    ensures Path(m, sites + [z], actions + [a], x, z)
  {
    var sites', actions' := sites + [z], actions + [a];
    forall i | 0 <= i < |actions'| ensures Linked(m, sites', actions', i) {
      if i < |actions| { assert Linked(m, sites, actions, i); }
    }
  }

  lemma {:induction false} PathInit(m: (Site, Action, Site) -> bool, sites: seq<Site>, actions: seq<Action>, x: Site, y: Site)
    requires Path(m, sites, actions, x, y) && actions != []
    ensures var n := |actions|;
            Path(m, sites[..n], actions[..n - 1], x, sites[n - 1]) && m(sites[n - 1], actions[n - 1], y)
  {
    var n := |actions|;
    var sites', actions' := sites[..n], actions[..n - 1];
    forall i | 0 <= i < n - 1 ensures Linked(m, sites', actions', i) { assert Linked(m, sites, actions, i); }
    assert Linked(m, sites, actions, n - 1);
  }

  lemma {:induction false} Move(rule: Rule, lag: int, s: State, store: M.Image, a: Action, s': State, store': M.Image)
    requires Reached(rule, lag, s, store) && Moves(rule, lag, s, store, a, s', store')
    ensures Reached(rule, lag, s', store')
  {
    var sites, actions :| Path(Moving(rule, lag), sites, actions, START, Site(s, store));
    PathSnoc(Moving(rule, lag), sites, actions, START, Site(s, store), a, Site(s', store'));
  }

  lemma {:induction false} StandsAtStart(rule: Rule, lag: int)
    ensures Stands(rule, lag, [], Initial(0, false), M.EMPTY)
  {
    assert S.Rendered([], []) == [];
  }

  lemma {:induction false} PathIsARun(rule: Rule, lag: int, sites: seq<Site>, actions: seq<Action>, y: Site)
    requires Path(Moving(rule, lag), sites, actions, START, y)
    ensures Stands(rule, lag, actions, y.state, y.store)
    decreases |actions|
  {
    if actions == [] {
      StandsAtStart(rule, lag);
    } else {
      var n := |actions|;
      PathInit(Moving(rule, lag), sites, actions, START, y);
      PathIsARun(rule, lag, sites[..n], actions[..n - 1], sites[n - 1]);
      Go(rule, lag, actions[..n - 1], sites[n - 1], actions[n - 1], actions, y);
    }
  }

  /** The store moves with the command a step sends. */
  lemma {:induction false} StoreSteps(s: State, all: seq<Action>)
    requires all != []
    ensures StoreAt(s, all) == Stored(Run(s, all[..|all| - 1]), all[|all| - 1], StoreAt(s, all[..|all| - 1]))
  {
    var before, a := all[..|all| - 1], all[|all| - 1];
    var at := Run(s, before);
    var cmds, times := S.Commands(s, before), S.Times(s, before);
    if S.Sends(at, a) == [] {
      assert S.Commands(s, all) == cmds && S.Times(s, all) == times;
    } else {
      var e := S.Sends(at, a)[0];
      assert S.Commands(s, all) == cmds + [e] && S.Times(s, all) == times + [at.clock];
      RenderedAppend(cmds, times, e, at.clock);
      RunStoreAppend(S.Rendered(cmds, times), S.EventOf(e, at.clock));
    }
  }

  lemma {:induction false} RenderedAppend(cmds: seq<Incr>, times: seq<int>, e: Incr, at: int)
    requires |cmds| == |times|
    ensures S.Rendered(cmds + [e], times + [at]) == S.Rendered(cmds, times) + [S.EventOf(e, at)]
  {
  }

  lemma {:induction false} RunStoreAppend(events: seq<M.Event>, e: M.Event)
    ensures M.RunStore(M.EMPTY, events + [e]) == M.After(M.RunStore(M.EMPTY, events), e)
  {
    assert (events + [e])[..|events|] == events;
  }

  /** One more action, answered by the store. */
  lemma {:induction false} Go(rule: Rule, lag: int, actions: seq<Action>, x: Site, a: Action, all: seq<Action>, y: Site)
    requires Stands(rule, lag, actions, x.state, x.store) && Moves(rule, lag, x.state, x.store, a, y.state, y.store)
    requires all != [] && actions == all[..|all| - 1] && a == all[|all| - 1]
    ensures Stands(rule, lag, all, y.state, y.store)
  {
    StoreSteps(Initial(0, false), all);
    GoPlain(all);
    GoWithin(rule, lag, all);
    GoAnswered(all);
  }

  lemma {:induction false} GoPlain(all: seq<Action>)
    requires all != [] && S.AllPlain(all[..|all| - 1]) && S.PlainAction(all[|all| - 1])
    ensures S.AllPlain(all)
  {
  }

  lemma {:induction false} GoWithin(rule: Rule, lag: int, all: seq<Action>)
    requires all != [] && AlwaysWithin(0, false, all[..|all| - 1], TheKey(rule), lag)
    requires Within(Run(Initial(0, false), all[..|all| - 1]), all[|all| - 1], TheKey(rule), lag)
    ensures AlwaysWithin(0, false, all, TheKey(rule), lag)
  {
  }

  lemma {:induction false} GoAnswered(all: seq<Action>)
    requires all != [] && StoreRun(0, false, all[..|all| - 1])
    requires AnsweredBy(Run(Initial(0, false), all[..|all| - 1]), all[|all| - 1], StoreAt(Initial(0, false), all[..|all| - 1]))
    ensures StoreRun(0, false, all)
  {
  }

  // ---------------------------------------------------------------- one request

  /** The request has sent `j` of its increments, and was told it is the first if it sent the limited one. */
  ghost predicate Counting(rule: Rule, q: Request, j: nat) {
    var es := Entries(OneUser(rule), 0);
    j <= |es| && q == Request(OneUser(rule), 0, Phase.Counting, es[..j], es[j..], q.vals, [], 0) && |q.vals| == j &&
    (j > Place(rule) ==> q.vals[Place(rule)] == 1)
  }

  lemma {:induction false} Pending(rule: Rule, q: Request, j: nat)
    requires IsRequestRule(rule) && j < 3 && Counting(rule, q, j)
    ensures q.todo != [] && q.todo[0] == Entries(OneUser(rule), 0)[j]
  {
    TheEntries(rule);
  }

  lemma {:induction false} Shift(es: seq<Incr>, j: nat)
    requires j < |es|
    ensures es[..j] + [es[j]] == es[..j + 1] && es[j..][1..] == es[j + 1..] && es[j..][0] == es[j]
  {
  }

  lemma {:induction false} CountsOn(rule: Rule, q: Request, c: Counters, j: nat, reply: int)
    requires IsRequestRule(rule) && j < 3 && Counting(rule, q, j) && (j == Place(rule) ==> reply == 1)
    ensures Counting(rule, StepRequest(q, c, false, reply).0, j + 1)
  {
    Pending(rule, q, j);
    TheEntries(rule);
    Shift(Entries(OneUser(rule), 0), j);
  }

  /** When the limited counter expires, before and after this request incremented it. */
  function ExpiryBefore(rule: Rule, clock: int, j: nat): int {
    if j <= Place(rule) then clock else clock + M.Lifetime(TheKey(rule).window)
  }

  /** The store's answer to increment `j` and what it holds after it. */
  lemma {:induction false} Answers(rule: Rule, store: M.Image, clock: int, j: nat)
    requires IsRequestRule(rule) && j < 3 && ExpiresBy(store, TheText(rule), ExpiryBefore(rule, clock, j))
    ensures var e := Entries(OneUser(rule), 0)[j];
            var store' := M.After(store, S.EventOf(e, clock));
            (j == Place(rule) ==> store'.data[Render(e.key)].value == 1) &&
            ExpiresBy(store', TheText(rule), ExpiryBefore(rule, clock, j + 1))
  {
    TheEntries(rule);
    var e := Entries(OneUser(rule), 0)[j];
    if j == Place(rule) {
      FirstAgain(store, e, clock);
    } else {
      OtherText(rule, e);
      OtherKeyExpires(store, e, clock, TheText(rule), ExpiryBefore(rule, clock, j));
    }
  }

  /** Where a run stands while request `r` counts: everything but `r` as in `s`. */
  ghost predicate Only(s: State, r: nat, s': State) {
    r < |s.requests| && |s'.requests| == |s.requests| && s'.clock == s.clock && s'.stats == s.stats &&
    forall i :: 0 <= i < |s.requests| && i != r ==> s'.requests[i] == s.requests[i]
  }

  lemma {:induction false} SendOne(rule: Rule, lag: int, s: State, store: M.Image, r: nat, j: nat)
    returns (s': State, store': M.Image)
    requires IsRequestRule(rule) && j < 3 && Reached(rule, lag, s, store) && r < |s.requests| && !s.stats
    requires s.clock < BucketStart(TheKey(rule).window, 0) + lag
    requires Counting(rule, s.requests[r], j) && ExpiresBy(store, TheText(rule), ExpiryBefore(rule, s.clock, j))
    ensures Reached(rule, lag, s', store') && Only(s, r, s') && Counting(rule, s'.requests[r], j + 1)
    ensures ExpiresBy(store', TheText(rule), ExpiryBefore(rule, s.clock, j + 1))
  {
    var q := s.requests[r];
    var reply := StoreReply(q, store, s.clock);
    Pending(rule, q, j);
    Answers(rule, store, s.clock, j);
    CountsOn(rule, q, s.counters, j, reply);
    var a := Exec(r, reply);
    s', store' := Step(s, a), Stored(s, a, store);
    SendMoves(rule, lag, s, store, r, j);
    Move(rule, lag, s, store, a, s', store');
  }

  lemma {:induction false} SendMoves(rule: Rule, lag: int, s: State, store: M.Image, r: nat, j: nat)
    requires r < |s.requests| && s.requests[r].todo != [] && s.clock < BucketStart(TheKey(rule).window, 0) + lag
    ensures var a := Exec(r, StoreReply(s.requests[r], store, s.clock));
            Moves(rule, lag, s, store, a, Step(s, a), Stored(s, a, store)) &&
            Stored(s, a, store) == M.After(store, S.EventOf(s.requests[r].todo[0], s.clock))
  {
  }

  predicate AdmittedOne(rule: Rule, q: Request) { q.phase.Admitted? && q.now == 0 && q.scopes == OneUser(rule) }

  lemma {:induction false} Turns(rule: Rule, q: Request, c: Counters)
    requires IsRequestRule(rule) && Counting(rule, q, 3)
    ensures q.todo == [] && AsksFor(q).None? && StepRequest(q, c, false, 0) == (q.(phase := Reading), c)
    ensures var t := q.(phase := Reading);
            AsksFor(t).None? && StepRequest(t, c, false, 0) == (t.(phase := Admitted), c)
  {
    TheEntries(rule);
    Admits(rule, q.vals);
  }

  /** A request that has sent its increments turns to reading, has nothing to read, and is admitted. */
  lemma {:induction false} DecideOne(rule: Rule, lag: int, s: State, store: M.Image, r: nat)
    returns (s': State)
    requires IsRequestRule(rule) && Reached(rule, lag, s, store) && r < |s.requests| && Counting(rule, s.requests[r], 3)
    requires s.clock < BucketStart(TheKey(rule).window, 0) + lag && !s.stats
    ensures Reached(rule, lag, s', store) && Only(s, r, s') && AdmittedOne(rule, s'.requests[r])
  {
    var q, a := s.requests[r], Exec(r, 0);
    Turns(rule, q, s.counters);
    var turned := Step(s, a);
    Move(rule, lag, s, store, a, turned, store);
    s' := Step(turned, a);
    Move(rule, lag, turned, store, a, s', store);
  }

  lemma {:induction false} SendRest(rule: Rule, lag: int, s: State, store: M.Image, r: nat, j: nat)
    returns (s': State, store': M.Image)
    requires IsRequestRule(rule) && j <= 3 && Reached(rule, lag, s, store) && r < |s.requests| && !s.stats
    requires s.clock < BucketStart(TheKey(rule).window, 0) + lag
    requires Counting(rule, s.requests[r], j) && ExpiresBy(store, TheText(rule), ExpiryBefore(rule, s.clock, j))
    ensures Reached(rule, lag, s', store') && Only(s, r, s') && Counting(rule, s'.requests[r], 3)
    ensures ExpiresBy(store', TheText(rule), ExpiryBefore(rule, s.clock, 3))
    decreases 3 - j
  {
    s', store' := s, store;
    if j < 3 {
      var s1, store1 := SendOne(rule, lag, s, store, r, j);
      s', store' := SendRest(rule, lag, s1, store1, r, j + 1);
    }
  }

  /** If the limited counter has expired, a request that read its clock at 0 is admitted, however late it counts. */
  lemma {:induction false} CountOne(rule: Rule, lag: int, s: State, store: M.Image, r: nat)
    returns (s': State, store': M.Image)
    requires IsRequestRule(rule) && Reached(rule, lag, s, store) && r < |s.requests| && Counting(rule, s.requests[r], 0)
    requires s.clock < BucketStart(TheKey(rule).window, 0) + lag && ExpiresBy(store, TheText(rule), s.clock) && !s.stats
    ensures Reached(rule, lag, s', store') && Only(s, r, s') && AdmittedOne(rule, s'.requests[r])
    ensures ExpiresBy(store', TheText(rule), s.clock + M.Lifetime(TheKey(rule).window))
  {
    var counted;
    counted, store' := SendRest(rule, lag, s, store, r, 0);
    s' := DecideOne(rule, lag, counted, store', r);
  }

  /** Two requests read their clocks at 0. */
  lemma {:induction false} StartTwo(rule: Rule, lag: int) returns (s: State)
    requires IsRequestRule(rule) && lag > 0
    ensures Reached(rule, lag, s, M.EMPTY) && s.clock == 0 && |s.requests| == 2 && !s.stats
    ensures Counting(rule, s.requests[0], 0) && Counting(rule, s.requests[1], 0)
  {
    TheEntries(rule);
    var a, s0 := Start(OneUser(rule)), Initial(0, false);
    var s1 := Step(s0, a);
    s := Step(s1, a);
    assert Path(Moving(rule, lag), [START], [], START, Site(s0, M.EMPTY));
    Move(rule, lag, s0, M.EMPTY, a, s1, M.EMPTY);
    Move(rule, lag, s1, M.EMPTY, a, s, M.EMPTY);
    var es := Entries(OneUser(rule), 0);
    assert es[..0] == [] && es[0..] == es;
  }

  /** Two requests of bucket 0, one counting at once and one when the counter's lifetime has just passed. */
  lemma {:induction false} BothPass(rule: Rule, lag: int) returns (s: State, store: M.Image)
    requires IsRequestRule(rule) && lag > M.Lifetime(RuleWindow(rule))
    ensures Reached(rule, lag, s, store) && |s.requests| == 2
    ensures AdmittedOne(rule, s.requests[0]) && AdmittedOne(rule, s.requests[1])
  {
    var late := M.Lifetime(RuleWindow(rule));
    var two := StartTwo(rule, lag);
    var one, store1 := CountOne(rule, lag, two, M.EMPTY, 0);
    var a := Tick(late);
    var later := Step(one, a);
    Move(rule, lag, one, store1, a, later, store1);
    s, store := CountOne(rule, lag, later, store1, 1);
  }

  lemma {:induction false} BothCount(rule: Rule, s: State)
    requires IsRequestRule(rule) && |s.requests| == 2 && AdmittedOne(rule, s.requests[0]) && AdmittedOne(rule, s.requests[1])
    ensures CountOf(s.requests, R.AdmittedBy(TheRate(rule))) == 2 && R.LimitedBy(s, TheRate(rule), 1)
  {
    var p, q0, q1 := R.AdmittedBy(TheRate(rule)), s.requests[0], s.requests[1];
    assert R.ScopeAt(q0, TheRate(rule), 0) && R.ScopeAt(q1, TheRate(rule), 0);
    assert p(q0) && p(q1);
    CountAppend([], q0, p);
    CountAppend([q0], q1, p);
    assert s.requests == [q0] + [q1] && [] + [q0] == [q0];
  }

  lemma {:induction false} StandsQualifies(rule: Rule, lag: int, actions: seq<Action>, s: State, store: M.Image)
    requires IsRequestRule(rule) && Stands(rule, lag, actions, s, store) && |s.requests| == 2 && R.LimitedBy(s, TheRate(rule), 1)
    ensures Qualifies(0, false, actions, TheRate(rule), 1, lag)
  {
  }

  /**
   Two requests of the same bucket, one counting at once and one when the counter's lifetime has just
   passed, are both admitted under a limit of one.
   */
  lemma {:induction false} LateIncrement(rule: Rule, lag: int) returns (actions: seq<Action>)
    requires IsRequestRule(rule) && lag > M.Lifetime(RuleWindow(rule))
    ensures Qualifies(0, false, actions, TheRate(rule), 1, lag)
    ensures CountOf(Run(Initial(0, false), actions).requests, R.AdmittedBy(TheRate(rule))) == 2
  {
    var s, store := BothPass(rule, lag);
    var sites, path :| Path(Moving(rule, lag), sites, path, START, Site(s, store));
    PathIsARun(rule, lag, sites, path, Site(s, store));
    BothCount(rule, s);
    StandsQualifies(rule, lag, path, s, store);
    actions := path;
  }

  // ---------------------------------------------------------------- the exact condition

  /** Every run over the store whose increments come within `lag` of their bucket keeps the limit. */
  ghost predicate RateHolds(rule: Rule, lag: int) {
    forall clock, stats, actions, l: R.Rate, max :: Qualifies(clock, stats, actions, l, max, lag) && l.rule == rule ==>
      CountOf(Run(Initial(clock, stats), actions).requests, R.AdmittedBy(l)) <= max
  }

  /** The limit holds of all such runs if and only if `lag` is within the lifetime of the rule's counter. */
  lemma {:induction false} RateHoldsIff(rule: Rule, lag: int)
    requires IsRequestRule(rule)
    ensures RateHolds(rule, lag) <==> lag <= M.Lifetime(RuleWindow(rule))
  {
    if lag <= M.Lifetime(RuleWindow(rule)) {
      forall clock, stats, actions, l: R.Rate, max | Qualifies(clock, stats, actions, l, max, lag) && l.rule == rule
        ensures CountOf(Run(Initial(clock, stats), actions).requests, R.AdmittedBy(l)) <= max
      {
        AdmittedAtMostLimitInStore(clock, stats, actions, l, max, lag);
      }
    } else {
      var actions := LateIncrement(rule, lag);
      assert Qualifies(0, false, actions, TheRate(rule), 1, lag);
    }
  }
}
