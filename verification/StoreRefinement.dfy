/**
 The bridge between the two views of the counters: the never-expiring map that the limiter and the
 request protocol are stated over, and the expiring, sweeping, int64 store keyed by text.
 */
module StoreRefinement {
  import opened Calendar
  import opened Keys
  import opened Int64
  import A = Admission
  import P = Protocol
  import opened MemoryStoreModel

  /** A command carries its window's own lifetimes. */
  predicate OwnLifetimes(e: A.Incr) {
    e.ttl == WindowTTL(e.key.window) && e.enforceTTL == EnforceTTL(e.key.window)
  }

  /** The store writes for commands executed at the given times. */
  function Rendered(cmds: seq<A.Incr>, times: seq<int>): (events: seq<Event>)
    requires |cmds| == |times|
    ensures |events| == |cmds|
    ensures forall i :: 0 <= i < |cmds| ==> events[i] == EventOf(cmds[i], times[i])
  {
    seq(|cmds|, i requires 0 <= i < |cmds| => EventOf(cmds[i], times[i]))
  }

  function EventOf(e: A.Incr, at: int): Event { Event(at, Incr(Render(e.key), e.delta, e.ttl, e.enforceTTL)) }

  lemma {:induction false} RenderedSum(cmds: seq<A.Incr>, times: seq<int>, k: CounterKey)
    requires |cmds| == |times| && NoColon(k.kind)
    requires forall i :: 0 <= i < |cmds| ==> NoColon(cmds[i].key.kind)
    ensures SumFor(Rendered(cmds, times), Render(k)) == A.Net(cmds, k)
  {
    if cmds != [] {
      var n := |cmds| - 1;
      RenderedSum(cmds[..n], times[..n], k);
      assert Rendered(cmds, times)[..n] == Rendered(cmds[..n], times[..n]);
      RenderInjective(cmds[n].key, k);
    }
  }

  lemma OwnKeyOnly(cmds: seq<A.Incr>, k: CounterKey)
    requires NoColon(k.kind) && forall i :: 0 <= i < |cmds| ==> NoColon(cmds[i].key.kind)
    ensures forall i :: 0 <= i < |cmds| && Render(cmds[i].key) == Render(k) ==> cmds[i].key == k
  {
    forall i | 0 <= i < |cmds| ensures Render(cmds[i].key) == Render(k) <==> cmds[i].key == k {
      RenderInjective(cmds[i].key, k);
    }
  }

  /**
   The in-process store refines the map: after any sequence of commands, each executed no earlier than
   its own bucket began, a counter looked up before its lifetime has passed reads as the map does.
   */
  lemma {:induction false} StoreRefinesMap(cmds: seq<A.Incr>, times: seq<int>, k: CounterKey, now: int)
    requires |cmds| == |times| && NoColon(k.kind)
    requires forall i :: 0 <= i < |cmds| ==>
               NoColon(cmds[i].key.kind) && OwnLifetimes(cmds[i]) &&
               BucketStart(cmds[i].key.window, cmds[i].key.bucket) <= times[i] <= now
    requires now < BucketStart(k.window, k.bucket) + Lifetime(k.window)
    ensures Lookup(RunStore(EMPTY, Rendered(cmds, times)), Render(k), now) ==
            Wrap(A.Value(A.ApplyAll(map[], cmds), k))
  {
    var events := Rendered(cmds, times);
    OwnKeyOnly(cmds, k);
    ReadsTheSum(events, Render(k), k.window, k.bucket, now);
    RenderedSum(cmds, times, k);
    A.ApplyAllValue(map[], cmds, k);
  }

  // ---------------------------------------------------------------- the limiter's batches qualify

  predicate PlainKinds(scopes: seq<A.Scope>) { forall i :: 0 <= i < |scopes| ==> NoColon(scopes[i].kind) }

  /** Built at `now`: a plain kind, the lifetimes of its own window, the bucket of that instant. */
  predicate BuiltAt(e: A.Incr, now: int) {
    NoColon(e.key.kind) && OwnLifetimes(e) && e.key.bucket == Bucket(now, e.key.window)
  }

  ghost predicate AllBuiltAt(es: seq<A.Incr>, now: int) {
    forall i :: 0 <= i < |es| ==> BuiltAt(es[i], now)
  }

  lemma {:induction false} EntriesBuilt(scopes: seq<A.Scope>, now: int)
    requires PlainKinds(scopes)
    ensures AllBuiltAt(A.Entries(scopes, now), now)
  {
    if scopes != [] { EntriesBuilt(scopes[..|scopes| - 1], now); }
  }

  lemma {:induction false} CompensationsBuilt(scopes: seq<A.Scope>, now: int, violator: nat, n: nat)
    requires n <= |scopes| && PlainKinds(scopes)
    ensures AllBuiltAt(A.Compensations(scopes, now, violator, n), now)
  {
    if n > 0 { CompensationsBuilt(scopes, now, violator, n - 1); }
  }

  lemma MetricEntriesBuilt(kind: string, id: string, m: Metric, amount: int, now: int)
    requires NoColon(kind)
    ensures AllBuiltAt(A.MetricEntries(kind, id, m, amount, now), now)
  {
  }

  lemma ScopeChargesBuilt(sc: A.Scope, now: int, u: A.Usage, cost: int)
    requires NoColon(sc.kind)
    ensures AllBuiltAt(A.ScopeCharges(sc, now, u, cost), now)
  {
    MetricEntriesBuilt(sc.kind, sc.id, Req, 1, now);
    MetricEntriesBuilt(sc.kind, sc.id, TokIn, u.prompt, now);
    MetricEntriesBuilt(sc.kind, sc.id, TokOut, u.completion, now);
    MetricEntriesBuilt(sc.kind, sc.id, Cost, cost, now);
  }

  lemma {:induction false} ChargesBuilt(scopes: seq<A.Scope>, now: int, u: A.Usage, cost: int)
    requires PlainKinds(scopes)
    ensures AllBuiltAt(A.ChargesOf(scopes, now, u, cost), now)
  {
    if scopes != [] {
      var n := |scopes| - 1;
      ChargesBuilt(scopes[..n], now, u, cost);
      ScopeChargesBuilt(scopes[n], now, u, cost);
    }
  }

  lemma {:induction false} SettleBuilt(scopes: seq<A.Scope>, now: int, violator: nat, stats: bool)
    requires violator < |scopes| && PlainKinds(scopes)
    ensures AllBuiltAt(A.SettleBatch(scopes, now, violator, stats), now)
  {
    CompensationsBuilt(scopes, now, violator, |scopes|);
  }

  lemma {:induction false} AccountBuilt(scopes: seq<A.Scope>, model: string, now: int, u: A.Usage, cost: int)
    requires PlainKinds(scopes)
    ensures AllBuiltAt(A.AccountBatch(A.WithModelScope(scopes, model), now, u, cost), now)
  {
    assert PlainKinds(A.WithModelScope(scopes, model));
    ChargesBuilt(A.WithModelScope(scopes, model), now,
                 A.Usage(A.Plausible(u.prompt, A.MAX_TOKENS), A.Plausible(u.completion, A.MAX_TOKENS)),
                 A.Plausible(cost, A.MAX_COST));
  }

  // ---------------------------------------------------------------- whole runs of the protocol

  /** The store commands a step sends: at most one. */
  function Sends(s: P.State, a: P.Action): seq<A.Incr> {
    match a
    case Exec(r, _) => if r < |s.requests| && s.requests[r].todo != [] then [s.requests[r].todo[0]] else []
    case _ => []
  }

  /** Every command a run sends, and the time each was sent. */
  function Commands(s: P.State, actions: seq<P.Action>): seq<A.Incr> {
    if actions == [] then []
    else
      var before := actions[..|actions| - 1];
      Commands(s, before) + Sends(P.Run(s, before), actions[|actions| - 1])
  }

  function Times(s: P.State, actions: seq<P.Action>): (ts: seq<int>)
    ensures |ts| == |Commands(s, actions)|
  {
    if actions == [] then []
    else
      var before := actions[..|actions| - 1];
      var at := P.Run(s, before);
      Times(s, before) + if Sends(at, actions[|actions| - 1]) == [] then [] else [at.clock]
  }

  /** A step changes the counters by exactly the commands it sends. */
  lemma {:induction false} StepSends(s: P.State, a: P.Action)
    ensures P.Step(s, a).counters == A.ApplyAll(s.counters, Sends(s, a))
  {
    if a.Exec? && a.r < |s.requests| && s.requests[a.r].todo != [] {
      var e := s.requests[a.r].todo[0];
      assert [e][..0] == [];
      assert A.ApplyAll(s.counters, [e]) == A.Apply(A.ApplyAll(s.counters, []), e);
    }
  }

  lemma {:induction false} RunSends(s: P.State, actions: seq<P.Action>)
    ensures P.Run(s, actions).counters == A.ApplyAll(s.counters, Commands(s, actions))
  {
    if actions != [] {
      var before, a := actions[..|actions| - 1], actions[|actions| - 1];
      RunSends(s, before);
      StepSends(P.Run(s, before), a);
      A.ApplyAllConcat(s.counters, Commands(s, before), Sends(P.Run(s, before), a));
    }
  }

  /** A command fit to be sent at `now`: never before its own bucket began. */
  predicate Timely(e: A.Incr, now: int) {
    NoColon(e.key.kind) && OwnLifetimes(e) && BucketStart(e.key.window, e.key.bucket) <= now
  }

  ghost predicate AllTimely(es: seq<A.Incr>, now: int) { forall i :: 0 <= i < |es| ==> Timely(es[i], now) }

  /** What was built at an instant may be sent at any later one. */
  lemma {:induction false} BuiltIsTimely(es: seq<A.Incr>, now: int, later: int)
    requires AllBuiltAt(es, now) && now <= later
    ensures AllTimely(es, later)
  {
    forall i | 0 <= i < |es| ensures Timely(es[i], later) { BucketIff(now, es[i].key.window, es[i].key.bucket); }
  }

  /** Every request has plain kinds and only timely commands left to send. */
  ghost predicate Queued(q: P.Request, clock: int) { PlainKinds(q.scopes) && AllTimely(q.todo, clock) }

  ghost predicate AllQueued(s: P.State) { forall r :: 0 <= r < |s.requests| ==> Queued(s.requests[r], s.clock) }

  predicate PlainAction(a: P.Action) { a.Start? ==> PlainKinds(a.scopes) }

  /** Every request of the run names plain scope kinds. */
  predicate AllPlain(actions: seq<P.Action>) {
    actions != [] ==> AllPlain(actions[..|actions| - 1]) && PlainAction(actions[|actions| - 1])
  }

  lemma {:induction false} ExecQueued(q: P.Request, c: A.Counters, clock: int, stats: bool, reply: int)
    requires P.Ok(q, clock, stats) && Queued(q, clock)
    ensures Queued(P.StepRequest(q, c, stats, reply).0, clock)
  {
    var q' := P.StepRequest(q, c, stats, reply).0;
    if q.todo == [] && q.phase.Reading? && q'.phase.Refused? {
      SettleBuilt(q.scopes, q.now, q'.phase.violator, stats);
      BuiltIsTimely(q'.todo, q.now, clock);
    }
  }

  lemma {:induction false} StartQueued(s: P.State, scopes: seq<A.Scope>)
    requires AllQueued(s) && PlainKinds(scopes) && P.WellFormedScopes(scopes)
    ensures AllQueued(P.Step(s, P.Start(scopes)))
  {
    EntriesBuilt(scopes, s.clock);
    BuiltIsTimely(A.Entries(scopes, s.clock), s.clock, s.clock);
  }

  lemma {:induction false} AccountQueued(scopes: seq<A.Scope>, clock: int, u: A.Usage, cost: int, model: string)
    requires PlainKinds(scopes)
    ensures AllTimely(A.AccountBatch(A.WithModelScope(scopes, model), clock, u, cost), clock)
  {
    AccountBuilt(scopes, model, clock, u, cost);
    BuiltIsTimely(A.AccountBatch(A.WithModelScope(scopes, model), clock, u, cost), clock, clock);
  }

  lemma {:induction false} StepQueued(s: P.State, a: P.Action)
    requires P.Inv(s) && AllQueued(s) && PlainAction(a)
    ensures AllQueued(P.Step(s, a))
  {
    match a
    case Tick(to) =>
    case Start(scopes) => if P.WellFormedScopes(scopes) { StartQueued(s, scopes); }
    case Exec(r, reply) =>
      if r < |s.requests| { ExecQueued(s.requests[r], s.counters, s.clock, s.stats, reply); }
    case Account(r, u, cost, model) =>
      if r < |s.requests| && s.requests[r].phase.Admitted? && s.requests[r].todo == [] {
        AccountQueued(s.requests[r].scopes, s.clock, u, cost, model);
      }
    case Close(r) =>
  }

  /** Each command was timely when sent, and none was sent later than `now`. */
  ghost predicate SentInTime(cmds: seq<A.Incr>, times: seq<int>, now: int) {
    |cmds| == |times| && forall i :: 0 <= i < |cmds| ==> Timely(cmds[i], times[i]) && times[i] <= now
  }

  /** In every run every command goes out with its window's lifetimes and no earlier than its bucket. */
  lemma {:induction false} RunSendsInTime(clock: int, stats: bool, actions: seq<P.Action>)
    requires AllPlain(actions)
    ensures var s := P.Initial(clock, stats);
            AllQueued(P.Run(s, actions)) && SentInTime(Commands(s, actions), Times(s, actions), P.Run(s, actions).clock)
  {
    var s := P.Initial(clock, stats);
    if actions != [] {
      var before, a := actions[..|actions| - 1], actions[|actions| - 1];
      RunSendsInTime(clock, stats, before);
      P.RunInv(clock, stats, before);
      StepQueued(P.Run(s, before), a);
    }
  }

  /**
   Whatever the requests do: run the same commands, at the times they were sent, through the expiring
   store keyed by text, and until its lifetime has passed since its bucket began every counter reads
   there as it does in the protocol, up to int64.
   */
  lemma {:induction false} StoreServesProtocol(clock: int, stats: bool, actions: seq<P.Action>, k: CounterKey, now: int)
    requires AllPlain(actions) && NoColon(k.kind)
    requires P.Run(P.Initial(clock, stats), actions).clock <= now < BucketStart(k.window, k.bucket) + Lifetime(k.window)
    ensures var s := P.Initial(clock, stats);
            Lookup(RunStore(EMPTY, Rendered(Commands(s, actions), Times(s, actions))), Render(k), now) ==
            Wrap(A.Value(P.Run(s, actions).counters, k))
  {
    var s := P.Initial(clock, stats);
    RunSends(s, actions);
    RunSendsInTime(clock, stats, actions);
    StoreRefinesMap(Commands(s, actions), Times(s, actions), k, now);
  }
}
