/**
 Concurrent requests against one counter backend. Every store command of every request is a separate
 step, because neither a Redis pipeline nor the in-process store makes a batch atomic: a request
 reads the clock, increments its counters one by one, reads its budgets one by one, decides, and
 then either compensates one by one or, when the upstream answers, charges one by one.

 The reply that a step is answered with is part of the step: `Exec(r, reply)`. A backend that tells the
 truth about a counter is one whose replies are `TrueReply`; what is proved without assuming it holds
 whatever the backend answers.

 `Inv` holds in every reachable state, whatever the replies: each counter is the sum of what the requests have executed on
 it (the ledger), and every request has executed a prefix of what the source would send.
 */
module Protocol {
  import opened Common
  import opened Calendar
  import opened Keys
  import opened Admission

  datatype Phase =
    | Counting            // sending its increments
    | Reading             // increments sent, reading its budgets
    | Admitted            // waiting for the upstream, or sending charges
    | Closed              // served and finished
    | Refused(violator: nat) // refused by that scope, compensating or done

  /** `executed` and `todo` are the commands sent and still to send, `vals` and `gets` the replies, and
      `accounts` how often the request has reported usage that bills anything. */
  datatype Request = Request(scopes: seq<Scope>, now: int, phase: Phase,
                             executed: seq<Incr>, todo: seq<Incr>, vals: seq<int>, gets: seq<int>,
                             accounts: nat)

  datatype State = State(clock: int, counters: Counters, requests: seq<Request>, stats: bool)

  datatype Action =
    | Tick(to: int)
    | Start(scopes: seq<Scope>)
    | Exec(r: nat, reply: int)
    | Account(r: nat, u: Usage, cost: int, model: string)
    | Close(r: nat)

  /** What buildLimitScopes and withTotalScope hand to an admission call. */
  predicate WellFormedScopes(scopes: seq<Scope>) {
    DistinctScopes(scopes) && forall i :: 0 <= i < |scopes| ==> scopes[i].kind != MODEL_KIND
  }

  /** Something of the report is left once implausible figures are dropped. */
  predicate Bills(u: Usage, cost: int) {
    Plausible(u.prompt, MAX_TOKENS) != 0 || Plausible(u.completion, MAX_TOKENS) != 0 || Plausible(cost, MAX_COST) != 0
  }

  function PlanKeys(q: Request): seq<CounterKey> { PlanOf(q.scopes, |q.scopes|, q.now).gets }

  /** Its next step is a budget read. */
  predicate Reads(q: Request) { q.todo == [] && q.phase.Reading? && |q.gets| < |PlanKeys(q)| }

  /** The counter whose value the request's next step is answered with, and keeps. */
  function AsksFor(q: Request): Option<CounterKey> {
    if q.todo != [] && q.phase.Counting? then Some(q.todo[0].key)
    else if Reads(q) then Some(PlanKeys(q)[|q.gets|])
    else None
  }

  /** What a backend whose counters are `c` truly answers: an increment's new value, or a read's present one. */
  function TrueReply(q: Request, c: Counters): int {
    if q.todo != [] then Value(Apply(c, q.todo[0]), q.todo[0].key)
    else if Reads(q) then Value(c, PlanKeys(q)[|q.gets|])
    else 0
  }

  /** The next store command of a request, answered with `reply`, or its decision when the reply is complete. */
  function StepRequest(q: Request, c: Counters, stats: bool, reply: int): (Request, Counters) {
    if q.todo != [] then
      var e := q.todo[0];
      (q.(executed := q.executed + [e], todo := q.todo[1..], vals := if q.phase.Counting? then q.vals + [reply] else q.vals),
       Apply(c, e))
    else if q.phase.Counting? then (q.(phase := Reading), c)
    else if Reads(q) then (q.(gets := q.gets + [reply]), c)
    else if q.phase.Reading? && ReplyFits(q.scopes, q.now, q.vals, q.gets) then
      match DecideFrom(q.scopes, 0, q.now, q.vals, q.gets)
      case None => (q.(phase := Admitted), c)
      case Some(v) => (q.(phase := Refused(v.scopeIdx), todo := SettleBatch(q.scopes, q.now, v.scopeIdx, stats)), c)
    else (q, c)
  }

  /** One step; an action that is not enabled changes nothing. */
  function Step(s: State, a: Action): State {
    match a
    case Tick(to) => if to >= s.clock then s.(clock := to) else s
    case Start(scopes) =>
      if WellFormedScopes(scopes) then
        s.(requests := s.requests + [Request(scopes, s.clock, Counting, [], Entries(scopes, s.clock), [], [], 0)])
      else s
    case Exec(r, reply) =>
      if r < |s.requests| then
        var (q, c) := StepRequest(s.requests[r], s.counters, s.stats, reply);
        s.(requests := s.requests[r := q], counters := c)
      else s
    case Account(r, u, cost, model) =>
      if r < |s.requests| && s.requests[r].phase.Admitted? && s.requests[r].todo == [] then
        var q := s.requests[r];
        s.(requests := s.requests[r := q.(todo := AccountBatch(WithModelScope(q.scopes, model), s.clock, u, cost),
                                         accounts := q.accounts + if Bills(u, cost) then 1 else 0)])
      else s
    case Close(r) =>
      if r < |s.requests| && s.requests[r].phase.Admitted? && s.requests[r].todo == [] then
        s.(requests := s.requests[r := s.requests[r].(phase := Closed)])
      else s
  }

  function Initial(clock: int, stats: bool): State { State(clock, map[], [], stats) }

  function Run(s: State, actions: seq<Action>): State {
    if actions == [] then s else Step(Run(s, actions[..|actions| - 1]), actions[|actions| - 1])
  }

  // ---------------------------------------------------------------- replies that tell the truth

  /** If the step is answered with a counter, the answer is the truth. */
  predicate Truthful(s: State, a: Action) {
    a.Exec? && a.r < |s.requests| && AsksFor(s.requests[a.r]).Some? ==> a.reply == TrueReply(s.requests[a.r], s.counters)
  }

  /** If the step is answered with the counter `k`, the answer is the truth. */
  predicate TruthfulOn(s: State, a: Action, k: CounterKey) {
    a.Exec? && a.r < |s.requests| && AsksFor(s.requests[a.r]) == Some(k) ==> Truthful(s, a)
  }

  /** At every step of the run, an answer about `k` is the truth. */
  ghost predicate Honest(clock: int, stats: bool, actions: seq<Action>, k: CounterKey) {
    actions != [] ==>
      var before := actions[..|actions| - 1];
      Honest(clock, stats, before, k) && TruthfulOn(Run(Initial(clock, stats), before), actions[|actions| - 1], k)
  }

  // ---------------------------------------------------------------- the invariant

  /** What a request has added to the counter `k` so far. */
  ghost function NetOn(k: CounterKey): Request -> int { (q: Request) => Net(q.executed, k) }

  ghost predicate Ledger(s: State) {
    forall k: CounterKey :: Value(s.counters, k) == SumOf(s.requests, NetOn(k))
  }

  /** A charge: never negative, on one of the request's scopes or a served model, in a bucket between
      the request's start and the present. */
  predicate IsCharge(e: Incr, scopes: seq<Scope>, from: int, clock: int) {
    e.delta >= 0 && Bucket(from, e.key.window) <= e.key.bucket <= Bucket(clock, e.key.window) &&
    (e.key.kind == MODEL_KIND ||
     ((e.key.metric == TokIn || e.key.metric == TokOut || e.key.metric == Cost) &&
      exists i :: 0 <= i < |scopes| && scopes[i].kind == e.key.kind && scopes[i].id == e.key.id))
  }

  ghost predicate AllCharges(es: seq<Incr>, scopes: seq<Scope>, from: int, clock: int) {
    forall j :: 0 <= j < |es| ==> IsCharge(es[j], scopes, from, clock)
  }

  /** A request's commands and replies fit its phase. */
  ghost predicate Ok(q: Request, clock: int, stats: bool) {
    var n := 3 * |q.scopes|;
    WellFormedScopes(q.scopes) && q.now <= clock && |q.vals| <= |q.executed| &&
    match q.phase
    case Counting => q.executed + q.todo == Entries(q.scopes, q.now) && |q.vals| == |q.executed| && q.gets == []
    case Reading =>
      q.executed == Entries(q.scopes, q.now) && q.todo == [] && |q.vals| == n && |q.gets| <= |PlanKeys(q)|
    case Refused(violator) =>
      violator < |q.scopes| && q.scopes[violator].limits.Some? && |q.vals| == n &&
      q.executed + q.todo == Entries(q.scopes, q.now) + SettleBatch(q.scopes, q.now, violator, stats) &&
      Entries(q.scopes, q.now) <= q.executed
    case _ =>
      ReplyFits(q.scopes, q.now, q.vals, q.gets) && DecideFrom(q.scopes, 0, q.now, q.vals, q.gets).None? &&
      Entries(q.scopes, q.now) <= q.executed && (q.phase.Closed? ==> q.todo == []) &&
      AllCharges(q.executed[n..] + q.todo, q.scopes, q.now, clock)
  }

  ghost predicate Inv(s: State) {
    Ledger(s) && forall r :: 0 <= r < |s.requests| ==> Ok(s.requests[r], s.clock, s.stats)
  }

  lemma {:induction false} MetricEntriesAreCharges(sc: Scope, m: Metric, amount: int, now: int, scopes: seq<Scope>, from: int, clock: int)
    requires from <= now <= clock && amount >= 0
    requires sc.kind == MODEL_KIND || (m in {TokIn, TokOut, Cost} && sc in scopes)
    ensures AllCharges(MetricEntries(sc.kind, sc.id, m, amount, now), scopes, from, clock)
  {
    forall w: Window ensures Bucket(from, w) <= Bucket(now, w) <= Bucket(clock, w) {
      BucketMonotone(from, now, w);
      BucketMonotone(now, clock, w);
    }
  }

  lemma ScopeChargesAreCharges(sc: Scope, now: int, u: Usage, cost: int, scopes: seq<Scope>, from: int, clock: int)
    requires from <= now <= clock && u.prompt >= 0 && u.completion >= 0 && cost >= 0
    requires sc.kind == MODEL_KIND || sc in scopes
    ensures AllCharges(ScopeCharges(sc, now, u, cost), scopes, from, clock)
  {
    if sc.kind == MODEL_KIND { MetricEntriesAreCharges(sc, Req, 1, now, scopes, from, clock); }
    MetricEntriesAreCharges(sc, TokIn, u.prompt, now, scopes, from, clock);
    MetricEntriesAreCharges(sc, TokOut, u.completion, now, scopes, from, clock);
    MetricEntriesAreCharges(sc, Cost, cost, now, scopes, from, clock);
  }

  lemma {:induction false} ChargesAreCharges(charged: seq<Scope>, now: int, u: Usage, cost: int, scopes: seq<Scope>, from: int, clock: int)
    requires from <= now <= clock && u.prompt >= 0 && u.completion >= 0 && cost >= 0
    requires forall i :: 0 <= i < |charged| ==> charged[i].kind == MODEL_KIND || charged[i] in scopes
    ensures AllCharges(ChargesOf(charged, now, u, cost), scopes, from, clock)
  {
    if charged != [] {
      var n := |charged| - 1;
      ChargesAreCharges(charged[..n], now, u, cost, scopes, from, clock);
      ScopeChargesAreCharges(charged[n], now, u, cost, scopes, from, clock);
    }
  }

  lemma AccountBatchCharges(q: Request, clock: int, u: Usage, cost: int, model: string)
    requires q.now <= clock
    ensures AllCharges(AccountBatch(WithModelScope(q.scopes, model), clock, u, cost), q.scopes, q.now, clock)
  {
    var charged := WithModelScope(q.scopes, model);
    assert forall i :: 0 <= i < |charged| ==> charged[i].kind == MODEL_KIND || charged[i] in q.scopes;
    ChargesAreCharges(charged, clock,
                      Usage(Plausible(u.prompt, MAX_TOKENS), Plausible(u.completion, MAX_TOKENS)),
                      Plausible(cost, MAX_COST), q.scopes, q.now, clock);
  }

  lemma LaterClockOk(q: Request, clock: int, later: int, stats: bool)
    requires Ok(q, clock, stats) && clock <= later
    ensures Ok(q, later, stats)
  {
    if q.phase.Admitted? || q.phase.Closed? {
      var es := q.executed[3 * |q.scopes|..] + q.todo;
      forall j | 0 <= j < |es| ensures IsCharge(es[j], q.scopes, q.now, later) {
        BucketMonotone(clock, later, es[j].key.window);
      }
    }
  }

  lemma ExecCommandOk(q: Request, c: Counters, clock: int, stats: bool, reply: int)
    requires Ok(q, clock, stats) && q.todo != []
    ensures Ok(StepRequest(q, c, stats, reply).0, clock, stats)
  {
    var q' := StepRequest(q, c, stats, reply).0;
    assert q'.executed + q'.todo == q.executed + q.todo;
    if q.phase.Admitted? || q.phase.Closed? {
      var n := 3 * |q.scopes|;
      assert q'.executed[n..] + q'.todo == q.executed[n..] + q.todo;
    }
  }

  lemma DecisionOk(q: Request, c: Counters, clock: int, stats: bool, reply: int)
    requires Ok(q, clock, stats) && q.phase.Reading? && |q.gets| == |PlanKeys(q)|
    ensures Ok(StepRequest(q, c, stats, reply).0, clock, stats)
  {
    var q' := StepRequest(q, c, stats, reply).0;
    assert q.executed[3 * |q.scopes|..] + q.todo == [];
    assert q'.executed + q'.todo == Entries(q.scopes, q.now) + q'.todo;
  }

  lemma StepRequestOk(q: Request, c: Counters, clock: int, stats: bool, reply: int)
    requires Ok(q, clock, stats)
    ensures Ok(StepRequest(q, c, stats, reply).0, clock, stats)
  {
    if q.todo != [] {
      ExecCommandOk(q, c, clock, stats, reply);
    } else if q.phase.Counting? {
      assert q.executed + q.todo == q.executed;
    } else if q.phase.Reading? && |q.gets| == |PlanKeys(q)| {
      DecisionOk(q, c, clock, stats, reply);
    }
  }

  /** A step of one request moves each counter by exactly what that request adds to its own record. */
  lemma StepRequestLedger(q: Request, c: Counters, stats: bool, reply: int, k: CounterKey)
    ensures var (q', c') := StepRequest(q, c, stats, reply);
            Value(c', k) - Value(c, k) == Net(q'.executed, k) - Net(q.executed, k)
  {
    if q.todo != [] { SumAppend(q.executed, q.todo[0], DeltaOn(k)); }
  }

  lemma ReplaceRequest(s: State, r: nat, q: Request, c: Counters)
    requires Ledger(s) && r < |s.requests|
    requires forall k: CounterKey :: Value(c, k) - Value(s.counters, k) == Net(q.executed, k) - Net(s.requests[r].executed, k)
    ensures Ledger(s.(requests := s.requests[r := q], counters := c))
  {
    forall k: CounterKey ensures Value(c, k) == SumOf(s.requests[r := q], NetOn(k)) {
      SumUpdate(s.requests, r, q, NetOn(k));
    }
  }

  lemma ExecInv(s: State, r: nat, reply: int)
    requires Inv(s) && r < |s.requests|
    ensures Inv(Step(s, Exec(r, reply)))
  {
    var (q, c) := StepRequest(s.requests[r], s.counters, s.stats, reply);
    StepRequestOk(s.requests[r], s.counters, s.clock, s.stats, reply);
    forall k: CounterKey
      ensures Value(c, k) - Value(s.counters, k) == Net(q.executed, k) - Net(s.requests[r].executed, k)
    {
      StepRequestLedger(s.requests[r], s.counters, s.stats, reply, k);
    }
    ReplaceRequest(s, r, q, c);
    var s' := Step(s, Exec(r, reply));
    forall i | 0 <= i < |s'.requests| ensures Ok(s'.requests[i], s'.clock, s'.stats) {
      if i != r { assert s'.requests[i] == s.requests[i]; }
    }
  }

  lemma StartInv(s: State, scopes: seq<Scope>)
    requires Inv(s) && WellFormedScopes(scopes)
    ensures Inv(Step(s, Start(scopes)))
  {
    var q := Request(scopes, s.clock, Counting, [], Entries(scopes, s.clock), [], [], 0);
    assert [] + q.todo == q.todo;
    forall k: CounterKey ensures Value(s.counters, k) == SumOf(s.requests + [q], NetOn(k)) {
      SumAppend(s.requests, q, NetOn(k));
    }
  }

  lemma AccountInv(s: State, r: nat, u: Usage, cost: int, model: string)
    requires Inv(s) && r < |s.requests| && s.requests[r].phase.Admitted? && s.requests[r].todo == []
    ensures Inv(Step(s, Account(r, u, cost, model)))
  {
    var q := s.requests[r];
    var q' := Step(s, Account(r, u, cost, model)).requests[r];
    AccountBatchCharges(q, s.clock, u, cost, model);
    var n := 3 * |q.scopes|;
    assert q.executed[n..] + q.todo == q.executed[n..];
    ReplaceRequest(s, r, q', s.counters);
  }

  lemma TickInv(s: State, to: int)
    requires Inv(s) && to >= s.clock
    ensures Inv(s.(clock := to))
  {
    forall r | 0 <= r < |s.requests| ensures Ok(s.requests[r], to, s.stats) {
      LaterClockOk(s.requests[r], s.clock, to, s.stats);
    }
  }

  lemma CloseInv(s: State, r: nat)
    requires Inv(s) && r < |s.requests| && s.requests[r].phase.Admitted? && s.requests[r].todo == []
    ensures Inv(Step(s, Close(r)))
  {
    var q, s' := s.requests[r], Step(s, Close(r));
    assert Ok(q.(phase := Closed), s.clock, s.stats);
    ReplaceRequest(s, r, q.(phase := Closed), s.counters);
    forall i | 0 <= i < |s'.requests| ensures Ok(s'.requests[i], s'.clock, s'.stats) {
      if i != r { assert s'.requests[i] == s.requests[i]; }
    }
  }

  lemma StepInv(s: State, a: Action)
    requires Inv(s)
    ensures Inv(Step(s, a))
  {
    match a
    case Tick(to) => if to >= s.clock { TickInv(s, to); }
    case Start(scopes) => if WellFormedScopes(scopes) { StartInv(s, scopes); }
    case Exec(r, reply) => if r < |s.requests| { ExecInv(s, r, reply); }
    case Account(r, u, cost, model) =>
      if r < |s.requests| && s.requests[r].phase.Admitted? && s.requests[r].todo == [] {
        AccountInv(s, r, u, cost, model);
      }
    case Close(r) =>
      if r < |s.requests| && s.requests[r].phase.Admitted? && s.requests[r].todo == [] {
        CloseInv(s, r);
      }
  }

  /** Every reachable state satisfies the invariant. */
  lemma {:induction false} RunInv(clock: int, stats: bool, actions: seq<Action>)
    ensures Inv(Run(Initial(clock, stats), actions))
  {
    if actions != [] {
      RunInv(clock, stats, actions[..|actions| - 1]);
      StepInv(Run(Initial(clock, stats), actions[..|actions| - 1]), actions[|actions| - 1]);
    }
  }

  // ---------------------------------------------------------------- no request is in debt

  /** A settlement only takes back request counts and only adds rejections. */
  lemma {:induction false} CompensationSigns(scopes: seq<Scope>, now: int, violator: nat, n: nat)
    requires n <= |scopes|
    ensures forall j :: 0 <= j < |Compensations(scopes, now, violator, n)| ==>
              Compensations(scopes, now, violator, n)[j].key.metric == Req &&
              Compensations(scopes, now, violator, n)[j].delta == -1
  {
    if n > 0 { CompensationSigns(scopes, now, violator, n - 1); }
  }

  lemma SettleSigns(scopes: seq<Scope>, now: int, violator: nat, stats: bool)
    requires violator < |scopes|
    ensures forall j :: 0 <= j < |SettleBatch(scopes, now, violator, stats)| ==>
              var e := SettleBatch(scopes, now, violator, stats)[j];
              if e.key.metric == Req then e.delta == -1 else e.key.metric == Rej && e.delta == 1
  {
    CompensationSigns(scopes, now, violator, |scopes|);
  }

  lemma {:induction false} EntriesSigns(scopes: seq<Scope>, now: int)
    ensures forall j :: 0 <= j < |Entries(scopes, now)| ==>
              Entries(scopes, now)[j].delta == 1 && Entries(scopes, now)[j].key.metric == Req
  {
    if scopes != [] { EntriesSigns(scopes[..|scopes| - 1], now); }
  }

  /** On a request counter a refused request still owes only compensations, so it stands at or above its final net. */
  lemma RefusedRequestCount(q: Request, clock: int, stats: bool, k: CounterKey)
    requires Ok(q, clock, stats) && q.phase.Refused? && k.metric == Req
    ensures Net(q.executed, k) >= 0
  {
    var f, violator := DeltaOn(k), q.phase.violator;
    var es, settle := Entries(q.scopes, q.now), SettleBatch(q.scopes, q.now, violator, stats);
    SettleSigns(q.scopes, q.now, violator, stats);
    forall j | 0 <= j < |q.todo| ensures f(q.todo[j]) <= 0 {
      assert q.todo[j] == (es + settle)[|q.executed| + j];
    }
    SumZeroOrLess(q.todo, f);
    SumConcat(q.executed, q.todo, f);
    NetOfRefusal(q.scopes, q.now, violator, stats, k);
  }

  /** On any other counter it has only ever added. */
  lemma RefusedElsewhere(q: Request, clock: int, stats: bool, k: CounterKey)
    requires Ok(q, clock, stats) && q.phase.Refused? && k.metric != Req
    ensures Net(q.executed, k) >= 0
  {
    var f, violator := DeltaOn(k), q.phase.violator;
    var es, settle := Entries(q.scopes, q.now), SettleBatch(q.scopes, q.now, violator, stats);
    EntriesSigns(q.scopes, q.now);
    SettleSigns(q.scopes, q.now, violator, stats);
    forall j | 0 <= j < |q.executed| ensures f(q.executed[j]) >= 0 {
      assert q.executed[j] == (es + settle)[j];
    }
    SumNonNegative(q.executed, f);
  }

  /** A request that is not refused has only ever added. */
  lemma OnlyAdds(q: Request, clock: int, stats: bool)
    requires Ok(q, clock, stats) && !q.phase.Refused?
    ensures forall j :: 0 <= j < |q.executed| ==> q.executed[j].delta >= 0
  {
    var es := Entries(q.scopes, q.now);
    EntriesSigns(q.scopes, q.now);
    if q.phase.Counting? {
      assert forall j :: 0 <= j < |q.executed| ==> q.executed[j] == (q.executed + q.todo)[j];
    } else if q.phase.Admitted? || q.phase.Closed? {
      var n := 3 * |q.scopes|;
      var tail := q.executed[n..] + q.todo;
      forall j | 0 <= j < |q.executed| ensures q.executed[j].delta >= 0 {
        if j < n { assert q.executed[j] == es[j]; } else { assert q.executed[j] == tail[j - n]; }
      }
    }
  }

  /** At every moment each request's net contribution to each counter is at least zero. */
  lemma NetNonNegative(q: Request, clock: int, stats: bool, k: CounterKey)
    requires Ok(q, clock, stats)
    ensures Net(q.executed, k) >= 0
  {
    if q.phase.Refused? {
      if k.metric == Req { RefusedRequestCount(q, clock, stats, k); } else { RefusedElsewhere(q, clock, stats, k); }
    } else {
      OnlyAdds(q, clock, stats);
      SumNonNegative(q.executed, DeltaOn(k));
    }
  }

  lemma {:induction false} SumZeroOrLess(es: seq<Incr>, f: Incr -> int)
    requires forall j :: 0 <= j < |es| ==> f(es[j]) <= 0
    ensures SumOf(es, f) <= 0
  {
    if es != [] {
      var init := es[..|es| - 1];
      assert forall j :: 0 <= j < |init| ==> init[j] == es[j];
      SumZeroOrLess(init, f);
    }
  }
}
