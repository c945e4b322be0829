/**
 The step protocol and the limiter agree: a request whose steps are not interleaved with any other,
 and whose answers are the truth, reaches exactly the verdict and the counters that the limiter's `CheckAndCount` promises. So what is
 proved of every interleaving is proved of the same operation.
 */
module Sequential {
  import opened Common
  import opened Keys
  import opened Admission
  import opened Protocol
  import opened LimiterModel

  /** A request and the counters it works on. */
  datatype Config = Config(request: Request, counters: Counters)

  function Next(x: Config, stats: bool): Config {
    var (q, c) := StepRequest(x.request, x.counters, stats, TrueReply(x.request, x.counters));
    Config(q, c)
  }

  ghost predicate Linked(trace: seq<Config>, i: nat, stats: bool)
    requires i + 1 < |trace|
  {
    trace[i + 1] == Next(trace[i], stats)
  }

  /** `trace` leads from `x` to `y` by steps of this request alone. */
  ghost predicate Leads(trace: seq<Config>, x: Config, y: Config, stats: bool) {
    |trace| >= 1 && trace[0] == x && trace[|trace| - 1] == y &&
    forall i :: 0 <= i < |trace| - 1 ==> Linked(trace, i, stats)
  }

  lemma Extend(trace: seq<Config>, x: Config, y: Config, z: Config, stats: bool)
    requires Leads(trace, x, y, stats) && z == Next(y, stats)
    ensures Leads(trace + [z], x, z, stats)
  {
    var more := trace + [z];
    forall i | 0 <= i < |more| - 1 ensures Linked(more, i, stats) {
      if i < |trace| - 1 { assert Linked(trace, i, stats); }
    }
  }

  lemma Chain(s: seq<Config>, t: seq<Config>, x: Config, y: Config, z: Config, stats: bool)
    requires Leads(s, x, y, stats) && Leads(t, y, z, stats)
    ensures Leads(s + t[1..], x, z, stats)
  {
    var both := s + t[1..];
    forall i | 0 <= i < |both| - 1 ensures Linked(both, i, stats) {
      if i < |s| - 1 {
        assert Linked(s, i, stats);
      } else {
        assert Linked(t, i - (|s| - 1), stats);
      }
    }
  }

  /** What the first `n` commands of a batch reply. */
  function Replies(c: Counters, es: seq<Incr>, n: nat): (vals: seq<int>)
    requires n <= |es|
    ensures |vals| == n && forall j :: 0 <= j < n ==> vals[j] == Value(ApplyAll(c, es[..j + 1]), es[j].key)
  {
    seq(n, j requires 0 <= j < n => Value(ApplyAll(c, es[..j + 1]), es[j].key))
  }

  /** The request once `n` of its pending commands went out; replies are kept while counting. */
  function Sent(q: Request, c: Counters, n: nat): Request
    requires n <= |q.todo|
  {
    q.(executed := q.executed + q.todo[..n], todo := q.todo[n..],
       vals := if q.phase.Counting? then q.vals + Replies(c, q.todo, n) else q.vals)
  }

  lemma {:induction false} SentStep(q: Request, c: Counters, stats: bool, n: nat)
    requires n < |q.todo|
    ensures Next(Config(Sent(q, c, n), ApplyAll(c, q.todo[..n])), stats) == Config(Sent(q, c, n + 1), ApplyAll(c, q.todo[..n + 1]))
  {
    var e, more := q.todo[n], q.todo[..n + 1];
    assert more[..n] == q.todo[..n];
    assert ApplyAll(c, more) == Apply(ApplyAll(c, q.todo[..n]), e);
    assert q.executed + q.todo[..n] + [e] == q.executed + more;
    assert Replies(c, q.todo, n) + [Value(ApplyAll(c, more), e.key)] == Replies(c, q.todo, n + 1);
    assert q.vals + Replies(c, q.todo, n) + [Value(ApplyAll(c, more), e.key)] == q.vals + Replies(c, q.todo, n + 1);
  }

  /** Uninterrupted sending applies the commands in order. */
  lemma {:induction false} SendSome(q: Request, c: Counters, stats: bool, n: nat) returns (trace: seq<Config>)
    requires n <= |q.todo|
    ensures Leads(trace, Config(q, c), Config(Sent(q, c, n), ApplyAll(c, q.todo[..n])), stats)
    decreases n
  {
    var x, y := Config(q, c), Config(Sent(q, c, n), ApplyAll(c, q.todo[..n]));
    if n > 0 {
      var before := SendSome(q, c, stats, n - 1);
      SentStep(q, c, stats, n - 1);
      Extend(before, x, Config(Sent(q, c, n - 1), ApplyAll(c, q.todo[..n - 1])), y, stats);
      trace := before + [y];
    } else {
      assert q.vals + Replies(c, q.todo, 0) == q.vals && q.executed + q.todo[..0] == q.executed && q.todo[0..] == q.todo;
      assert Sent(q, c, 0) == q;
      trace := [x];
    }
  }

  lemma SendAll(q: Request, c: Counters, stats: bool) returns (trace: seq<Config>)
    ensures Leads(trace, Config(q, c), Config(Sent(q, c, |q.todo|), ApplyAll(c, q.todo)), stats)
  {
    trace := SendSome(q, c, stats, |q.todo|);
    assert q.todo[..|q.todo|] == q.todo;
  }

  function Readings(c: Counters, keys: seq<CounterKey>, n: nat): (vals: seq<int>)
    requires n <= |keys|
    ensures |vals| == n && forall j :: 0 <= j < n ==> vals[j] == Value(c, keys[j])
  {
    seq(n, j requires 0 <= j < n => Value(c, keys[j]))
  }

  /** Reading the plan changes no counter and answers every planned read from the counters. */
  lemma {:induction false} ReadSome(q: Request, c: Counters, stats: bool, n: nat) returns (trace: seq<Config>)
    requires q.phase.Reading? && q.todo == [] && q.gets == [] && n <= |PlanKeys(q)|
    ensures Leads(trace, Config(q, c), Config(q.(gets := Readings(c, PlanKeys(q), n)), c), stats)
    decreases n
  {
    trace := [Config(q, c)];
    if n > 0 {
      var before, gets := Readings(c, PlanKeys(q), n - 1), Readings(c, PlanKeys(q), n);
      assert before + [Value(c, PlanKeys(q)[n - 1])] == gets;
      trace := ReadSome(q, c, stats, n - 1);
      var y, z := Config(q.(gets := before), c), Config(q.(gets := gets), c);
      assert z == Next(y, stats);
      Extend(trace, Config(q, c), y, z, stats);
      trace := trace + [z];
    }
  }

  function Fresh(scopes: seq<Scope>, now: int): Request {
    Request(scopes, now, Counting, [], Entries(scopes, now), [], [], 0)
  }

  /** The request that has sent its increments and read nothing yet. */
  function Counted(scopes: seq<Scope>, now: int, c: Counters): Request {
    var es := Entries(scopes, now);
    Request(scopes, now, Reading, es, [], Replies(c, es, |es|), [], 0)
  }

  /** The request at its decision. */
  function Decided(scopes: seq<Scope>, now: int, c: Counters): Request {
    var es, keys := Entries(scopes, now), PlanOf(scopes, |scopes|, now).gets;
    Request(scopes, now, Reading, es, [], Replies(c, es, |es|), Readings(ApplyAll(c, es), keys, |keys|), 0)
  }

  /** The request after `q` sent everything while counting and turned to reading. */
  function Turned(q: Request, c: Counters): Request {
    q.(phase := Reading, executed := q.todo, todo := [], vals := Replies(c, q.todo, |q.todo|))
  }

  lemma TurnedIsSent(q: Request, c: Counters)
    requires q.phase.Counting? && q.executed == [] && q.vals == []
    ensures Turned(q, c) == Sent(q, c, |q.todo|).(phase := Reading) && Sent(q, c, |q.todo|).todo == []
  {
    var n := |q.todo|;
    assert q.executed + q.todo[..n] == q.todo;
    assert q.vals + Replies(c, q.todo, n) == Replies(c, q.todo, n);
  }

  lemma TurnStep(q: Request, c: Counters, stats: bool)
    requires q.phase.Counting? && q.todo == []
    ensures Next(Config(q, c), stats) == Config(q.(phase := Reading), c)
  {
  }

  /** Sending everything while counting, and the turn to reading. */
  lemma CountThenRead(q: Request, c: Counters, stats: bool) returns (trace: seq<Config>)
    requires q.phase.Counting? && q.executed == [] && q.vals == []
    ensures Leads(trace, Config(q, c), Config(Turned(q, c), ApplyAll(c, q.todo)), stats)
  {
    var q1, c1 := Sent(q, c, |q.todo|), ApplyAll(c, q.todo);
    var sent := SendAll(q, c, stats);
    TurnedIsSent(q, c);
    TurnStep(q1, c1, stats);
    Extend(sent, Config(q, c), Config(q1, c1), Config(Turned(q, c), c1), stats);
    trace := sent + [Config(Turned(q, c), c1)];
  }

  lemma AloneReads(scopes: seq<Scope>, now: int, c: Counters, stats: bool) returns (trace: seq<Config>)
    ensures Leads(trace, Config(Fresh(scopes, now), c), Config(Decided(scopes, now, c), ApplyAll(c, Entries(scopes, now))), stats)
  {
    var q, c1 := Counted(scopes, now, c), ApplyAll(c, Entries(scopes, now));
    var counting := CountThenRead(Fresh(scopes, now), c, stats);
    var reading := ReadSome(q, c1, stats, |PlanKeys(q)|);
    Chain(counting, reading, Config(Fresh(scopes, now), c), Config(q, c1), Config(Decided(scopes, now, c), c1), stats);
    trace := counting + reading[1..];
  }

  lemma {:induction false} DecidedIsNaive(scopes: seq<Scope>, now: int, c: Counters)
    requires DistinctScopes(scopes)
    ensures var q := Decided(scopes, now, c);
            ReplyFits(scopes, now, q.vals, q.gets) &&
            DecideFrom(scopes, 0, now, q.vals, q.gets) == NaiveViolation(ApplyAll(c, Entries(scopes, now)), scopes, now)
  {
    var q, counted := Decided(scopes, now, c), ApplyAll(c, Entries(scopes, now));
    forall j | 0 <= j < |q.vals| ensures q.vals[j] == Value(counted, Entries(scopes, now)[j].key) {
      ReplyIsFinal(c, scopes, now, j);
    }
    FusedIsNaive(counted, scopes, 0, now, q.vals, q.gets);
  }

  /** A request decided as `v`, with its settlement still to send if it was refused. */
  function Verdict(q: Request, v: Option<Violation>, stats: bool): Request {
    if v.None? then q.(phase := Admitted)
    else if v.value.Limit? && v.value.scopeIdx < |q.scopes| then
      q.(phase := Refused(v.value.scopeIdx), todo := SettleBatch(q.scopes, q.now, v.value.scopeIdx, stats))
    else q
  }

  lemma Decides(q: Request, c: Counters, v: Option<Violation>, stats: bool)
    requires q.phase.Reading? && q.todo == [] && ReplyFits(q.scopes, q.now, q.vals, q.gets)
    requires v == DecideFrom(q.scopes, 0, q.now, q.vals, q.gets)
    ensures Next(Config(q, c), stats) == Config(Verdict(q, v, stats), c)
  {
  }

  /** A request has been decided as `v` says and has nothing left to send. */
  predicate Settled(q: Request, v: Option<Violation>) {
    q.todo == [] &&
    if v.None? then q.phase == Admitted else v.value.Limit? && q.phase == Refused(v.value.scopeIdx)
  }

  /** From the decision on: the verdict and its settlement. */
  lemma Settles(q: Request, c: Counters, v: Option<Violation>, stats: bool) returns (trace: seq<Config>, end: Request)
    requires q.todo == [] && (v.Some? ==> v.value.Limit? && v.value.scopeIdx < |q.scopes|)
    ensures Leads(trace, Config(Verdict(q, v, stats), c), Config(end, AfterVerdict(c, v, q.scopes, q.now, stats, Whole)), stats)
    ensures Settled(end, v)
  {
    var decided := Verdict(q, v, stats);
    trace := SendAll(decided, c, stats);
    end := Sent(decided, c, |decided.todo|);
    assert end.todo == [];
  }

  lemma AloneCall(scopes: seq<Scope>, now: int, c: Counters, stats: bool) returns (trace: seq<Config>, end: Request)
    requires DistinctScopes(scopes)
    ensures Leads(trace, Config(Fresh(scopes, now), c), Config(end, AfterCheck(c, scopes, now, stats, Whole)), stats)
    ensures Settled(end, NaiveViolation(ApplyAll(c, Entries(scopes, now)), scopes, now))
  {
    var q, counted := Decided(scopes, now, c), ApplyAll(c, Entries(scopes, now));
    var v := NaiveViolation(counted, scopes, now);
    var x, z := Config(Fresh(scopes, now), c), Config(Verdict(q, v, stats), counted);
    var deciding := AloneReads(scopes, now, c, stats);
    DecidedIsNaive(scopes, now, c);
    Decides(q, counted, v, stats);
    Extend(deciding, x, Config(q, counted), z, stats);
    NaiveIsLimit(counted, scopes, 0, now);
    var settling;
    settling, end := Settles(q, counted, v, stats);
    Chain(deciding + [z], settling, x, z, Config(end, AfterVerdict(counted, v, scopes, now, stats, Whole)), stats);
    trace := deciding + [z] + settling[1..];
  }

  /** The steps of a trace as actions of request `r`, each answered with the truth. */
  function Actions(trace: seq<Config>, r: nat): (actions: seq<Action>)
    requires trace != []
    ensures |actions| == |trace| - 1
    ensures forall i :: 0 <= i < |actions| ==> actions[i] == Exec(r, TrueReply(trace[i].request, trace[i].counters))
  {
    seq(|trace| - 1, i requires 0 <= i < |trace| - 1 => Exec(r, TrueReply(trace[i].request, trace[i].counters)))
  }

  /** Every answer in a run from `s` is the truth. */
  ghost predicate AllTrue(s: State, actions: seq<Action>) {
    actions != [] ==>
      var before := actions[..|actions| - 1];
      AllTrue(s, before) && Truthful(Run(s, before), actions[|actions| - 1])
  }

  lemma LeadsInit(trace: seq<Config>, x: Config, y: Config, stats: bool)
    requires Leads(trace, x, y, stats) && |trace| > 1
    ensures Leads(trace[..|trace| - 1], x, trace[|trace| - 2], stats) && y == Next(trace[|trace| - 2], stats)
  {
    var init := trace[..|trace| - 1];
    forall i | 0 <= i < |init| - 1 ensures Linked(init, i, stats) { assert Linked(trace, i, stats); }
    assert Linked(trace, |trace| - 2, stats);
  }

  lemma {:induction false} OneMore(s: State, r: nat, before: seq<Action>, z: Config, y: Config)
    requires r < |s.requests| && y == Next(z, s.stats) && AllTrue(s, before)
    requires Run(s, before) == s.(requests := s.requests[r := z.request], counters := z.counters)
    ensures var all := before + [Exec(r, TrueReply(z.request, z.counters))];
            AllTrue(s, all) && Run(s, all) == s.(requests := s.requests[r := y.request], counters := y.counters)
  {
    var a := Exec(r, TrueReply(z.request, z.counters));
    var all := before + [a];
    assert all[..|all| - 1] == before && all[|all| - 1] == a;
    assert s.requests[r := z.request][r := y.request] == s.requests[r := y.request];
  }

  /** The uninterrupted steps of request `r` are a run of the protocol. */
  lemma {:induction false} AloneIsARun(s: State, r: nat, trace: seq<Config>, y: Config)
    requires r < |s.requests| && Leads(trace, Config(s.requests[r], s.counters), y, s.stats)
    ensures Run(s, Actions(trace, r)) == s.(requests := s.requests[r := y.request], counters := y.counters)
    ensures AllTrue(s, Actions(trace, r))
    decreases |trace|
  {
    if |trace| > 1 {
      var init, z := trace[..|trace| - 1], trace[|trace| - 2];
      LeadsInit(trace, Config(s.requests[r], s.counters), y, s.stats);
      AloneIsARun(s, r, init, z);
      ActionsSnoc(trace, r);
      OneMore(s, r, Actions(init, r), z, y);
    } else {
      assert Actions(trace, r) == [];
      assert s.requests[r := s.requests[r]] == s.requests;
    }
  }

  lemma {:induction false} ActionsSnoc(trace: seq<Config>, r: nat)
    requires |trace| > 1
    ensures var z := trace[|trace| - 2];
            Actions(trace, r) == Actions(trace[..|trace| - 1], r) + [Exec(r, TrueReply(z.request, z.counters))]
  {
  }

  /**
   A request that starts in any state and runs uninterrupted, answered with the truth, decides as the
   naive reader of the incremented counters would, leaves the counters where the limiter's admission
   call leaves them, and touches no other request.
   */
  lemma AloneIsCheckAndCount(s: State, scopes: seq<Scope>) returns (actions: seq<Action>, q: Request)
    requires WellFormedScopes(scopes)
    ensures forall i :: 0 <= i < |actions| ==> actions[i].Exec? && actions[i].r == |s.requests|
    ensures AllTrue(Step(s, Start(scopes)), actions)
    ensures Run(Step(s, Start(scopes)), actions) ==
            s.(requests := s.requests + [q], counters := AfterCheck(s.counters, scopes, s.clock, s.stats, Whole))
    ensures Settled(q, NaiveViolation(ApplyAll(s.counters, Entries(scopes, s.clock)), scopes, s.clock))
  {
    var started, r := Step(s, Start(scopes)), |s.requests|;
    var trace, end := AloneCall(scopes, s.clock, s.counters, s.stats);
    actions, q := Actions(trace, r), end;
    AloneIsARun(started, r, trace, Config(q, AfterCheck(s.counters, scopes, s.clock, s.stats, Whole)));
    assert started.requests[r := q] == s.requests + [q];
  }
}
