/**
 A request-rate limit is never exceeded: under every interleaving of store commands, at most `L`
 requests are admitted per bucket by a scope whose limit is `L`.

 The argument counts the requests that incremented the counter, saw a value of at most `L`, and were
 not refused. A new one sees at least one more than all of them together, because refusals only ever
 take back their own increment.
 */
module RateBound {
  import opened Common
  import opened Calendar
  import opened Keys
  import opened Admission
  import opened Protocol

  /** A request limit on one scope in one bucket. */
  datatype Rate = Rate(kind: string, id: string, rule: Rule, bucket: int)

  ghost predicate IsRate(l: Rate) { l.rule in REQUEST_RULES && l.kind != MODEL_KIND }

  /** The counter the limit is about: requests of the minute or of the day. */
  function RateKey(l: Rate): CounterKey {
    CounterKey(l.kind, l.id, Req, if l.rule == RequestsPerMinute then Min else Day, l.bucket)
  }

  /** Where scope `i`'s reply for the rule sits in the flat reply. */
  function Slot(l: Rate, i: nat): nat { 3 * i + if l.rule == RequestsPerMinute then 0 else 1 }

  predicate ScopeAt(q: Request, l: Rate, i: int) {
    0 <= i < |q.scopes| && q.scopes[i].kind == l.kind && q.scopes[i].id == l.id
  }

  predicate InBucket(q: Request, l: Rate) { Bucket(q.now, RuleWindow(l.rule)) == l.bucket }

  /** It incremented the counter, saw at most `max`, and was not refused. */
  ghost predicate Passing(q: Request, l: Rate, max: int) {
    InBucket(q, l) && !q.phase.Refused? &&
    exists i :: ScopeAt(q, l, i) && Slot(l, i) < |q.vals| && q.vals[Slot(l, i)] <= max
  }

  ghost function PassingUnder(l: Rate, max: int): Request -> bool { (q: Request) => Passing(q, l, max) }

  ghost predicate IsAdmitted(q: Request, l: Rate) {
    InBucket(q, l) && (q.phase.Admitted? || q.phase.Closed?) && exists i :: ScopeAt(q, l, i)
  }

  ghost function AdmittedBy(l: Rate): Request -> bool { (q: Request) => IsAdmitted(q, l) }

  /** The scope's requests-per-minute or requests-per-day field is set, to at most `max`. */
  predicate FieldWithin(limits: Option<Limits>, rule: Rule, max: int) {
    limits.Some? &&
    if rule == RequestsPerMinute then 0 < limits.value.requestsPerMinute <= max else 0 < limits.value.requestsPerDay <= max
  }

  /** Every request naming the scope carries the limit, at most `max`; reloads may have changed it. */
  ghost predicate LimitedBy(s: State, l: Rate, max: int) {
    forall r, i :: 0 <= r < |s.requests| && ScopeAt(s.requests[r], l, i) ==> FieldWithin(s.requests[r].scopes[i].limits, l.rule, max)
  }

  lemma {:induction false} SlotEntry(scopes: seq<Scope>, now: int, l: Rate, i: nat)
    requires IsRate(l) && i < |scopes|
    ensures Slot(l, i) < 3 * |scopes|
    ensures Entries(scopes, now)[Slot(l, i)] ==
            Command(Counter(scopes[i].kind, scopes[i].id, Req, RuleWindow(l.rule), now), 1)
  {
    EntriesAt(scopes, now, i);
    var es := Entries(scopes, now);
    assert es[Slot(l, i)] == es[3 * i..3 * i + 3][Slot(l, i) - 3 * i];
  }

  /** A passing request still holds its increment. */
  lemma PassingHolds(q: Request, clock: int, stats: bool, l: Rate, max: int)
    requires Ok(q, clock, stats) && IsRate(l) && Passing(q, l, max)
    ensures Net(q.executed, RateKey(l)) >= 1
  {
    var i :| ScopeAt(q, l, i) && Slot(l, i) < |q.vals| && q.vals[Slot(l, i)] <= max;
    var f, es, p := DeltaOn(RateKey(l)), Entries(q.scopes, q.now), Slot(l, i);
    SlotEntry(q.scopes, q.now, l, i);
    EntriesSigns(q.scopes, q.now);
    var n := 3 * |q.scopes|;
    forall j | 0 <= j < |q.executed| ensures f(q.executed[j]) >= 0 && (j < n ==> q.executed[j] == es[j]) {
      if q.phase.Counting? {
        assert q.executed[j] == (q.executed + q.todo)[j];
      } else if j < n {
        assert q.executed[j] == es[j];
      } else {
        assert q.executed[j] == (q.executed[n..] + q.todo)[j - n];
      }
    }
    SumNonNegative(q.executed, f);
    assert f(q.executed[p]) == 1;
  }

  /** The counter is at least the number of passing requests. */
  lemma CounterCoversPassing(s: State, l: Rate, max: int)
    requires Inv(s) && IsRate(l)
    ensures CountOf(s.requests, PassingUnder(l, max)) <= Value(s.counters, RateKey(l))
  {
    var k := RateKey(l);
    forall r | 0 <= r < |s.requests|
      ensures NetOn(k)(s.requests[r]) >= 0
      ensures Passing(s.requests[r], l, max) ==> NetOn(k)(s.requests[r]) >= 1
    {
      var q := s.requests[r];
      NetNonNegative(q, s.clock, s.stats, k);
      if Passing(q, l, max) { PassingHolds(q, s.clock, s.stats, l, max); }
    }
    CountBelowSum(s.requests, PassingUnder(l, max), NetOn(k));
  }

  /** A request starts passing only by seeing, on its own increment, a value of at most `max`. */
  lemma NewlyPassing(q: Request, c: Counters, clock: int, stats: bool, reply: int, l: Rate, max: int)
    requires Ok(q, clock, stats) && IsRate(l)
    requires AsksFor(q) == Some(RateKey(l)) ==> reply == TrueReply(q, c)
    requires !Passing(q, l, max) && Passing(StepRequest(q, c, stats, reply).0, l, max)
    ensures Value(c, RateKey(l)) + 1 <= max
  {
    var (q', c') := StepRequest(q, c, stats, reply);
    var i :| ScopeAt(q', l, i) && Slot(l, i) < |q'.vals| && q'.vals[Slot(l, i)] <= max;
    SlotEntry(q.scopes, q.now, l, i);
    assert q.vals <= q'.vals;
    assert Slot(l, i) == |q.vals|;
    assert q.todo[0] == (q.executed + q.todo)[|q.executed|];
  }

  lemma ExecKeepsRate(s: State, r: nat, reply: int, l: Rate, max: int)
    requires Inv(s) && IsRate(l) && max >= 0 && r < |s.requests| && TruthfulOn(s, Exec(r, reply), RateKey(l))
    requires CountOf(s.requests, PassingUnder(l, max)) <= max
    ensures CountOf(Step(s, Exec(r, reply)).requests, PassingUnder(l, max)) <= max
  {
    var p, q := PassingUnder(l, max), s.requests[r];
    var q' := StepRequest(q, s.counters, s.stats, reply).0;
    CountUpdate(s.requests, r, q', p);
    if !p(q) && p(q') {
      NewlyPassing(q, s.counters, s.clock, s.stats, reply, l, max);
      CounterCoversPassing(s, l, max);
    }
  }

  lemma {:induction false} NewcomerNotPassing(qs: seq<Request>, q: Request, l: Rate, max: int)
    requires q.vals == []
    ensures CountOf(qs + [q], PassingUnder(l, max)) == CountOf(qs, PassingUnder(l, max))
  {
    CountAppend(qs, q, PassingUnder(l, max));
  }

  lemma StepKeepsRate(s: State, a: Action, l: Rate, max: int)
    requires Inv(s) && IsRate(l) && max >= 0 && TruthfulOn(s, a, RateKey(l))
    requires CountOf(s.requests, PassingUnder(l, max)) <= max
    ensures CountOf(Step(s, a).requests, PassingUnder(l, max)) <= max
  {
    match a
    case Tick(to) =>
    case Start(scopes) => if WellFormedScopes(scopes) { NewcomerNotPassing(s.requests, Step(s, a).requests[|s.requests|], l, max); }
    case Exec(r, reply) => if r < |s.requests| { ExecKeepsRate(s, r, reply, l, max); }
    case Account(r, u, cost, model) => if Step(s, a) != s { QuietKeepsRate(s.requests, r, Step(s, a).requests[r], l, max); }
    case Close(r) => if Step(s, a) != s { QuietKeepsRate(s.requests, r, Step(s, a).requests[r], l, max); }
  }

  /** Reporting usage and closing read no counter and take nothing back. */
  lemma QuietKeepsRate(qs: seq<Request>, r: nat, q': Request, l: Rate, max: int)
    requires r < |qs| && q'.scopes == qs[r].scopes && q'.now == qs[r].now && q'.vals == qs[r].vals
    requires !q'.phase.Refused? && !qs[r].phase.Refused?
    ensures CountOf(qs[r := q'], PassingUnder(l, max)) == CountOf(qs, PassingUnder(l, max))
  {
    CountUpdate(qs, r, q', PassingUnder(l, max));
    if Passing(q', l, max) { SamePassing(q', qs[r], l, max); }
    if Passing(qs[r], l, max) { SamePassing(qs[r], q', l, max); }
  }

  lemma SamePassing(q: Request, q': Request, l: Rate, max: int)
    requires q'.scopes == q.scopes && q'.now == q.now && q'.vals == q.vals && !q'.phase.Refused?
    requires Passing(q, l, max)
    ensures Passing(q', l, max)
  {
    var i :| ScopeAt(q, l, i) && Slot(l, i) < |q.vals| && q.vals[Slot(l, i)] <= max;
    assert ScopeAt(q', l, i);
  }

  lemma {:induction false} RunKeepsRate(clock: int, stats: bool, actions: seq<Action>, l: Rate, max: int)
    requires IsRate(l) && max >= 0 && Honest(clock, stats, actions, RateKey(l))
    ensures CountOf(Run(Initial(clock, stats), actions).requests, PassingUnder(l, max)) <= max
  {
    if actions != [] {
      var before := actions[..|actions| - 1];
      RunKeepsRate(clock, stats, before, l, max);
      RunInv(clock, stats, before);
      StepKeepsRate(Run(Initial(clock, stats), before), actions[|actions| - 1], l, max);
    }
  }

  /** An admitted request saw a value within its own scope's limit. */
  lemma AdmittedIsPassing(q: Request, clock: int, stats: bool, l: Rate, max: int, i: int)
    requires Ok(q, clock, stats) && IsRate(l) && IsAdmitted(q, l) && ScopeAt(q, l, i)
    requires FieldWithin(q.scopes[i].limits, l.rule, max)
    ensures Passing(q, l, max)
  {
    AdmittedPasses(q.scopes, 0, q.now, q.vals, q.gets, i);
    assert Slot(l, i) < |q.vals|;
  }

  /**
   Whatever the interleaving, however late settlements land, and across bucket rollovers: a scope
   whose requests-per-minute or requests-per-day limit never exceeds `max` has at most `max` admitted
   requests in any one bucket, if the backend tells the truth about that one counter.
   */
  lemma {:induction false} AdmittedAtMostLimit(clock: int, stats: bool, actions: seq<Action>, l: Rate, max: int)
    requires IsRate(l) && max >= 0 && Honest(clock, stats, actions, RateKey(l))
    requires LimitedBy(Run(Initial(clock, stats), actions), l, max)
    ensures CountOf(Run(Initial(clock, stats), actions).requests, AdmittedBy(l)) <= max
  {
    var s := Run(Initial(clock, stats), actions);
    RunInv(clock, stats, actions);
    RunKeepsRate(clock, stats, actions, l, max);
    forall r | 0 <= r < |s.requests| && AdmittedBy(l)(s.requests[r]) ensures PassingUnder(l, max)(s.requests[r]) {
      var q := s.requests[r];
      var i :| ScopeAt(q, l, i);
      AdmittedIsPassing(q, s.clock, s.stats, l, max, i);
    }
    CountMonotone(s.requests, AdmittedBy(l), PassingUnder(l, max));
  }
}
