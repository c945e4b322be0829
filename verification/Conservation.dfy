/**
 What the request and rejection counters add up to once every request has been decided and every
 settlement has landed, after any interleaving at all.
 */
module Conservation {
  import opened Common
  import opened Calendar
  import opened Keys
  import opened Admission
  import opened Protocol

  /** Every request is admitted, closed or refused and has sent all its commands. */
  ghost predicate Settled(s: State) {
    forall r :: 0 <= r < |s.requests| ==>
      var q := s.requests[r];
      q.todo == [] && (q.phase.Admitted? || q.phase.Closed? || q.phase.Refused?)
  }

  /** withTotalScope: every call includes the unlimited total scope. */
  ghost predicate CarriesTotal(q: Request) {
    exists i :: 0 <= i < |q.scopes| && IsTotal(q.scopes[i]) && q.scopes[i].limits.None?
  }

  ghost predicate TotalEverywhere(s: State) {
    forall r :: 0 <= r < |s.requests| ==> CarriesTotal(s.requests[r])
  }

  ghost predicate Names(q: Request, kind: string, id: string) {
    exists i :: 0 <= i < |q.scopes| && q.scopes[i].kind == kind && q.scopes[i].id == id
  }

  ghost predicate WasAdmitted(q: Request) { q.phase.Admitted? || q.phase.Closed? }

  /** Refused, and by this scope. */
  ghost predicate WasRefusedBy(q: Request, kind: string, id: string) {
    q.phase.Refused? && q.phase.violator < |q.scopes| &&
    q.scopes[q.phase.violator].kind == kind && q.scopes[q.phase.violator].id == id
  }

  ghost predicate StartedIn(q: Request, w: Window, b: int) { Bucket(q.now, w) == b }

  ghost function AdmittedNaming(kind: string, id: string, w: Window, b: int): Request -> bool {
    (q: Request) => StartedIn(q, w, b) && WasAdmitted(q) && Names(q, kind, id)
  }

  ghost function AdmittedIn(w: Window, b: int): Request -> bool {
    (q: Request) => StartedIn(q, w, b) && WasAdmitted(q)
  }

  ghost function RefusedBy(kind: string, id: string, w: Window, b: int): Request -> bool {
    (q: Request) => StartedIn(q, w, b) && WasRefusedBy(q, kind, id)
  }

  ghost function RefusedIn(w: Window, b: int): Request -> bool {
    (q: Request) => StartedIn(q, w, b) && q.phase.Refused?
  }

  ghost function Started(w: Window, b: int): Request -> bool { (q: Request) => StartedIn(q, w, b) }

  // ---------------------------------------------------------------- what one request leaves behind

  /** Charges never touch a request or rejection counter of a user, a group or the total. */
  lemma ChargesElsewhere(q: Request, clock: int, stats: bool, k: CounterKey)
    requires Ok(q, clock, stats) && WasAdmitted(q) && q.todo == []
    requires k.kind != MODEL_KIND && (k.metric == Req || k.metric == Rej)
    ensures Net(q.executed, k) == Net(Entries(q.scopes, q.now), k)
  {
    var n := 3 * |q.scopes|;
    var charges := q.executed[n..];
    assert charges + q.todo == charges;
    assert q.executed == Entries(q.scopes, q.now) + charges;
    SumConcat(Entries(q.scopes, q.now), charges, DeltaOn(k));
    SumZero(charges, DeltaOn(k));
  }

  lemma RequestTrace(q: Request, clock: int, stats: bool, k: CounterKey)
    requires Ok(q, clock, stats) && q.todo == [] && (WasAdmitted(q) || q.phase.Refused?)
    requires k.kind != MODEL_KIND && k.metric == Req && k.window != Month
    ensures Net(q.executed, k) ==
            (if AdmittedNaming(k.kind, k.id, k.window, k.bucket)(q) then 1 else 0) +
            (if RefusedBy(k.kind, k.id, k.window, k.bucket)(q) then 1 else 0)
  {
    if WasAdmitted(q) {
      ChargesElsewhere(q, clock, stats, k);
      NetOfEntries(q.scopes, q.now, k);
      DistinctTouch(q.scopes, q.now, k);
      if Names(q, k.kind, k.id) && StartedIn(q, k.window, k.bucket) {
        var i :| 0 <= i < |q.scopes| && q.scopes[i].kind == k.kind && q.scopes[i].id == k.id;
        assert Touches(q.scopes[i], q.now, k);
      }
    } else {
      assert q.executed + q.todo == q.executed;
      NetOfRefusal(q.scopes, q.now, q.phase.violator, stats, k);
    }
  }

  lemma RejectionTrace(q: Request, clock: int, stats: bool, k: CounterKey)
    requires Ok(q, clock, stats) && q.todo == [] && (WasAdmitted(q) || q.phase.Refused?) && CarriesTotal(q)
    requires k.kind != MODEL_KIND && k.metric == Rej && k.window == Day
    ensures Net(q.executed, k) ==
            if k.kind == TOTAL_KIND && k.id == TOTAL_ID then (if RefusedIn(Day, k.bucket)(q) then 1 else 0)
            else if RefusedBy(k.kind, k.id, Day, k.bucket)(q) then 1 else 0
  {
    if WasAdmitted(q) {
      ChargesElsewhere(q, clock, stats, k);
      EntriesSigns(q.scopes, q.now);
      SumZero(Entries(q.scopes, q.now), DeltaOn(k));
    } else {
      assert q.executed + q.todo == q.executed;
      NetOfRefusal(q.scopes, q.now, q.phase.violator, stats, k);
      var i :| 0 <= i < |q.scopes| && IsTotal(q.scopes[i]) && q.scopes[i].limits.None?;
      assert i != q.phase.violator;
      assert TotalPresent(q.scopes, q.phase.violator, |q.scopes|);
      assert !IsTotal(q.scopes[q.phase.violator]) by {
        assert i < q.phase.violator ==> !SameScope(q.scopes[i], q.scopes[q.phase.violator]);
        assert q.phase.violator < i ==> !SameScope(q.scopes[q.phase.violator], q.scopes[i]);
      }
    }
  }

  // ---------------------------------------------------------------- the counters

  lemma {:induction false} TwoCounts(qs: seq<Request>, f: Request -> int, p: Request -> bool, p': Request -> bool)
    requires forall i :: 0 <= i < |qs| ==> f(qs[i]) == (if p(qs[i]) then 1 else 0) + (if p'(qs[i]) then 1 else 0)
    ensures SumOf(qs, f) == CountOf(qs, p) + CountOf(qs, p')
  {
    if qs != [] {
      var init := qs[..|qs| - 1];
      assert forall i :: 0 <= i < |init| ==> init[i] == qs[i];
      TwoCounts(init, f, p, p');
    }
  }

  /** A scope's request counter is its admitted requests plus the requests it refused itself. */
  lemma RequestCounter(s: State, kind: string, id: string, w: Window, b: int)
    requires Inv(s) && Settled(s) && kind != MODEL_KIND && w != Month
    ensures Value(s.counters, CounterKey(kind, id, Req, w, b)) ==
            CountOf(s.requests, AdmittedNaming(kind, id, w, b)) + CountOf(s.requests, RefusedBy(kind, id, w, b))
  {
    var k := CounterKey(kind, id, Req, w, b);
    forall r | 0 <= r < |s.requests|
      ensures NetOn(k)(s.requests[r]) == (if AdmittedNaming(kind, id, w, b)(s.requests[r]) then 1 else 0) +
                                         (if RefusedBy(kind, id, w, b)(s.requests[r]) then 1 else 0)
    {
      RequestTrace(s.requests[r], s.clock, s.stats, k);
    }
    TwoCounts(s.requests, NetOn(k), AdmittedNaming(kind, id, w, b), RefusedBy(kind, id, w, b));
  }

  /** The total's request counter is exactly the admitted requests. */
  lemma TotalRequestCounter(s: State, w: Window, b: int)
    requires Inv(s) && Settled(s) && TotalEverywhere(s) && w != Month
    ensures Value(s.counters, CounterKey(TOTAL_KIND, TOTAL_ID, Req, w, b)) == CountOf(s.requests, AdmittedIn(w, b))
  {
    var k := CounterKey(TOTAL_KIND, TOTAL_ID, Req, w, b);
    forall r | 0 <= r < |s.requests|
      ensures NetOn(k)(s.requests[r]) == if AdmittedIn(w, b)(s.requests[r]) then 1 else 0
    {
      var q := s.requests[r];
      RequestTrace(q, s.clock, s.stats, k);
      TotalNeverViolates(q, s.clock, s.stats);
      assert Names(q, TOTAL_KIND, TOTAL_ID);
    }
    SumIsCount(s.requests, AdmittedIn(w, b), NetOn(k));
  }

  lemma TotalNeverViolates(q: Request, clock: int, stats: bool)
    requires Ok(q, clock, stats) && CarriesTotal(q)
    ensures !WasRefusedBy(q, TOTAL_KIND, TOTAL_ID)
    ensures Names(q, TOTAL_KIND, TOTAL_ID)
  {
    var i :| 0 <= i < |q.scopes| && IsTotal(q.scopes[i]) && q.scopes[i].limits.None?;
    if q.phase.Refused? {
      assert i < q.phase.violator ==> !SameScope(q.scopes[i], q.scopes[q.phase.violator]);
      assert q.phase.violator < i ==> !SameScope(q.scopes[q.phase.violator], q.scopes[i]);
    }
  }

  /** A scope's daily rejection counter is the requests it refused; the total's is every refusal. */
  lemma RejectionCounter(s: State, kind: string, id: string, b: int)
    requires Inv(s) && Settled(s) && TotalEverywhere(s) && kind != MODEL_KIND
    ensures Value(s.counters, CounterKey(kind, id, Rej, Day, b)) ==
            if kind == TOTAL_KIND && id == TOTAL_ID then CountOf(s.requests, RefusedIn(Day, b))
            else CountOf(s.requests, RefusedBy(kind, id, Day, b))
  {
    var k := CounterKey(kind, id, Rej, Day, b);
    var p := if kind == TOTAL_KIND && id == TOTAL_ID then RefusedIn(Day, b) else RefusedBy(kind, id, Day, b);
    forall r | 0 <= r < |s.requests| ensures NetOn(k)(s.requests[r]) == if p(s.requests[r]) then 1 else 0 {
      RejectionTrace(s.requests[r], s.clock, s.stats, k);
    }
    SumIsCount(s.requests, p, NetOn(k));
  }

  // ---------------------------------------------------------------- the rejections add up

  datatype ScopeName = ScopeName(kind: string, id: string)

  function ViolatorOf(q: Request): ScopeName
    requires q.phase.Refused? && q.phase.violator < |q.scopes|
  {
    ScopeName(q.scopes[q.phase.violator].kind, q.scopes[q.phase.violator].id)
  }

  ghost function RejectionsOf(s: State, b: int): ScopeName -> int {
    (n: ScopeName) => Value(s.counters, CounterKey(n.kind, n.id, Rej, Day, b))
  }

  ghost function RefusalsOf(qs: seq<Request>, b: int): ScopeName -> int {
    (n: ScopeName) => CountOf(qs, RefusedBy(n.kind, n.id, Day, b))
  }

  ghost function IsViolator(q: Request, b: int): ScopeName -> int {
    (n: ScopeName) => if StartedIn(q, Day, b) && WasRefusedBy(q, n.kind, n.id) then 1 else 0
  }

  lemma {:induction false} ExactlyOneViolator(names: seq<ScopeName>, q: Request, b: int)
    requires Distinct(names) && q.phase.Refused? && q.phase.violator < |q.scopes| && StartedIn(q, Day, b)
    ensures SumOf(names, IsViolator(q, b)) == if ViolatorOf(q) in names then 1 else 0
  {
    if names != [] {
      var n := |names| - 1;
      var init, v := names[..n], ViolatorOf(q);
      assert forall i :: 0 <= i < n ==> init[i] == names[i];
      ExactlyOneViolator(init, q, b);
      ViolatorTerm(names[n], q, b);
      assert names == init + [names[n]];
      assert v in names <==> v in init || v == names[n];
      assert names[n] !in init;
    }
  }

  lemma {:induction false} ViolatorTerm(name: ScopeName, q: Request, b: int)
    requires q.phase.Refused? && q.phase.violator < |q.scopes| && StartedIn(q, Day, b)
    ensures IsViolator(q, b)(name) == if name == ViolatorOf(q) then 1 else 0
  {
    assert name == ScopeName(name.kind, name.id);
  }

  /** Summing each scope's refusals counts every refusal once, if the scopes listed cover them. */
  lemma {:induction false} RefusalsAddUp(names: seq<ScopeName>, qs: seq<Request>, b: int)
    requires Distinct(names)
    requires forall r :: 0 <= r < |qs| && qs[r].phase.Refused? && StartedIn(qs[r], Day, b) ==>
               qs[r].phase.violator < |qs[r].scopes| && ViolatorOf(qs[r]) in names
    ensures SumOf(names, RefusalsOf(qs, b)) == CountOf(qs, RefusedIn(Day, b))
  {
    if qs == [] {
      SumZero(names, RefusalsOf(qs, b));
    } else {
      var m := |qs| - 1;
      var init, last := qs[..m], qs[m];
      assert forall r :: 0 <= r < m ==> init[r] == qs[r];
      RefusalsAddUp(names, init, b);
      SumPair(names, RefusalsOf(init, b), IsViolator(last, b), RefusalsOf(qs, b));
      if last.phase.Refused? && StartedIn(last, Day, b) {
        ExactlyOneViolator(names, last, b);
      } else {
        SumZero(names, IsViolator(last, b));
      }
    }
  }

  /** The listed scopes are users and groups, and include every scope that refused in the bucket. */
  ghost predicate Covers(names: seq<ScopeName>, s: State, b: int) {
    Distinct(names) &&
    (forall i :: 0 <= i < |names| ==> names[i].kind != MODEL_KIND && names[i].kind != TOTAL_KIND) &&
    forall r :: 0 <= r < |s.requests| && s.requests[r].phase.Refused? && StartedIn(s.requests[r], Day, b) ==>
      s.requests[r].phase.violator < |s.requests[r].scopes| && ViolatorOf(s.requests[r]) in names
  }

  lemma {:induction false} RejectionsAddUp(s: State, names: seq<ScopeName>, b: int)
    requires Inv(s) && Settled(s) && TotalEverywhere(s) && Covers(names, s, b)
    ensures SumOf(names, RejectionsOf(s, b)) == Value(s.counters, CounterKey(TOTAL_KIND, TOTAL_ID, Rej, Day, b))
  {
    forall i | 0 <= i < |names| ensures RejectionsOf(s, b)(names[i]) == RefusalsOf(s.requests, b)(names[i]) {
      RejectionCounter(s, names[i].kind, names[i].id, b);
    }
    SumEqual(names, RejectionsOf(s, b), RefusalsOf(s.requests, b));
    RefusalsAddUp(names, s.requests, b);
    RejectionCounter(s, TOTAL_KIND, TOTAL_ID, b);
  }

  lemma {:induction false} AdmittedOrRefused(qs: seq<Request>, w: Window, b: int)
    requires forall r :: 0 <= r < |qs| ==> WasAdmitted(qs[r]) || qs[r].phase.Refused?
    ensures CountOf(qs, Started(w, b)) == CountOf(qs, AdmittedIn(w, b)) + CountOf(qs, RefusedIn(w, b))
  {
    if qs != [] {
      var init := qs[..|qs| - 1];
      assert forall i :: 0 <= i < |init| ==> init[i] == qs[i];
      AdmittedOrRefused(init, w, b);
    }
  }

  /**
   Conservation over every run, once it is settled: the total's daily request counter counts the
   admitted requests and its rejection counter the refused ones, so together they count every request
   of the day; each other scope's request counter is its admitted requests plus its own rejections;
   and the other scopes' rejections add up to the total's.
   */
  lemma {:induction false} Conserved(clock: int, stats: bool, actions: seq<Action>, names: seq<ScopeName>, kind: string, id: string, b: int)
    requires var s := Run(Initial(clock, stats), actions); Settled(s) && TotalEverywhere(s) && Covers(names, s, b)
    requires kind != MODEL_KIND && kind != TOTAL_KIND
    ensures var s := Run(Initial(clock, stats), actions);
            var requests := Value(s.counters, CounterKey(TOTAL_KIND, TOTAL_ID, Req, Day, b));
            var rejections := Value(s.counters, CounterKey(TOTAL_KIND, TOTAL_ID, Rej, Day, b));
            && requests == CountOf(s.requests, AdmittedIn(Day, b))
            && rejections == CountOf(s.requests, RefusedIn(Day, b))
            && requests + rejections == CountOf(s.requests, Started(Day, b))
            && SumOf(names, RejectionsOf(s, b)) == rejections
            && Value(s.counters, CounterKey(kind, id, Req, Day, b)) ==
               CountOf(s.requests, AdmittedNaming(kind, id, Day, b)) + Value(s.counters, CounterKey(kind, id, Rej, Day, b))
  {
    var s := Run(Initial(clock, stats), actions);
    RunInv(clock, stats, actions);
    TotalRequestCounter(s, Day, b);
    RejectionCounter(s, TOTAL_KIND, TOTAL_ID, b);
    RejectionCounter(s, kind, id, b);
    RequestCounter(s, kind, id, Day, b);
    RejectionsAddUp(s, names, b);
    AdmittedOrRefused(s.requests, Day, b);
  }
}
