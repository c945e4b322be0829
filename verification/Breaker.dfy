/**
 The request-path circuit breaker. `BreakerExact` gives its state after any sequence of outcomes in
 terms of the failures since the last success alone: closed below three, then open with a backoff that
 doubles once per failed probe after a cooldown, capped at five minutes.
 */
module BreakerModel {
  import opened Calendar

  const THRESHOLD: nat := 3
  const OPEN_FOR: int := 30 * SECOND
  const MAX_OPEN: int := 5 * MINUTE

  datatype Health = Health(open: bool, openUntil: int, backoff: int, failures: nat)

  const CLOSED: Health := Health(false, 0, 0, 0)

  function AfterOutcome(h: Health, success: bool, now: int): Health {
    if success then CLOSED
    else if h.open && now < h.openUntil then h
    else if h.open then
      var doubled := if h.backoff <= 0 then OPEN_FOR else 2 * h.backoff;
      var b := if doubled > MAX_OPEN then MAX_OPEN else doubled;
      h.(backoff := b, openUntil := now + b)
    else if h.failures + 1 >= THRESHOLD then Health(true, now + OPEN_FOR, OPEN_FOR, h.failures + 1)
    else h.(failures := h.failures + 1)
  }

  predicate IsHealthy(h: Health, now: int) { !h.open || now >= h.openUntil }

  class RequestHealthTracker {
    var states: map<string, Health>

    ghost function StateOf(provider: string): Health reads this {
      if provider in states then states[provider] else CLOSED
    }

    constructor ()
      ensures states == map[]
    {
      states := map[];
    }

    method StateFor(provider: string) returns (h: Health)
      modifies this
      ensures provider in states && h == states[provider] == old(StateOf(provider))
      ensures forall p :: StateOf(p) == old(StateOf(p))
    {
      if provider !in states { states := states[provider := CLOSED]; }
      h := states[provider];
    }

    /** record; an empty provider name is ignored and no other provider's state moves. */
    method Record(provider: string, success: bool, now: int)
      modifies this
      ensures forall p :: StateOf(p) ==
                if p == provider && provider != "" then AfterOutcome(old(StateOf(p)), success, now) else old(StateOf(p))
    {
      if provider == "" { return; }
      var st := StateFor(provider);
      if success {
        states := states[provider := CLOSED];
        return;
      }
      if st.open && now < st.openUntil { return; }
      if st.open {
        var b := st.backoff;
        if b <= 0 { b := OPEN_FOR; } else { b := b * 2; }
        if b > MAX_OPEN { b := MAX_OPEN; }
        states := states[provider := st.(backoff := b, openUntil := now + b)];
        return;
      }
      st := st.(failures := st.failures + 1);
      if st.failures >= THRESHOLD {
        st := Health(true, now + OPEN_FOR, OPEN_FOR, st.failures);
      }
      states := states[provider := st];
    }

    method Healthy(provider: string, now: int) returns (ok: bool)
      modifies this
      ensures ok == (provider == "" || IsHealthy(old(StateOf(provider)), now))
      ensures forall p :: StateOf(p) == old(StateOf(p))
    {
      if provider == "" { return true; }
      var st := StateFor(provider);
      if !st.open { return true; }
      return !(now < st.openUntil);
    }
  }

  // ---------------------------------------------------------------- runs of one provider

  datatype Outcome = Outcome(at: int, success: bool)

  function After(outcomes: seq<Outcome>): Health {
    if outcomes == [] then CLOSED
    else AfterOutcome(After(outcomes[..|outcomes| - 1]), outcomes[|outcomes| - 1].success, outcomes[|outcomes| - 1].at)
  }

  /** The times of the failures recorded since the last success. */
  function Failures(outcomes: seq<Outcome>): seq<int> {
    if outcomes == [] then []
    else
      var last := outcomes[|outcomes| - 1];
      if last.success then [] else Failures(outcomes[..|outcomes| - 1]) + [last.at]
  }

  function Pow2(k: nat): (p: int)
    ensures p >= 1
  {
    if k == 0 then 1 else 2 * Pow2(k - 1)
  }

  /** min(30s * 2^k, 5m). */
  function Backoff(k: nat): int { if OPEN_FOR * Pow2(k) > MAX_OPEN then MAX_OPEN else OPEN_FOR * Pow2(k) }

  /** How many probes failed, and when the breaker last opened. */
  datatype Rung = Rung(probes: nat, at: int)

  /** The third failure opens; each later failure past the current cooldown is a failed probe. */
  function Ladder(fails: seq<int>): Rung
    requires |fails| >= THRESHOLD
  {
    if |fails| == THRESHOLD then Rung(0, fails[THRESHOLD - 1])
    else
      var r := Ladder(fails[..|fails| - 1]);
      var f := fails[|fails| - 1];
      if f < r.at + Backoff(r.probes) then r else Rung(r.probes + 1, f)
  }

  lemma BackoffDoubles(k: nat)
    ensures Backoff(k + 1) == if 2 * Backoff(k) > MAX_OPEN then MAX_OPEN else 2 * Backoff(k)
    ensures 0 < Backoff(k) <= MAX_OPEN
    ensures Backoff(0) == 30 * SECOND && MAX_OPEN == 300 * SECOND
  {
    assert OPEN_FOR * Pow2(k + 1) == 2 * (OPEN_FOR * Pow2(k));
  }

  /** The state a provider's breaker is in when these are its failures since the last success. */
  function Expected(fails: seq<int>): Health {
    if |fails| < THRESHOLD then Health(false, 0, 0, |fails|)
    else
      var r := Ladder(fails);
      Health(true, r.at + Backoff(r.probes), Backoff(r.probes), THRESHOLD)
  }

  lemma {:induction false} BreakerExact(outcomes: seq<Outcome>)
    ensures After(outcomes) == Expected(Failures(outcomes))
  {
    if outcomes != [] {
      var n := |outcomes| - 1;
      var last := outcomes[n];
      BreakerExact(outcomes[..n]);
      if !last.success {
        var before := Failures(outcomes[..n]);
        var fails := before + [last.at];
        assert fails[..|before|] == before;
        if |before| >= THRESHOLD { BackoffDoubles(Ladder(before).probes); }
      }
    }
  }

  /** Routing skips a provider exactly while its last opening is still cooling down. */
  lemma {:induction false} UnhealthyIff(outcomes: seq<Outcome>, t: int)
    ensures !IsHealthy(After(outcomes), t) <==>
            (|Failures(outcomes)| >= 3 &&
             t < Ladder(Failures(outcomes)).at + Backoff(Ladder(Failures(outcomes)).probes))
  {
    BreakerExact(outcomes);
  }

  lemma {:induction false} LadderIsAFailure(fails: seq<int>)
    requires |fails| >= THRESHOLD
    ensures Ladder(fails).at in fails
  {
    if |fails| > THRESHOLD { LadderIsAFailure(fails[..|fails| - 1]); }
  }

  /** Outcome `i` is a failure at `f`, and no success came after it. */
  predicate FailedAt(outcomes: seq<Outcome>, i: int, f: int) {
    0 <= i < |outcomes| && outcomes[i].at == f && forall j :: i <= j < |outcomes| ==> !outcomes[j].success
  }

  lemma {:induction false} FailuresAreRecorded(outcomes: seq<Outcome>, f: int)
    requires f in Failures(outcomes)
    ensures exists i :: FailedAt(outcomes, i, f)
  {
    var n := |outcomes| - 1;
    if outcomes[n].at == f {
      assert FailedAt(outcomes, n, f);
    } else {
      FailuresAreRecorded(outcomes[..n], f);
      var i :| FailedAt(outcomes[..n], i, f);
      assert forall j :: i <= j < n ==> outcomes[j] == outcomes[..n][j];
      assert FailedAt(outcomes, i, f);
    }
  }

  /** A provider is skipped only after three failures since its last success, one of them less than five minutes ago. */
  lemma {:induction false} UnhealthyMeansRecentFailure(outcomes: seq<Outcome>, t: int)
    requires !IsHealthy(After(outcomes), t) && forall i :: 0 <= i < |outcomes| ==> outcomes[i].at <= t
    ensures |Failures(outcomes)| >= 3
    ensures exists i :: 0 <= i < |outcomes| && FailedAt(outcomes, i, outcomes[i].at) && 0 <= t - outcomes[i].at < 300 * SECOND
  {
    UnhealthyIff(outcomes, t);
    var r := Ladder(Failures(outcomes));
    BackoffDoubles(r.probes);
    LadderIsAFailure(Failures(outcomes));
    FailuresAreRecorded(outcomes, r.at);
    var i :| FailedAt(outcomes, i, r.at);
    assert FailedAt(outcomes, i, outcomes[i].at) && 0 <= t - outcomes[i].at < MAX_OPEN;
  }

  /** A failure inside the cooldown changes nothing, and one success always closes. */
  lemma {:induction false} CooldownIgnoresFailures(outcomes: seq<Outcome>, t: int)
    ensures !IsHealthy(After(outcomes), t) ==> After(outcomes + [Outcome(t, false)]) == After(outcomes)
    ensures After(outcomes + [Outcome(t, true)]) == CLOSED
  {
    assert (outcomes + [Outcome(t, false)])[..|outcomes|] == outcomes;
    assert (outcomes + [Outcome(t, true)])[..|outcomes|] == outcomes;
  }
}
