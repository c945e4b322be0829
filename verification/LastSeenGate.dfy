/**
 The per-scope write throttle: two generations of timestamps, a rotation threshold that doubles, and
 the exact behaviour over every run. A call is answered true exactly when the scope was not answered
 true within the last sixty whole seconds, unless the gate, full at its ceiling and rotated less than
 a throttle ago, has rotated again and dropped a young entry. `ThrottlesIff` says that this is the
 exact condition, and `CeilingRun` gives a run that meets it.
 */
module LastSeenGateModel {
  import opened Common
  import opened Calendar
  import opened Decimal

  const THROTTLE_SECONDS: int := 60
  const THROTTLE: int := 60 * SECOND
  const CAP_BASE: nat := 4096
  const CAP_MAX: nat := 65536

  type Times = map<string, int>

  /** `current` is None until the first call. */
  datatype Gate = Gate(current: Option<Times>, previous: Times, lastRotate: Option<int>, capacity: nat)

  const FRESH: Gate := Gate(None, map[], None, 0)

  function Unix(t: int): int { t / SECOND }

  function GateKey(kind: string, id: string): string { kind + [0 as char] + id }

  /** The scope kinds hold no NUL, so the key determines the scope. */
  lemma GateKeyInjective(kind: string, id: string, kind': string, id': string)
    requires 0 as char !in kind && 0 as char !in kind'
    requires GateKey(kind, id) == GateKey(kind', id')
    ensures kind == kind' && id == id'
  {
    var a, b := GateKey(kind, id), GateKey(kind', id');
    assert a[|kind|] == 0 as char && b[|kind'|] == 0 as char;
    assert forall i :: 0 <= i < |kind| ==> a[i] == kind[i];
    assert forall i :: 0 <= i < |kind'| ==> b[i] == kind'[i];
    assert |kind| == |kind'|;
    assert kind == a[..|kind|] && kind' == b[..|kind'|];
    assert id == a[|kind| + 1..] && id' == b[|kind'| + 1..];
  }

  /** One call: the new generations and the answer. */
  function DueStep(g: Gate, key: string, now: int): (Gate, bool) {
    var cap := if g.current.None? then CAP_BASE else g.capacity;
    var cur := if g.current.None? then map[] else g.current.value;
    if key in cur then
      if Unix(now) - cur[key] < THROTTLE_SECONDS then (Gate(Some(cur), g.previous, g.lastRotate, cap), false)
      else (Gate(Some(cur[key := Unix(now)]), g.previous, g.lastRotate, cap), true)
    else if key in g.previous then
      if Unix(now) - g.previous[key] < THROTTLE_SECONDS
      then (Gate(Some(cur[key := g.previous[key]]), g.previous, g.lastRotate, cap), false)
      else (Gate(Some(cur[key := Unix(now)]), g.previous, g.lastRotate, cap), true)
    else if |cur| >= cap then
      if cap < CAP_MAX && g.lastRotate.Some? && now - g.lastRotate.value < THROTTLE
      then (Gate(Some(cur[key := Unix(now)]), g.previous, g.lastRotate, if 2 * cap > CAP_MAX then CAP_MAX else 2 * cap), true)
      else (Gate(Some(map[key := Unix(now)]), cur, Some(now), cap), true)
    else (Gate(Some(cur[key := Unix(now)]), g.previous, g.lastRotate, cap), true)
  }

  class LastSeenGate {
    var current: Option<Times>
    var previous: Times
    var lastRotate: Option<int>
    var capacity: nat

    ghost function Contents(): Gate reads this { Gate(current, previous, lastRotate, capacity) }

    constructor ()
      ensures Contents() == FRESH
    {
      current, previous, lastRotate, capacity := None, map[], None, 0;
    }

    /** due. */
    method Due(kind: string, id: string, now: int) returns (due: bool)
      modifies this
      ensures (Contents(), due) == DueStep(old(Contents()), GateKey(kind, id), now)
    {
      var key := GateKey(kind, id);
      var nowUnix := Unix(now);
      if current.None? {
        current := Some(map[]);
        capacity := CAP_BASE;
      }
      if key in current.value {
        if nowUnix - current.value[key] < THROTTLE_SECONDS { return false; }
      } else if key in previous {
        var last := previous[key];
        if nowUnix - last < THROTTLE_SECONDS {
          current := Some(current.value[key := last]);
          return false;
        }
      } else if |current.value| >= capacity {
        if capacity < CAP_MAX && lastRotate.Some? && now - lastRotate.value < THROTTLE {
          capacity := capacity * 2;
          if capacity > CAP_MAX { capacity := CAP_MAX; }
        } else {
          previous := current.value;
          current := Some(map[]);
          lastRotate := Some(now);
        }
      }
      current := Some(current.value[key := nowUnix]);
      return true;
    }
  }

  // ---------------------------------------------------------------- runs

  datatype Call = Call(key: string, at: int)

  function GateAfter(calls: seq<Call>): Gate {
    if calls == [] then FRESH
    else DueStep(GateAfter(calls[..|calls| - 1]), calls[|calls| - 1].key, calls[|calls| - 1].at).0
  }

  /** The answer to call `i` of a run. */
  function Answer(calls: seq<Call>, i: nat): bool
    requires i < |calls|
  {
    DueStep(GateAfter(calls[..i]), calls[i].key, calls[i].at).1
  }

  /** All the answers of a run. */
  function Answers(calls: seq<Call>): (outs: seq<bool>)
    ensures |outs| == |calls|
  {
    if calls == [] then [] else Answers(calls[..|calls| - 1]) + [Answer(calls, |calls| - 1)]
  }

  /** The second of the last call answered true, per key. */
  function RecordOf(calls: seq<Call>, outs: seq<bool>): Times
    requires |outs| == |calls|
  {
    if calls == [] then map[]
    else
      var n := |calls| - 1;
      var m := RecordOf(calls[..n], outs[..n]);
      if outs[n] then m[calls[n].key := Unix(calls[n].at)] else m
  }

  function Record(calls: seq<Call>): Times { RecordOf(calls, Answers(calls)) }

  lemma {:induction false} AnswersAt(calls: seq<Call>, j: nat)
    requires j < |calls|
    ensures Answers(calls)[j] == Answer(calls, j)
  {
    var n := |calls| - 1;
    if j < n {
      AnswersAt(calls[..n], j);
      assert calls[..n][..j] == calls[..j];
    }
  }

  lemma RecordStep(calls: seq<Call>)
    requires calls != []
    ensures var n := |calls| - 1;
            Record(calls) == if Answer(calls, n) then Record(calls[..n])[calls[n].key := Unix(calls[n].at)] else Record(calls[..n])
  {
    assert Answers(calls)[..|calls| - 1] == Answers(calls[..|calls| - 1]);
  }

  ghost predicate ClockForward(calls: seq<Call>) {
    forall i, j :: 0 <= i < j < |calls| ==> calls[i].at <= calls[j].at
  }

  function Current(g: Gate): Times { if g.current.None? then map[] else g.current.value }

  function Capacity(g: Gate): nat { if g.current.None? then CAP_BASE else g.capacity }

  /** A scope unknown to both generations meets a full generation at the ceiling, less than a throttle after the last rotation. */
  predicate RotatesEarly(g: Gate, key: string, now: int) {
    key !in Current(g) && key !in g.previous && Capacity(g) >= CAP_MAX && |Current(g)| >= Capacity(g) &&
    g.lastRotate.Some? && now - g.lastRotate.value < THROTTLE
  }

  /** An entry only the previous generation holds, still inside its throttle. */
  predicate IsYoung(g: Gate, now: int, k: string) {
    k in g.previous && k !in Current(g) && Unix(now) - g.previous[k] < THROTTLE_SECONDS
  }

  /** The call rotates early and drops a young entry. */
  ghost predicate LosesYoung(g: Gate, key: string, now: int) {
    RotatesEarly(g, key, now) && exists k :: IsYoung(g, now, k)
  }

  ghost predicate LossAt(calls: seq<Call>, j: nat)
    requires j < |calls|
  {
    LosesYoung(GateAfter(calls[..j]), calls[j].key, calls[j].at)
  }

  ghost predicate NoLoss(calls: seq<Call>) { forall j :: 0 <= j < |calls| ==> !LossAt(calls, j) }

  /** What the generations remember is what happened. */
  ghost predicate Truthful(g: Gate, m: Times, t: int) {
    (forall k :: k in Current(g) ==> k in m && Current(g)[k] == m[k]) &&
    (forall k :: k in g.previous && k !in Current(g) ==> k in m && g.previous[k] == m[k]) &&
    (forall k :: k in m ==> m[k] <= Unix(t)) &&
    (forall k :: k in g.previous ==> g.lastRotate.Some? && g.previous[k] <= Unix(g.lastRotate.value))
  }

  /** Whatever the generations forgot is past the throttle. */
  ghost predicate ForgotOnlyOld(g: Gate, m: Times, t: int) {
    forall k :: k in m && k !in Current(g) && k !in g.previous ==> Unix(t) - m[k] >= THROTTLE_SECONDS
  }

  lemma UnixMonotone(s: int, t: int)
    requires s <= t
    ensures Unix(s) <= Unix(t)
    ensures t - s >= THROTTLE ==> Unix(t) - Unix(s) >= THROTTLE_SECONDS
  {
  }

  lemma StepTruthful(g: Gate, m: Times, t: int, key: string, now: int)
    requires Truthful(g, m, t) && t <= now
    ensures var (g', due) := DueStep(g, key, now);
            Truthful(g', if due then m[key := Unix(now)] else m, now)
    ensures !DueStep(g, key, now).1 ==> key in m && Unix(now) - m[key] < THROTTLE_SECONDS
  {
    UnixMonotone(t, now);
  }

  /** A rotation that is not early waited out the throttle, so it drops only what is past it. */
  lemma StepForgetsOnlyOld(g: Gate, m: Times, t: int, key: string, now: int)
    requires Truthful(g, m, t) && ForgotOnlyOld(g, m, t) && t <= now && !LosesYoung(g, key, now)
    ensures var (g', due) := DueStep(g, key, now);
            ForgotOnlyOld(g', if due then m[key := Unix(now)] else m, now)
    ensures DueStep(g, key, now).1 ==> key !in m || Unix(now) - m[key] >= THROTTLE_SECONDS
  {
    UnixMonotone(t, now);
    if g.lastRotate.Some? && g.lastRotate.value <= now { UnixMonotone(g.lastRotate.value, now); }
    var (g', due) := DueStep(g, key, now);
    var m' := if due then m[key := Unix(now)] else m;
    forall k | k in m' && k !in Current(g') && k !in g'.previous ensures Unix(now) - m'[k] >= THROTTLE_SECONDS {
      assert RotatesEarly(g, key, now) ==> !IsYoung(g, now, k);
    }
  }

  function Latest(calls: seq<Call>): int { if calls == [] then 0 else calls[|calls| - 1].at }

  lemma {:induction false} RunTruthful(calls: seq<Call>)
    requires ClockForward(calls)
    ensures calls == [] || Truthful(GateAfter(calls), Record(calls), Latest(calls))
  {
    if calls != [] {
      var n := |calls| - 1;
      var before := calls[..n];
      assert forall i :: 0 <= i < n ==> before[i] == calls[i];
      RunTruthful(before);
      var t := if n == 0 then calls[n].at else Latest(before);
      assert Truthful(GateAfter(before), Record(before), t);
      StepTruthful(GateAfter(before), Record(before), t, calls[n].key, calls[n].at);
      RecordStep(calls);
    }
  }

  lemma {:induction false} NoLossPrefix(calls: seq<Call>, i: nat)
    requires i <= |calls| && forall j :: 0 <= j < i ==> !LossAt(calls, j)
    ensures NoLoss(calls[..i])
  {
    forall j | 0 <= j < i ensures !LossAt(calls[..i], j) {
      assert calls[..i][..j] == calls[..j];
      assert !LossAt(calls, j);
    }
  }

  lemma {:induction false} RunForgetsOnlyOld(calls: seq<Call>)
    requires ClockForward(calls) && NoLoss(calls)
    ensures calls == [] || ForgotOnlyOld(GateAfter(calls), Record(calls), Latest(calls))
  {
    if calls != [] {
      var n := |calls| - 1;
      var before, c := calls[..n], calls[n];
      PrefixForward(calls, n);
      NoLossPrefix(calls, n);
      RunForgetsOnlyOld(before);
      RunTruthful(before);
      var t := if n == 0 then c.at else Latest(before);
      assert !LossAt(calls, n);
      StepForgetsOnlyOld(GateAfter(before), Record(before), t, c.key, c.at);
      RecordStep(calls);
    }
  }

  lemma PrefixForward(calls: seq<Call>, i: nat)
    requires ClockForward(calls) && i <= |calls|
    ensures ClockForward(calls[..i])
    ensures forall j :: 0 <= j < i ==> calls[..i][..j] == calls[..j]
    ensures forall j :: 0 <= j < i ==> Answer(calls[..i], j) == Answer(calls, j)
  {
    assert forall j :: 0 <= j < i ==> calls[..i][..j] == calls[..j];
  }

  /** The record of a key is the second of one of its true answers. */
  lemma {:induction false} RecordIsTrue(calls: seq<Call>, outs: seq<bool>, key: string) returns (j: nat)
    requires |outs| == |calls| && key in RecordOf(calls, outs)
    ensures j < |calls| && calls[j].key == key && outs[j] && RecordOf(calls, outs)[key] == Unix(calls[j].at)
  {
    var n := |calls| - 1;
    if outs[n] && calls[n].key == key { j := n; } else { j := RecordIsTrue(calls[..n], outs[..n], key); }
  }

  /** The record is never older than a true answer. */
  lemma {:induction false} RecordIsLatest(calls: seq<Call>, outs: seq<bool>, j: nat)
    requires ClockForward(calls) && |outs| == |calls| && j < |calls| && outs[j]
    ensures calls[j].key in RecordOf(calls, outs) && Unix(calls[j].at) <= RecordOf(calls, outs)[calls[j].key]
  {
    var n := |calls| - 1;
    if j < n {
      assert forall i :: 0 <= i < n ==> calls[..n][i] == calls[i];
      RecordIsLatest(calls[..n], outs[..n], j);
      UnixMonotone(calls[j].at, calls[n].at);
    }
  }

  /** Answer `j` came true for the same key less than sixty whole seconds before call `i`. */
  ghost predicate RecentTrue(calls: seq<Call>, i: nat, j: nat)
    requires i < |calls|
  {
    j < i && calls[j].key == calls[i].key && Answer(calls, j) && Unix(calls[i].at) - Unix(calls[j].at) < 60
  }

  /** In every run, at any threshold: a call is held back only because of a recent true answer. */
  lemma HeldBackOnlyIfRecent(calls: seq<Call>, i: nat)
    requires ClockForward(calls) && i < |calls| && !Answer(calls, i)
    ensures exists j :: RecentTrue(calls, i, j)
  {
    var before := calls[..i];
    PrefixForward(calls, i);
    RunTruthful(before);
    var t := if i == 0 then calls[i].at else Latest(before);
    StepTruthful(GateAfter(before), Record(before), t, calls[i].key, calls[i].at);
    var j := RecordIsTrue(before, Answers(before), calls[i].key);
    AnswersAt(before, j);
    assert RecentTrue(calls, i, j);
  }

  /** Call `i` is answered as the plain throttle would. */
  ghost predicate Right(calls: seq<Call>, i: nat)
    requires i < |calls|
  {
    Answer(calls, i) <==> !exists j :: RecentTrue(calls, i, j)
  }

  /**
   The gate is the plain throttle: as long as no young entry was lost before it, and however often the
   generations rotate or the threshold doubles, a call is answered true if and only if its scope had
   no true answer within the last sixty whole seconds.
   */
  lemma {:induction false} ThrottlesExactly(calls: seq<Call>, i: nat)
    requires ClockForward(calls) && i < |calls| && forall j :: 0 <= j < i ==> !LossAt(calls, j)
    ensures Right(calls, i)
  {
    if !Answer(calls, i) {
      HeldBackOnlyIfRecent(calls, i);
    } else {
      var before := calls[..i];
      PrefixForward(calls, i);
      NoLossPrefix(calls, i);
      RunTruthful(before);
      RunForgetsOnlyOld(before);
      forall j | 0 <= j < i && calls[j].key == calls[i].key && Answer(calls, j) ensures !RecentTrue(calls, i, j) {
        assert before[j] == calls[j];
        AnswersAt(before, j);
        RecordIsLatest(before, Answers(before), j);
        TrueOnlyIfOld(GateAfter(before), Record(before), Latest(before), calls[i].key, calls[i].at);
      }
    }
  }

  /** Where nothing young was lost, a true answer means the scope has no young record. */
  lemma {:induction false} TrueOnlyIfOld(g: Gate, m: Times, t: int, key: string, now: int)
    requires Truthful(g, m, t) && ForgotOnlyOld(g, m, t) && t <= now && DueStep(g, key, now).1
    ensures key !in m || Unix(now) - m[key] >= THROTTLE_SECONDS
  {
    UnixMonotone(t, now);
  }

  /** A scope that is held back is carried over: the next rotation cannot drop it, whoever causes it. */
  lemma {:induction false} HeldBackIsCarriedOver(g: Gate, key: string, now: int, other: string, later: int)
    requires !DueStep(g, key, now).1 && other != key
    ensures var last := if key in Current(g) then Current(g)[key] else g.previous[key];
            var g' := DueStep(DueStep(g, key, now).0, other, later).0;
            Unix(later) - last < 60 ==> !DueStep(g', key, later).1
  {
  }

  // ---------------------------------------------------------------- the exact condition

  /** Whatever scope calls next, and whenever, after the first `n` calls, it is answered rightly. */
  ghost predicate AnyNextRight(calls: seq<Call>, n: nat)
    requires n <= |calls|
  {
    forall k, t :: (n == 0 || calls[n - 1].at <= t) ==> Right(calls[..n] + [Call(k, t)], n)
  }

  lemma {:induction false} NextForward(calls: seq<Call>, n: nat, c: Call)
    requires ClockForward(calls) && n <= |calls| && (n == 0 || calls[n - 1].at <= c.at)
    ensures ClockForward(calls[..n] + [c]) && (calls[..n] + [c])[..n] == calls[..n]
    ensures forall j :: 0 <= j < n ==> (calls[..n] + [c])[..j] == calls[..j] && (calls[..n] + [c])[j] == calls[j]
  {
    var more := calls[..n] + [c];
    forall i, j | 0 <= i < j < |more| ensures more[i].at <= more[j].at {
      if j < n { assert more[i] == calls[i] && more[j] == calls[j]; } else { assert more[i] == calls[i] && calls[i].at <= calls[n - 1].at; }
    }
  }

  lemma {:induction false} NoLossIsRight(calls: seq<Call>, n: nat)
    requires ClockForward(calls) && NoLoss(calls) && n <= |calls|
    ensures AnyNextRight(calls, n)
  {
    forall k, t | n == 0 || calls[n - 1].at <= t ensures Right(calls[..n] + [Call(k, t)], n) {
      var more := calls[..n] + [Call(k, t)];
      NextForward(calls, n, Call(k, t));
      forall j | 0 <= j < n ensures !LossAt(more, j) { assert !LossAt(calls, j); }
      ThrottlesExactly(more, n);
    }
  }

  /** The gate after an early rotation knows nothing of a dropped entry and answers true. */
  lemma {:induction false} DroppedIsDue(g: Gate, key: string, now: int, k: string)
    requires RotatesEarly(g, key, now) && IsYoung(g, now, k)
    ensures DueStep(DueStep(g, key, now).0, k, now).1
  {
  }

  /** An early rotation that drops a young entry makes the next call of that entry's scope wrong. */
  lemma {:induction false} LossIsWrong(calls: seq<Call>, j: nat)
    requires ClockForward(calls) && j < |calls| && LossAt(calls, j)
    ensures !AnyNextRight(calls, j + 1)
  {
    var before, c := calls[..j], calls[j];
    var g := GateAfter(before);
    var k :| IsYoung(g, c.at, k);
    var more := calls[..j + 1] + [Call(k, c.at)];
    NextForward(calls, j + 1, Call(k, c.at));
    assert calls[..j + 1][..j] == before;
    DroppedIsDue(g, c.key, c.at, k);
    assert Answer(more, j + 1);
    PrefixForward(calls, j);
    RunTruthful(before);
    var i := RecordIsTrue(before, Answers(before), k);
    AnswersAt(before, i);
    assert before[..i] == calls[..i] && more[..i] == calls[..i];
    assert RecentTrue(more, j + 1, i);
    assert !Right(calls[..j + 1] + [Call(k, c.at)], j + 1);
  }

  /**
   The throttle is exact along a run, whatever scope calls next at any point of it, if and only if no
   call of the run, arriving unknown at a full gate at its ceiling less than a throttle after the last
   rotation, made it drop an entry younger than the throttle.
   */
  lemma {:induction false} ThrottlesIff(calls: seq<Call>)
    requires ClockForward(calls)
    ensures (forall n :: 0 <= n <= |calls| ==> AnyNextRight(calls, n)) <==> NoLoss(calls)
  {
    if NoLoss(calls) {
      forall n | 0 <= n <= |calls| ensures AnyNextRight(calls, n) { NoLossIsRight(calls, n); }
    } else {
      var j :| 0 <= j < |calls| && LossAt(calls, j);
      LossIsWrong(calls, j);
      assert j + 1 <= |calls|;
    }
  }

  /** In particular nothing is lost while the threshold has not reached its ceiling. */
  lemma {:induction false} BelowCeilingLosesNothing(calls: seq<Call>)
    requires forall i :: 0 <= i < |calls| ==> GateAfter(calls[..i]).capacity < CAP_MAX
    ensures NoLoss(calls)
  {
    forall j | 0 <= j < |calls| ensures !LossAt(calls, j) { assert GateAfter(calls[..j]).capacity < CAP_MAX; }
  }

  // ---------------------------------------------------------------- a run that meets it

  type Naming = nat -> string

  ghost predicate Injective(key: Naming) { forall i: nat, j: nat :: i != j ==> key(i) != key(j) }

  /** The first `n` scopes, all at instant 0. */
  ghost function Crowd(key: Naming, n: nat): (calls: seq<Call>)
    ensures |calls| == n && forall i :: 0 <= i < n ==> calls[i] == Call(key(i), 0)
  {
    seq(n, i requires 0 <= i < n => Call(key(i), 0))
  }

  /** A generation that holds the scopes from `a` up to `b`, all written at second 0. */
  ghost function Range(key: Naming, a: nat, b: nat): Times
    requires a <= b
  {
    if a == b then map[] else Range(key, a, b - 1)[key(b - 1) := 0]
  }

  lemma {:induction false} InRange(key: Naming, a: nat, b: nat, i: nat)
    requires Injective(key) && a <= b
    ensures key(i) in Range(key, a, b) <==> a <= i < b
    ensures a <= i < b ==> Range(key, a, b)[key(i)] == 0
    decreases b
  {
    if a < b {
      InRange(key, a, b - 1, i);
      assert i != b - 1 ==> key(i) != key(b - 1);
    }
  }

  lemma {:induction false} RangeSize(key: Naming, a: nat, b: nat)
    requires Injective(key) && a <= b
    ensures |Range(key, a, b)| == b - a
    decreases b
  {
    if a < b {
      RangeSize(key, a, b - 1);
      InRange(key, a, b - 1, b - 1);
    }
  }

  predicate IsThreshold(capacity: nat) {
    capacity == 4096 || capacity == 8192 || capacity == 16384 || capacity == 32768 || capacity == CAP_MAX
  }

  /** Before the first rotation `n` scopes are in one generation. */
  ghost function Filling(key: Naming, n: nat): Gate { Gate(Some(Range(key, 0, n)), map[], None, CAP_BASE) }

  /** After it the first `base` are in the previous one. */
  ghost function Grown(key: Naming, base: nat, n: nat, capacity: nat): Gate
    requires base <= n
  {
    Gate(Some(Range(key, base, n)), Range(key, 0, base), Some(0), capacity)
  }

  lemma {:induction false} Fills(key: Naming, n: nat)
    requires Injective(key) && n < CAP_BASE
    ensures DueStep(Filling(key, n), key(n), 0).0 == Filling(key, n + 1)
  {
    InRange(key, 0, n, n);
    RangeSize(key, 0, n);
  }

  lemma {:induction false} RotatesFirst(key: Naming, base: nat)
    requires Injective(key) && base == CAP_BASE
    ensures DueStep(Filling(key, base), key(base), 0).0 == Grown(key, base, base + 1, CAP_BASE)
  {
    InRange(key, 0, base, base);
    RangeSize(key, 0, base);
    RotateStep(Range(key, 0, base), key(base));
    assert Range(key, base, base + 1) == Range(key, base, base)[key(base) := 0] == map[key(base) := 0];
  }

  lemma {:induction false} RotateStep(current: Times, k: string)
    requires k !in current && |current| >= CAP_BASE
    ensures DueStep(Gate(Some(current), map[], None, CAP_BASE), k, 0).0 == Gate(Some(map[k := 0]), current, Some(0), CAP_BASE)
  {
  }

  lemma {:induction false} Grows(key: Naming, base: nat, n: nat, capacity: nat) returns (capacity': nat)
    requires Injective(key) && base < n < base + CAP_MAX && IsThreshold(capacity) && n - base <= capacity
    ensures IsThreshold(capacity') && n + 1 - base <= capacity'
    ensures DueStep(Grown(key, base, n, capacity), key(n), 0).0 == Grown(key, base, n + 1, capacity')
  {
    InRange(key, base, n, n);
    InRange(key, 0, base, n);
    RangeSize(key, base, n);
    capacity' := if n - base < capacity then capacity else 2 * capacity;
  }

  lemma {:induction false} CrowdStep(key: Naming, n: nat)
    requires n > 0
    ensures Crowd(key, n)[..n - 1] == Crowd(key, n - 1)
    ensures GateAfter(Crowd(key, n)) == DueStep(GateAfter(Crowd(key, n - 1)), key(n - 1), 0).0
  {
    assert Crowd(key, n)[..n - 1] == Crowd(key, n - 1);
  }

  lemma {:induction false} CrowdFills(key: Naming, n: nat)
    requires Injective(key) && 1 <= n <= CAP_BASE
    ensures GateAfter(Crowd(key, n)) == Filling(key, n)
  {
    CrowdStep(key, n);
    if n == 1 {
      assert Crowd(key, 0) == [];
      assert Range(key, 0, 1) == Range(key, 0, 0)[key(0) := 0] == map[key(0) := 0];
    } else {
      CrowdFills(key, n - 1);
      Fills(key, n - 1);
    }
  }

  lemma {:induction false} CrowdGrows(key: Naming, base: nat, n: nat) returns (capacity: nat)
    requires Injective(key) && base == CAP_BASE && base < n <= base + CAP_MAX
    ensures IsThreshold(capacity) && n - base <= capacity && GateAfter(Crowd(key, n)) == Grown(key, base, n, capacity)
  {
    CrowdStep(key, n);
    if n == base + 1 {
      CrowdFills(key, base);
      RotatesFirst(key, base);
      capacity := CAP_BASE;
    } else {
      var before := CrowdGrows(key, base, n - 1);
      capacity := Grows(key, base, n - 1, before);
    }
  }

  const CROWD: nat := 4096 + 65536

  lemma {:induction false} CrowdIsFull(key: Naming, base: nat, crowd: nat)
    requires Injective(key) && base == CAP_BASE && crowd == CROWD
    ensures var g := Grown(key, base, crowd, CAP_MAX); RotatesEarly(g, key(crowd), 0) && IsYoung(g, 0, key(0))
  {
    RangeSize(key, base, crowd);
    InRange(key, base, crowd, crowd);
    InRange(key, 0, base, crowd);
    InRange(key, base, crowd, 0);
    InRange(key, 0, base, 0);
  }

  /** One scope more than the two generations hold makes the gate rotate early and drop the first ones. */
  lemma {:induction false} FirstIsDropped(key: Naming, base: nat, crowd: nat)
    requires Injective(key) && base == CAP_BASE && crowd == CROWD
    ensures LossAt(Crowd(key, crowd + 1), crowd)
    ensures DueStep(GateAfter(Crowd(key, crowd + 1)), key(0), 0).1
  {
    var capacity := CrowdGrows(key, base, crowd);
    assert capacity == CAP_MAX;
    CrowdStep(key, crowd + 1);
    CrowdIsFull(key, base, crowd);
    DroppedIsDue(Grown(key, base, crowd, capacity), key(crowd), 0, key(0));
  }

  /** Users numbered in decimal. */
  function UserKey(): Naming { (i: nat) => GateKey("user", Itoa(i)) }

  lemma {:induction false} UserKeysDiffer()
    ensures Injective(UserKey())
  {
    forall i: nat, j: nat | i != j ensures UserKey()(i) != UserKey()(j) {
      if UserKey()(i) == UserKey()(j) {
        GateKeyInjective("user", Itoa(i), "user", Itoa(j));
        AtoiOfItoa(i);
        AtoiOfItoa(j);
      }
    }
  }

  /**
   The ceiling can be met: 4096 + 65536 + 1 users at one instant, and then the first of them again, who
   is answered true a second time at once.
   */
  lemma {:induction false} CeilingRun(crowd: nat) returns (calls: seq<Call>)
    requires crowd == CROWD
    ensures ClockForward(calls) && |calls| == crowd + 2
    ensures forall i :: 0 <= i < |calls| ==> calls[i] == Call(GateKey("user", Itoa(if i <= crowd then i else 0)), 0)
    ensures Answer(calls, 0) && Answer(calls, crowd + 1) && RecentTrue(calls, crowd + 1, 0)
    ensures LossAt(calls, crowd)
  {
    var key := UserKey();
    UserKeysDiffer();
    calls := Crowd(key, crowd + 1) + [Call(key(0), 0)];
    FirstIsDropped(key, CAP_BASE, crowd);
    assert calls[..crowd + 1] == Crowd(key, crowd + 1);
    assert calls[..crowd] == Crowd(key, crowd + 1)[..crowd];
    assert calls[0] == Call(key(0), 0) && calls[..0] == [];
    assert Answer(calls, 0);
  }
}
