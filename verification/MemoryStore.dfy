/**
 The in-process counter store: expiring entries, an opportunistic sweep, and lifetimes cut to a
 ceiling but never below a window's floor. `ReadsTheSum` says that, for windowed counters, none of
 that is visible: until the key's lifetime has passed since the bucket began, which is after the bucket
 has ended, a key reads as the sum of everything ever added to it.
 */
module MemoryStoreModel {
  import opened Common
  import opened Calendar
  import opened Int64

  const SWEEP_EVERY: int := 30 * SECOND
  const MAX_TTL: int := 48 * HOUR

  /** clampTTL: the ceiling first, then the floor, which wins. */
  function ClampTTL(ttl: int, enforceTTL: int): (r: int)
    ensures r >= enforceTTL
    ensures r <= Max(MAX_TTL, enforceTTL)
    ensures ttl >= enforceTTL ==> r <= ttl
    ensures r == enforceTTL || r == ttl || r == MAX_TTL
    ensures r >= ttl || r >= MAX_TTL
  {
    var capped := if ttl > MAX_TTL then MAX_TTL else ttl;
    if capped < enforceTTL then enforceTTL else capped
  }

  /** How long a counter of this window stays in the store: two minutes, two days, or 32 days for a month. */
  function Lifetime(w: Window): (t: int)
    ensures EnforceTTL(w) <= t <= Max(MAX_TTL, EnforceTTL(w))
    ensures t == match w case Min => 2 * MINUTE case Hour => 48 * HOUR case Day => 48 * HOUR case Month => 32 * DAY
  {
    ClampTTL(WindowTTL(w), EnforceTTL(w))
  }

  datatype Entry = Entry(expiry: int, value: int)

  type Data = map<string, Entry>

  /** The contents of a store; `lastSweep` is None until the first write. */
  datatype Image = Image(data: Data, lastSweep: Option<int>)

  datatype Op =
    | Incr(key: string, delta: int, ttl: int, enforceTTL: int)
    | Set(key: string, value: int, ttl: int, enforceTTL: int)

  datatype Event = Event(at: int, op: Op)

  function Swept(d: Data, now: int): Data { map k | k in d && now < d[k].expiry :: d[k] }

  function SweepIfDue(s: Image, now: int): Image {
    if s.lastSweep.None? || now - s.lastSweep.value >= SWEEP_EVERY then Image(Swept(s.data, now), Some(now)) else s
  }

  function Lookup(s: Image, key: string, now: int): int {
    if key in s.data && now < s.data[key].expiry then s.data[key].value else 0
  }

  function AfterIncr(s: Image, key: string, n: int, ttl: int, now: int): Image {
    var s' := SweepIfDue(s, now);
    var e := if key in s'.data && now < s'.data[key].expiry then s'.data[key] else Entry(now + ttl, 0);
    s'.(data := s'.data[key := e.(value := Wrap(e.value + n))])
  }

  function AfterSet(s: Image, key: string, v: int, ttl: int, now: int): Image {
    var s' := SweepIfDue(s, now);
    s'.(data := s'.data[key := Entry(now + ttl, v)])
  }

  function After(s: Image, e: Event): Image {
    match e.op
    case Incr(key, n, ttl, floor) => AfterIncr(s, key, n, ClampTTL(ttl, floor), e.at)
    case Set(key, v, ttl, floor) => AfterSet(s, key, v, ClampTTL(ttl, floor), e.at)
  }

  function RunStore(s: Image, events: seq<Event>): Image {
    if events == [] then s else After(RunStore(s, events[..|events| - 1]), events[|events| - 1])
  }

  const EMPTY: Image := Image(map[], None)

  // ---------------------------------------------------------------- the store

  class MemoryStore {
    var data: Data
    var lastSweep: Option<int>

    ghost function Contents(): Image reads this { Image(data, lastSweep) }

    constructor ()
      ensures Contents() == EMPTY
    {
      data := map[];
      lastSweep := None;
    }

    /** sweepLocked. */
    method SweepLocked(now: int)
      modifies this`data
      ensures data == Swept(old(data), now)
    {
      var keys := data.Keys;
      while keys != {}
        invariant forall k :: k in data <==> k in old(data) && (k in keys || now < old(data)[k].expiry)
        invariant forall k :: k in data ==> data[k] == old(data)[k]
        invariant keys <= old(data).Keys
        decreases keys
      {
        var k :| k in keys;
        keys := keys - {k};
        if !(now < data[k].expiry) { data := data - {k}; }
      }
    }

    method ApplyIncr(key: string, n: int, ttl: int, now: int) returns (v: int)
      modifies this
      ensures Contents() == AfterIncr(old(Contents()), key, n, ttl, now)
      ensures key in data && v == data[key].value
    {
      if lastSweep.None? || now - lastSweep.value >= SWEEP_EVERY {
        SweepLocked(now);
        lastSweep := Some(now);
      }
      if !(key in data) || !(now < data[key].expiry) {
        data := data[key := Entry(now + ttl, 0)];
      }
      data := data[key := Entry(data[key].expiry, Wrap(data[key].value + n))];
      v := data[key].value;
    }

    method ApplySet(key: string, v: int, ttl: int, now: int)
      modifies this
      ensures Contents() == AfterSet(old(Contents()), key, v, ttl, now)
    {
      if lastSweep.None? || now - lastSweep.value >= SWEEP_EVERY {
        SweepLocked(now);
        lastSweep := Some(now);
      }
      data := data[key := Entry(now + ttl, v)];
    }

    method Get(key: string, now: int) returns (v: int)
      ensures v == Lookup(Contents(), key, now)
    {
      if !(key in data) || !(now < data[key].expiry) { return 0; }
      return data[key].value;
    }

    /** incrMulti: every entry takes its own reading of the clock. */
    method IncrMulti(events: seq<Event>) returns (vals: seq<int>)
      modifies this
      ensures Contents() == RunStore(old(Contents()), events)
      ensures |vals| == |events|
      ensures forall i :: 0 <= i < |events| && events[i].op.Incr? ==>
                var s := RunStore(old(Contents()), events[..i + 1]);
                events[i].op.key in s.data && vals[i] == s.data[events[i].op.key].value
    {
      vals := [];
      for i := 0 to |events|
        invariant |vals| == i
        invariant Contents() == RunStore(old(Contents()), events[..i])
        invariant forall j :: 0 <= j < i && events[j].op.Incr? ==>
                    var s := RunStore(old(Contents()), events[..j + 1]);
                    events[j].op.key in s.data && vals[j] == s.data[events[j].op.key].value
      {
        assert events[..i + 1][..i] == events[..i];
        match events[i].op {
          case Incr(key, n, ttl, floor) =>
            var v := ApplyIncr(key, n, ClampTTL(ttl, floor), events[i].at);
            vals := vals + [v];
          case Set(key, v, ttl, floor) =>
            ApplySet(key, v, ClampTTL(ttl, floor), events[i].at);
            vals := vals + [v];
        }
      }
      assert events[..|events|] == events;
    }
  }

  // ---------------------------------------------------------------- the never-expiring reference

  /** Everything ever added under a key. */
  function SumFor(events: seq<Event>, key: string): int {
    if events == [] then 0
    else SumFor(events[..|events| - 1], key) +
         var op := events[|events| - 1].op;
         if op.Incr? && op.key == key then op.delta else 0
  }

  /** Every write of the key is an increment with its window's lifetimes, at or after the bucket began. */
  ghost predicate WindowWrites(events: seq<Event>, key: string, w: Window, b: int) {
    forall i :: 0 <= i < |events| && events[i].op.key == key ==>
      events[i].op.Incr? && events[i].at >= BucketStart(w, b) &&
      events[i].op.ttl == WindowTTL(w) && events[i].op.enforceTTL == EnforceTTL(w)
  }

  ghost predicate Written(events: seq<Event>, key: string) {
    exists i :: 0 <= i < |events| && events[i].op.key == key
  }

  /** What holds of a windowed key in the store: absent until written, then alive past the floor with its sum. */
  ghost predicate Holds(s: Image, events: seq<Event>, key: string, horizon: int) {
    if Written(events, key)
    then key in s.data && s.data[key].expiry >= horizon && s.data[key].value == Wrap(SumFor(events, key))
    else key !in s.data && SumFor(events, key) == 0
  }

  lemma SweepKeeps(s: Image, now: int, key: string, horizon: int)
    requires now < horizon
    ensures key !in s.data ==> key !in SweepIfDue(s, now).data
    ensures key in s.data && s.data[key].expiry >= horizon ==>
              key in SweepIfDue(s, now).data && SweepIfDue(s, now).data[key] == s.data[key]
  {
  }

  lemma {:induction false} WrittenAppend(events: seq<Event>, e: Event, key: string)
    ensures Written(events + [e], key) <==> Written(events, key) || e.op.key == key
    ensures SumFor(events + [e], key) == SumFor(events, key) + if e.op.Incr? && e.op.key == key then e.op.delta else 0
  {
    var all := events + [e];
    assert all[..|events|] == events && all[|events|] == e;
    if Written(events, key) {
      var i :| 0 <= i < |events| && events[i].op.key == key;
      assert all[i].op.key == key;
    }
  }

  lemma OwnWriteHolds(s: Image, events: seq<Event>, e: Event, horizon: int)
    requires e.op.Incr? && Holds(s, events, e.op.key, horizon)
    requires e.at < horizon <= e.at + ClampTTL(e.op.ttl, e.op.enforceTTL)
    ensures Holds(After(s, e), events + [e], e.op.key, horizon)
  {
    WrittenAppend(events, e, e.op.key);
    SweepKeeps(s, e.at, e.op.key, horizon);
    WrapAdd(SumFor(events, e.op.key), e.op.delta);
  }

  lemma OtherWriteHolds(s: Image, events: seq<Event>, e: Event, key: string, horizon: int)
    requires e.op.key != key && Holds(s, events, key, horizon) && e.at < horizon
    ensures Holds(After(s, e), events + [e], key, horizon)
  {
    WrittenAppend(events, e, key);
    SweepKeeps(s, e.at, key, horizon);
  }

  lemma {:induction false} StoreHolds(events: seq<Event>, key: string, w: Window, b: int)
    requires WindowWrites(events, key, w, b)
    requires forall i :: 0 <= i < |events| ==> events[i].at < BucketStart(w, b) + Lifetime(w)
    ensures Holds(RunStore(EMPTY, events), events, key, BucketStart(w, b) + Lifetime(w))
  {
    if events != [] {
      var n := |events| - 1;
      var before, e := events[..n], events[n];
      assert forall i :: 0 <= i < n ==> before[i] == events[i];
      StoreHolds(before, key, w, b);
      assert events == before + [e];
      var horizon := BucketStart(w, b) + Lifetime(w);
      if e.op.key == key {
        OwnWriteHolds(RunStore(EMPTY, before), before, e, horizon);
      } else {
        OtherWriteHolds(RunStore(EMPTY, before), before, e, key, horizon);
      }
    }
  }

  /**
   For every run, reading a windowed key gives the int64 sum of all deltas ever applied to it, whatever
   other keys were written and whenever sweeps fired, at any time before its lifetime has passed since its
   bucket began. The clock need not even be monotone: it is enough that no write is later than the read.
   */
  lemma {:induction false} ReadsTheSum(events: seq<Event>, key: string, w: Window, b: int, now: int)
    requires WindowWrites(events, key, w, b)
    requires forall i :: 0 <= i < |events| ==> events[i].at <= now
    requires now < BucketStart(w, b) + Lifetime(w)
    ensures Lookup(RunStore(EMPTY, events), key, now) == Wrap(SumFor(events, key))
  {
    StoreHolds(events, key, w, b);
  }

  // ---------------------------------------------------------------- every key, at every time

  /** The entry a key's own writes alone would leave. */
  function Life(events: seq<Event>, key: string): Option<Entry> {
    if events == [] then None
    else
      var e, before := events[|events| - 1], Life(events[..|events| - 1], key);
      if e.op.key != key then before
      else
        var expiry := e.at + ClampTTL(e.op.ttl, e.op.enforceTTL);
        match e.op
        case Set(_, v, _, _) => Some(Entry(expiry, v))
        case Incr(_, n, _, _) =>
          if before.Some? && e.at < before.value.expiry then Some(Entry(before.value.expiry, Wrap(before.value.value + n)))
          else Some(Entry(expiry, Wrap(n)))
  }

  /** What the store holds of a key is its life; what it dropped is over. */
  ghost predicate Mirrors(s: Image, life: Option<Entry>, key: string, latest: int) {
    if key in s.data then life == Some(s.data[key]) else life.None? || life.value.expiry <= latest
  }

  lemma {:induction false} WriteMirrors(s: Image, events: seq<Event>, e: Event, key: string, latest: int)
    requires Mirrors(s, Life(events, key), key, latest) && latest <= e.at
    ensures Mirrors(After(s, e), Life(events + [e], key), key, e.at)
  {
    assert (events + [e])[..|events|] == events;
    SweepMirrors(s, Life(events, key), key, latest, e.at);
  }

  lemma {:induction false} SweepMirrors(s: Image, life: Option<Entry>, key: string, latest: int, now: int)
    requires Mirrors(s, life, key, latest) && latest <= now
    ensures Mirrors(SweepIfDue(s, now), life, key, now)
  {
  }

  ghost predicate ClockForward(events: seq<Event>) { forall i, j :: 0 <= i < j < |events| ==> events[i].at <= events[j].at }

  lemma {:induction false} RunMirrors(events: seq<Event>, key: string, now: int)
    requires ClockForward(events) && forall i :: 0 <= i < |events| ==> events[i].at <= now
    ensures Mirrors(RunStore(EMPTY, events), Life(events, key), key, now)
  {
    if events != [] {
      var n := |events| - 1;
      var before, e := events[..n], events[n];
      assert forall i :: 0 <= i < n ==> before[i] == events[i];
      RunMirrors(before, key, e.at);
      assert events == before + [e];
      WriteMirrors(RunStore(EMPTY, before), before, e, key, e.at);
    }
  }

  /**
   With a clock that never goes back, every key of any kind reads at every time exactly as its own
   writes alone would have it: sweeps and other keys are never seen.
   */
  lemma {:induction false} ReadsItsOwnLife(events: seq<Event>, key: string, now: int)
    requires ClockForward(events) && forall i :: 0 <= i < |events| ==> events[i].at <= now
    ensures var life := Life(events, key);
            Lookup(RunStore(EMPTY, events), key, now) == if life.Some? && now < life.value.expiry then life.value.value else 0
  {
    RunMirrors(events, key, now);
  }

  /** Every write of the key is an increment with this lifetime, at or after `t0` and before its end. */
  ghost predicate InOneLife(events: seq<Event>, key: string, t0: int, life: int) {
    forall i :: 0 <= i < |events| && events[i].op.key == key ==>
      events[i].op.Incr? && ClampTTL(events[i].op.ttl, events[i].op.enforceTTL) == life && t0 <= events[i].at < t0 + life
  }

  /** The first write of the key is at `t0`. */
  ghost predicate FirstAt(events: seq<Event>, key: string, t0: int) {
    exists i :: 0 <= i < |events| && events[i].op.key == key && events[i].at == t0 &&
                forall j :: 0 <= j < i ==> events[j].op.key != key
  }

  lemma {:induction false} NoLifeUnwritten(events: seq<Event>, key: string)
    requires !Written(events, key)
    ensures Life(events, key).None?
  {
    if events != [] {
      var n := |events| - 1;
      var before, e := events[..n], events[n];
      assert forall i :: 0 <= i < n ==> before[i] == events[i];
      assert events == before + [e];
      WrittenAppend(before, e, key);
      NoLifeUnwritten(before, key);
    }
  }

  lemma {:induction false} LifeEnds(events: seq<Event>, key: string, t0: int, life: int)
    requires InOneLife(events, key, t0, life) && FirstAt(events, key, t0)
    ensures Life(events, key).Some? && Life(events, key).value.expiry == t0 + life
  {
    var n := |events| - 1;
    var before, e := events[..n], events[n];
    assert forall i :: 0 <= i < n ==> before[i] == events[i];
    var i :| 0 <= i < |events| && events[i].op.key == key && events[i].at == t0 && forall j :: 0 <= j < i ==> events[j].op.key != key;
    if i < n {
      assert before[i].op.key == key;
      LifeEnds(before, key, t0, life);
    } else {
      NoLifeUnwritten(before, key);
    }
  }

  /** An increment never extends a life: a counter is gone one lifetime after its first increment. */
  lemma {:induction false} GoneOnSchedule(events: seq<Event>, key: string, t0: int, life: int, now: int)
    requires ClockForward(events) && (forall i :: 0 <= i < |events| ==> events[i].at <= now)
    requires InOneLife(events, key, t0, life) && FirstAt(events, key, t0)
    ensures now >= t0 + life ==> Lookup(RunStore(EMPTY, events), key, now) == 0
  {
    LifeEnds(events, key, t0, life);
    ReadsItsOwnLife(events, key, now);
  }

  /** A set value is read until its lifetime ends, and setting it hides no other live key. */
  lemma {:induction false} SetIsRead(s: Image, key: string, v: int, ttl: int, at: int, other: string, now: int)
    requires now >= at
    ensures Lookup(AfterSet(s, key, v, ttl, at), key, now) == if now < at + ttl then v else 0
    ensures other != key ==> Lookup(AfterSet(s, key, v, ttl, at), other, now) == Lookup(s, other, now)
  {
  }

  /** In particular inside the key's own bucket, and for the slack of its window after it. */
  lemma {:induction false} ReadsTheSumInBucket(events: seq<Event>, key: string, w: Window, b: int, now: int, lag: int)
    requires WindowWrites(events, key, w, b)
    requires forall i :: 0 <= i < |events| ==> events[i].at <= now
    requires Bucket(now - lag, w) == b && 0 <= lag <= Slack(w)
    ensures Lookup(RunStore(EMPTY, events), key, now) == Wrap(SumFor(events, key))
  {
    BucketIff(now - lag, w, b);
    EnforceTTLCoversBucket(w, b);
    ReadsTheSum(events, key, w, b, now);
  }

  lemma OneWrite(at: int, key: string, ttl: int, floor: int, now: int)
    ensures Lookup(After(EMPTY, Event(at, Incr(key, 1, ttl, floor))), key, now) == if now < at + ClampTTL(ttl, floor) then 1 else 0
  {
    assert Swept(EMPTY.data, at) == map[];
  }

  lemma InsideMonth(b: int, elapsed: int)
    requires 0 <= elapsed < 28 * DAY
    ensures Bucket(BucketStart(Month, b) + elapsed, Month) == b
  {
    MonthStep(b);
    BucketIff(BucketStart(Month, b) + elapsed, Month, b);
  }

  /**
   Without the floor the ceiling would reach through: 49 hours into a month a key written at its start
   is gone, and with the floor it is not.
   */
  lemma FloorIsNeeded(b: int, key: string)
    ensures var start := BucketStart(Month, b);
            Bucket(start + 49 * HOUR, Month) == b &&
            Lookup(After(EMPTY, Event(start, Incr(key, 1, WindowTTL(Month), 0))), key, start + 49 * HOUR) == 0 &&
            Lookup(After(EMPTY, Event(start, Incr(key, 1, WindowTTL(Month), EnforceTTL(Month)))), key, start + 49 * HOUR) == 1
  {
    var start := BucketStart(Month, b);
    InsideMonth(b, 49 * HOUR);
    OneWrite(start, key, WindowTTL(Month), 0, start + 49 * HOUR);
    OneWrite(start, key, WindowTTL(Month), EnforceTTL(Month), start + 49 * HOUR);
  }
}
