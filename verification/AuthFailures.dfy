/**
 The failed-authentication tracker: a fixed-window count per source in two bounded generations. Over
 every run it holds at most 50,000 sources per generation and never over-counts; while the sources fit
 in one generation it is the exact fixed-window count.
 */
module AuthFailuresModel {
  import opened Common
  import opened Calendar

  const WINDOW: int := MINUTE
  const CAP: nat := 50_000

  datatype Entry = Entry(count: int, expiry: int)

  type Generation = map<string, Entry>

  datatype Tracker = Tracker(current: Generation, previous: Generation)

  const EMPTY: Tracker := Tracker(map[], map[])

  function CountAt(t: Tracker, ip: string, now: int): int {
    if ip in t.current && now < t.current[ip].expiry then t.current[ip].count
    else if ip in t.previous && now < t.previous[ip].expiry then t.previous[ip].count
    else 0
  }

  function AfterFailure(t: Tracker, ip: string, now: int): Tracker {
    if ip in t.current then
      var e := t.current[ip];
      t.(current := t.current[ip := if now < e.expiry then Entry(e.count + 1, e.expiry) else Entry(1, now + WINDOW)])
    else if |t.current| >= CAP then Tracker(map[ip := Entry(1, now + WINDOW)], t.current)
    else t.(current := t.current[ip := Entry(1, now + WINDOW)])
  }

  class AuthFailureTracker {
    var current: Generation
    var previous: Generation

    ghost function Contents(): Tracker reads this { Tracker(current, previous) }

    constructor ()
      ensures Contents() == EMPTY
    {
      current, previous := map[], map[];
    }

    method Get(ip: string, now: int) returns (n: int)
      ensures n == CountAt(Contents(), ip, now)
    {
      if ip in current && now < current[ip].expiry { return current[ip].count; }
      if ip in previous && now < previous[ip].expiry { return previous[ip].count; }
      return 0;
    }

    method Increment(ip: string, now: int) returns (n: int)
      modifies this
      ensures Contents() == AfterFailure(old(Contents()), ip, now)
      ensures ip in current && n == current[ip].count
    {
      if ip in current {
        if now < current[ip].expiry {
          current := current[ip := Entry(current[ip].count + 1, current[ip].expiry)];
          return current[ip].count;
        }
        current := current[ip := Entry(1, now + WINDOW)];
        return 1;
      }
      if |current| >= CAP {
        previous := current;
        current := map[];
      }
      current := current[ip := Entry(1, now + WINDOW)];
      return 1;
    }
  }

  // ---------------------------------------------------------------- runs

  datatype Failure = Failure(ip: string, at: int)

  function After(fails: seq<Failure>): Tracker {
    if fails == [] then EMPTY
    else AfterFailure(After(fails[..|fails| - 1]), fails[|fails| - 1].ip, fails[|fails| - 1].at)
  }

  ghost predicate ClockForward(fails: seq<Failure>, now: int) {
    (forall i, j :: 0 <= i < j < |fails| ==> fails[i].at <= fails[j].at) &&
    forall i :: 0 <= i < |fails| ==> fails[i].at <= now
  }

  /** A failure of this source at or after an instant. */
  function Since(ip: string, from: int): Failure -> bool { (f: Failure) => f.ip == ip && f.at >= from }

  /** A failure of this source later than a minute before `now`. */
  function InLastMinute(ip: string, now: int): Failure -> bool { (f: Failure) => f.ip == ip && f.at > now - 60 * SECOND }

  lemma {:induction false} Bounded(fails: seq<Failure>)
    ensures |After(fails).current| <= 50_000 && |After(fails).previous| <= 50_000
  {
    if fails != [] {
      var n := |fails| - 1;
      Bounded(fails[..n]);
      var t, ip, now := After(fails[..n]), fails[n].ip, fails[n].at;
      if ip in t.current {
        assert t.current[ip := Entry(1, now + WINDOW)].Keys == t.current.Keys;
        assert AfterFailure(t, ip, now).current.Keys == t.current.Keys;
        SizeIsKeys(t.current);
        SizeIsKeys(AfterFailure(t, ip, now).current);
      } else {
        assert t.current[ip := Entry(1, now + WINDOW)].Keys == t.current.Keys + {ip};
        SizeIsKeys(t.current);
        SizeIsKeys(t.current[ip := Entry(1, now + WINDOW)]);
      }
    }
  }

  lemma SizeIsKeys(g: Generation)
    ensures |g| == |g.Keys|
  {
  }

  /** An entry counts failures that really happened inside its window. */
  ghost predicate Backed(fails: seq<Failure>, ip: string, e: Entry) {
    e.count <= CountOf(fails, Since(ip, e.expiry - WINDOW))
  }

  /** Every entry is backed, and no current window opened after `latest`. */
  ghost predicate AllBacked(t: Tracker, fails: seq<Failure>, latest: int) {
    (forall ip :: ip in t.current ==> Backed(fails, ip, t.current[ip]) && t.current[ip].expiry - WINDOW <= latest) &&
    (forall ip :: ip in t.previous ==> Backed(fails, ip, t.previous[ip]))
  }

  lemma BackedGrows(fails: seq<Failure>, f: Failure, ip: string, e: Entry)
    requires Backed(fails, ip, e)
    ensures Backed(fails + [f], ip, e)
    ensures f.ip == ip && f.at >= e.expiry - WINDOW ==> Backed(fails + [f], ip, Entry(e.count + 1, e.expiry))
  {
    CountAppend(fails, f, Since(ip, e.expiry - WINDOW));
  }

  lemma FreshBacked(fails: seq<Failure>, f: Failure)
    ensures Backed(fails + [f], f.ip, Entry(1, f.at + WINDOW))
  {
    CountAppend(fails, f, Since(f.ip, f.at));
  }

  lemma CurrentBacked(t: Tracker, fails: seq<Failure>, latest: int, f: Failure, ip: string)
    requires AllBacked(t, fails, latest) && latest <= f.at && ip in AfterFailure(t, f.ip, f.at).current
    ensures var e := AfterFailure(t, f.ip, f.at).current[ip];
            Backed(fails + [f], ip, e) && e.expiry - WINDOW <= f.at
  {
    FreshBacked(fails, f);
    if ip in t.current { BackedGrows(fails, f, ip, t.current[ip]); }
  }

  lemma PreviousBacked(t: Tracker, fails: seq<Failure>, latest: int, f: Failure, ip: string)
    requires AllBacked(t, fails, latest) && ip in AfterFailure(t, f.ip, f.at).previous
    ensures Backed(fails + [f], ip, AfterFailure(t, f.ip, f.at).previous[ip])
  {
    if ip in t.current { BackedGrows(fails, f, ip, t.current[ip]); }
    if ip in t.previous { BackedGrows(fails, f, ip, t.previous[ip]); }
  }

  lemma StepBacked(t: Tracker, fails: seq<Failure>, latest: int, f: Failure)
    requires AllBacked(t, fails, latest) && latest <= f.at
    ensures AllBacked(AfterFailure(t, f.ip, f.at), fails + [f], f.at)
  {
    var t' := AfterFailure(t, f.ip, f.at);
    forall ip | ip in t'.current ensures Backed(fails + [f], ip, t'.current[ip]) && t'.current[ip].expiry - WINDOW <= f.at {
      CurrentBacked(t, fails, latest, f, ip);
    }
    forall ip | ip in t'.previous ensures Backed(fails + [f], ip, t'.previous[ip]) {
      PreviousBacked(t, fails, latest, f, ip);
    }
  }

  lemma {:induction false} RunBacked(fails: seq<Failure>, now: int)
    requires ClockForward(fails, now)
    ensures AllBacked(After(fails), fails, now)
  {
    if fails != [] {
      var n := |fails| - 1;
      var before, f := fails[..n], fails[n];
      assert forall i :: 0 <= i < n ==> before[i] == fails[i];
      RunBacked(before, f.at);
      assert fails == before + [f];
      StepBacked(After(before), before, f.at, f);
    }
  }

  /** The reported count never exceeds the source's true failures of the last minute, rotations or not. */
  lemma {:induction false} NeverOvercounts(fails: seq<Failure>, ip: string, now: int)
    requires ClockForward(fails, now)
    ensures CountAt(After(fails), ip, now) <= CountOf(fails, InLastMinute(ip, now))
  {
    RunBacked(fails, now);
    BackedNeverOvercounts(After(fails), fails, ip, now);
  }

  lemma {:induction false} BackedNeverOvercounts(t: Tracker, fails: seq<Failure>, ip: string, now: int)
    requires ClockForward(fails, now) && AllBacked(t, fails, now)
    ensures CountAt(t, ip, now) <= CountOf(fails, InLastMinute(ip, now))
  {
    if ip in t.current && now < t.current[ip].expiry {
      EntryNeverOvercounts(fails, ip, t.current[ip], now);
    } else if ip in t.previous && now < t.previous[ip].expiry {
      EntryNeverOvercounts(fails, ip, t.previous[ip], now);
    }
  }

  lemma {:induction false} EntryNeverOvercounts(fails: seq<Failure>, ip: string, e: Entry, now: int)
    requires ClockForward(fails, now) && Backed(fails, ip, e) && now < e.expiry
    ensures e.count <= CountOf(fails, InLastMinute(ip, now))
  {
    CountMonotone(fails, Since(ip, e.expiry - WINDOW), InLastMinute(ip, now));
  }

  // ---------------------------------------------------------------- exactness

  /** The failure times of one source. */
  function TimesOf(fails: seq<Failure>, ip: string): seq<int> {
    if fails == [] then []
    else TimesOf(fails[..|fails| - 1], ip) + if fails[|fails| - 1].ip == ip then [fails[|fails| - 1].at] else []
  }

  /** A fixed window opens at a failure and counts for a minute; the first later failure opens the next. */
  function FixedWindow(times: seq<int>): Option<Entry> {
    if times == [] then None
    else
      var f := times[|times| - 1];
      match FixedWindow(times[..|times| - 1])
      case None => Some(Entry(1, f + 60 * SECOND))
      case Some(e) => if f < e.expiry then Some(Entry(e.count + 1, e.expiry)) else Some(Entry(1, f + 60 * SECOND))
  }

  function Sources(fails: seq<Failure>): set<string> { set i | 0 <= i < |fails| :: fails[i].ip }

  ghost predicate IsFixedWindow(t: Tracker, fails: seq<Failure>) {
    t.previous == map[] && t.current.Keys == Sources(fails) &&
    forall ip :: FixedWindow(TimesOf(fails, ip)) == if ip in t.current then Some(t.current[ip]) else None
  }

  lemma {:induction false} TimesStep(fails: seq<Failure>, f: Failure, ip: string)
    ensures TimesOf(fails + [f], ip) == TimesOf(fails, ip) + if f.ip == ip then [f.at] else []
    ensures FixedWindow(TimesOf(fails, ip) + [f.at]) ==
            match FixedWindow(TimesOf(fails, ip))
            case None => Some(Entry(1, f.at + WINDOW))
            case Some(e) => if f.at < e.expiry then Some(Entry(e.count + 1, e.expiry)) else Some(Entry(1, f.at + WINDOW))
  {
    assert (fails + [f])[..|fails|] == fails;
    var times := TimesOf(fails, ip);
    assert (times + [f.at])[..|times|] == times;
  }

  lemma SourcesStep(fails: seq<Failure>, f: Failure)
    ensures Sources(fails + [f]) == Sources(fails) + {f.ip}
  {
    var all := fails + [f];
    assert all[|fails|] == f;
    forall ip ensures ip in Sources(all) <==> ip in Sources(fails) + {f.ip} {
      if ip in Sources(fails) {
        var i :| 0 <= i < |fails| && fails[i].ip == ip;
        assert all[i].ip == ip;
      }
    }
  }

  lemma {:induction false} EntryFixedWindow(t: Tracker, fails: seq<Failure>, f: Failure, ip: string)
    requires FixedWindow(TimesOf(fails, ip)) == if ip in t.current then Some(t.current[ip]) else None
    requires f.ip in t.current || |t.current| < CAP
    ensures var t' := AfterFailure(t, f.ip, f.at);
            FixedWindow(TimesOf(fails + [f], ip)) == if ip in t'.current then Some(t'.current[ip]) else None
  {
    TimesStep(fails, f, ip);
    if ip != f.ip { assert TimesOf(fails + [f], ip) == TimesOf(fails, ip); }
  }

  lemma StepFixedWindow(t: Tracker, fails: seq<Failure>, f: Failure)
    requires IsFixedWindow(t, fails) && |Sources(fails + [f])| <= CAP
    ensures IsFixedWindow(AfterFailure(t, f.ip, f.at), fails + [f])
  {
    SourcesStep(fails, f);
    SizeIsKeys(t.current);
    if f.ip !in t.current { assert |Sources(fails) + {f.ip}| == |Sources(fails)| + 1; }
    var t' := AfterFailure(t, f.ip, f.at);
    forall ip ensures FixedWindow(TimesOf(fails + [f], ip)) == if ip in t'.current then Some(t'.current[ip]) else None {
      EntryFixedWindow(t, fails, f, ip);
    }
  }

  lemma SourcesGrow(fails: seq<Failure>, n: nat)
    requires n <= |fails|
    ensures Sources(fails[..n]) <= Sources(fails) && |Sources(fails[..n])| <= |Sources(fails)|
  {
    var a, b := Sources(fails[..n]), Sources(fails);
    forall ip | ip in a ensures ip in b {
      var i :| 0 <= i < n && fails[..n][i].ip == ip;
      assert fails[i].ip == ip;
    }
    SubsetSize(a, b);
  }

  lemma SubsetSize(a: set<string>, b: set<string>)
    requires a <= b
    ensures |a| <= |b|
  {
    assert b == a + (b - a);
  }

  lemma {:induction false} RunFixedWindow(fails: seq<Failure>)
    requires |Sources(fails)| <= CAP
    ensures IsFixedWindow(After(fails), fails)
  {
    if fails != [] {
      var n := |fails| - 1;
      SourcesGrow(fails, n);
      RunFixedWindow(fails[..n]);
      assert fails == fails[..n] + [fails[n]];
      StepFixedWindow(After(fails[..n]), fails[..n], fails[n]);
    }
  }

  /** Until there are more sources than one generation holds, the count is the exact fixed-window count. */
  lemma {:induction false} ExactWhileItFits(fails: seq<Failure>, ip: string, now: int)
    requires |Sources(fails)| <= 50_000
    ensures CountAt(After(fails), ip, now) ==
            match FixedWindow(TimesOf(fails, ip))
            case None => 0
            case Some(e) => if now < e.expiry then e.count else 0
  {
    RunFixedWindow(fails);
  }

  // ---------------------------------------------------------------- through a rotation

  function RunFrom(t: Tracker, fails: seq<Failure>): Tracker {
    if fails == [] then t
    else AfterFailure(RunFrom(t, fails[..|fails| - 1]), fails[|fails| - 1].ip, fails[|fails| - 1].at)
  }

  /** Either nothing has rotated since and the entry is where it was, or once, and only these sources are newer. */
  ghost predicate StillHeld(t: Tracker, ip: string, e: Entry, fails: seq<Failure>) {
    (ip in t.current && t.current[ip] == e) ||
    (ip !in t.current && ip in t.previous && t.previous[ip] == e && t.current.Keys <= Sources(fails))
  }

  lemma {:induction false} StepStillHeld(t: Tracker, ip: string, e: Entry, fails: seq<Failure>, f: Failure)
    requires StillHeld(t, ip, e, fails) && f.ip != ip && |Sources(fails + [f])| <= CAP
    ensures StillHeld(AfterFailure(t, f.ip, f.at), ip, e, fails + [f])
  {
    SourcesStep(fails, f);
    SizeIsKeys(t.current);
    var t' := AfterFailure(t, f.ip, f.at);
    if ip !in t.current && f.ip !in t.current {
      SubsetSize(t.current.Keys + {f.ip}, Sources(fails + [f]));
      assert |t.current.Keys + {f.ip}| == |t.current.Keys| + 1;
    }
    if !(ip in t'.current) { assert t'.current.Keys <= Sources(fails + [f]); }
  }

  /**
   A source that fails no more keeps its count through a rotation: however the generations change, as
   long as no more other sources fail than one generation holds, it is reported until its window ends.
   */
  lemma {:induction false} KeptThroughRotation(t: Tracker, ip: string, fails: seq<Failure>, now: int)
    requires ip in t.current && now < t.current[ip].expiry
    requires ip !in Sources(fails) && |Sources(fails)| <= 50_000
    ensures CountAt(RunFrom(t, fails), ip, now) == t.current[ip].count
  {
    RunStillHeld(t, ip, fails);
  }

  lemma {:induction false} RunStillHeld(t: Tracker, ip: string, fails: seq<Failure>)
    requires ip in t.current && ip !in Sources(fails) && |Sources(fails)| <= CAP
    ensures StillHeld(RunFrom(t, fails), ip, t.current[ip], fails)
  {
    if fails != [] {
      var n := |fails| - 1;
      var before, f := fails[..n], fails[n];
      SourcesGrow(fails, n);
      RunStillHeld(t, ip, before);
      assert fails == before + [f] && f.ip in Sources(fails);
      StepStillHeld(RunFrom(t, before), ip, t.current[ip], before, f);
    }
  }
}
