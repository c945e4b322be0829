/**
 Reading counters back over spans of buckets: which buckets a span names, how spans tile, that every
 bucket a chart may ask for is still inside its retention, the conversion of month spans to day spans,
 and the chunked readers.
 */
module History {
  import opened Common
  import opened DivMod
  import opened Calendar
  import opened Keys
  import A = Admission

  // ---------------------------------------------------------------- stepping back

  /** historyStepBack; minutes have no history. */
  function StepBack(now: int, w: Window, i: int): int
    requires !w.Min?
  {
    match w
    case Hour => now - i * HOUR
    case Day => now - i * DAY
    case Month => BucketStart(Month, Bucket(now, Month) - i)
  }

  lemma FloorShift(t: int, k: int, i: int)
    requires k > 0
    ensures (t - i * k) / k == t / k - i
  {
    FloorBrackets(t, k);
    var q := t / k;
    assert (q - i) * k == q * k - i * k && (q - i + 1) * k == (q + 1) * k - i * k;
    FloorIff(t - i * k, k, q - i);
  }

  /** Stepping back `i` windows lands in the bucket `i` before, whatever the day of the month. */
  lemma StepBackBucket(now: int, w: Window, i: int)
    requires !w.Min?
    ensures Bucket(StepBack(now, w, i), w) == Bucket(now, w) - i
  {
    match w
    case Hour => FloorShift(now, HOUR, i);
    case Day => FloorShift(now, DAY, i);
    case Month =>
      var b := Bucket(now, Month) - i;
      BucketStartMonotone(Month, b, b + 1);
      BucketIff(BucketStart(Month, b), Month, b);
  }

  /** The buckets of a span ending `offset` windows before now, oldest first. */
  function SpanBuckets(now: int, w: Window, span: nat, offset: int): (bs: seq<int>)
    ensures |bs| == span
    ensures forall i :: 0 <= i < span ==> bs[i] == Bucket(now, w) - offset - (span - 1 - i)
  {
    seq(span, i requires 0 <= i < span => Bucket(now, w) - offset - (span - 1 - i))
  }

  function SpanKeys(kind: string, id: string, m: Metric, w: Window, now: int, span: nat, offset: int): (ks: seq<CounterKey>)
    ensures |ks| == span
    ensures forall i :: 0 <= i < span ==> ks[i] == CounterKey(kind, id, m, w, SpanBuckets(now, w, span, offset)[i])
  {
    seq(span, i requires 0 <= i < span => CounterKey(kind, id, m, w, SpanBuckets(now, w, span, offset)[i]))
  }

  /** Stepping back from `base` walks the span that ends `offset` windows before now. */
  ghost predicate EndsSpan(base: int, now: int, w: Window, offset: nat)
    requires !w.Min?
  {
    forall i :: Bucket(StepBack(base, w, i), w) == Bucket(now, w) - offset - i
  }

  /** Composing the two step-backs is one step-back by their sum. */
  lemma TwoStepsBack(now: int, w: Window, offset: nat)
    requires !w.Min?
    ensures EndsSpan(StepBack(now, w, offset), now, w, offset) && EndsSpan(now, now, w, 0)
  {
    forall i ensures Bucket(StepBack(StepBack(now, w, offset), w, i), w) == Bucket(now, w) - offset - i {
      StepBackBucket(now, w, offset);
      StepBackBucket(StepBack(now, w, offset), w, i);
    }
    forall i ensures Bucket(StepBack(now, w, i), w) == Bucket(now, w) - i { StepBackBucket(now, w, i); }
  }

  method BucketBack(base: int, w: Window, i: nat, ghost now: int, ghost offset: nat) returns (b: int)
    requires !w.Min? && EndsSpan(base, now, w, offset)
    ensures b == Bucket(now, w) - offset - i
  {
    b := Bucket(StepBack(base, w, i), w);
  }

  /** The loop of historyBucketKeysAt. */
  method KeysBackFrom(kind: string, id: string, m: Metric, w: Window, base: int, span: nat, ghost now: int, ghost offset: nat)
    returns (keys: seq<CounterKey>, buckets: seq<int>)
    requires !w.Min? && EndsSpan(base, now, w, offset)
    ensures keys == SpanKeys(kind, id, m, w, now, span, offset)
    ensures buckets == SpanBuckets(now, w, span, offset)
  {
    ghost var all := SpanKeys(kind, id, m, w, now, span, offset);
    ghost var names := SpanBuckets(now, w, span, offset);
    keys, buckets := [], [];
    for i := 0 to span
      invariant keys == all[..i]
      invariant buckets == names[..i]
    {
      var b := BucketBack(base, w, span - 1 - i, now, offset);
      assert b == names[i];
      keys := keys + [CounterKey(kind, id, m, w, b)];
      buckets := buckets + [b];
    }
  }

  /**
   historyBucketKeysAt: composing the two step-backs names exactly the buckets of the span. A bucket
   stands for its label, which `LabelInjective` and `SpanLabelsDistinct` justify.
   */
  method HistoryBucketKeysAt(kind: string, id: string, m: Metric, w: Window, now: int, span: nat, offset: nat)
    returns (keys: seq<CounterKey>, buckets: seq<int>)
    requires !w.Min?
    ensures keys == SpanKeys(kind, id, m, w, now, span, offset)
    ensures buckets == SpanBuckets(now, w, span, offset)
  {
    var base := now;
    if offset > 0 { base := StepBack(now, w, offset); }
    TwoStepsBack(now, w, offset);
    keys, buckets := KeysBackFrom(kind, id, m, w, base, span, now, offset);
  }

  /** Adjacent spans tile: a span of `a + b` is the older `b` followed by the newer `a`, all distinct. */
  lemma SpansTile(now: int, w: Window, a: nat, b: nat, offset: int)
    ensures SpanBuckets(now, w, a + b, offset) == SpanBuckets(now, w, b, offset + a) + SpanBuckets(now, w, a, offset)
    ensures Distinct(SpanBuckets(now, w, a + b, offset))
  {
    var whole, parts := SpanBuckets(now, w, a + b, offset), SpanBuckets(now, w, b, offset + a) + SpanBuckets(now, w, a, offset);
    assert forall i :: 0 <= i < a + b ==> whole[i] == parts[i];
  }

  /** Distinct buckets carry distinct labels, so no two points of a chart share a label. */
  lemma {:induction false} SpanLabelsDistinct(now: int, w: Window, span: nat, offset: int, i: nat, j: nat)
    requires i < j < span
    ensures Label(w, SpanBuckets(now, w, span, offset)[i]) != Label(w, SpanBuckets(now, w, span, offset)[j])
  {
    if Label(w, SpanBuckets(now, w, span, offset)[i]) == Label(w, SpanBuckets(now, w, span, offset)[j]) {
      LabelInjective(w, SpanBuckets(now, w, span, offset)[i], SpanBuckets(now, w, span, offset)[j]);
    }
  }

  // ---------------------------------------------------------------- retention

  function MaxSpan(w: Window): nat
    requires !w.Min?
  {
    match w
    case Hour => 48
    case Day => 35
    case Month => 13
  }

  lemma ThirteenMonths(m: int)
    ensures MonthStart(m + 1) - MonthStart(m - 12) <= 397
  {
    var first := m - 12;
    TwelveMonths(first / 12, first % 12);
    assert 12 * (first / 12) + first % 12 == first;
    MonthStep(m);
  }

  /** Every bucket within the span cap began less than its window's full lifetime ago. */
  lemma SpanWithinRetention(now: int, w: Window, span: nat, offset: nat, i: nat)
    requires !w.Min? && offset + span <= MaxSpan(w) && i < span
    ensures now - BucketStart(w, SpanBuckets(now, w, span, offset)[i]) < WindowTTL(w)
  {
    OldestWithinRetention(now, w, Bucket(now, w));
    BucketStartMonotone(w, Bucket(now, w) - (MaxSpan(w) - 1), SpanBuckets(now, w, span, offset)[i]);
  }

  lemma OldestWithinRetention(now: int, w: Window, b: int)
    requires !w.Min? && b == Bucket(now, w)
    ensures now - BucketStart(w, b - (MaxSpan(w) - 1)) < WindowTTL(w)
  {
    BucketIff(now, w, b);
    if w == Month { ThirteenMonths(b); }
  }

  /** The cap is tight: at the end of a bucket, one bucket more would be out of retention. */
  lemma CapIsTight(b: int)
    ensures MaxSpan(Hour) == 48 && MaxSpan(Day) == 35
    ensures var now := BucketStart(Hour, b) + HOUR - 1; now + 1 - BucketStart(Hour, Bucket(now, Hour) - 48) > WindowTTL(Hour)
    ensures var now := BucketStart(Day, b) + DAY - 1; now + 1 - BucketStart(Day, Bucket(now, Day) - 35) > WindowTTL(Day)
  {
    BucketIff(BucketStart(Hour, b) + HOUR - 1, Hour, b);
    BucketIff(BucketStart(Day, b) + DAY - 1, Day, b);
  }

  lemma LastInstant(b: int)
    ensures Bucket(BucketStart(Month, b + 1) - 1, Month) == b
  {
    MonthStep(b);
    BucketIff(BucketStart(Month, b + 1) - 1, Month, b);
  }

  /** So it is for months: a fourteenth is out of retention at the end of every month. */
  lemma MonthCapIsTight(b: int)
    ensures var now := BucketStart(Month, b + 1) - 1; now - BucketStart(Month, Bucket(now, Month) - MaxSpan(Month)) >= WindowTTL(Month)
  {
    LastInstant(b);
    FourteenMonths(b);
    MulMonotone(401, MonthStart(b + 1) - MonthStart(b - 13), DAY);
    assert (MonthStart(b + 1) - MonthStart(b - 13)) * DAY == MonthStart(b + 1) * DAY - MonthStart(b - 13) * DAY;
  }

  lemma FourteenMonths(m: int)
    ensures MonthStart(m + 1) - MonthStart(m - 13) >= 401
  {
    var first := m - 13;
    TwelveMonths(first / 12, first % 12);
    assert 12 * (first / 12) + first % 12 == first;
    MonthSpan(m - 1, m + 1);
  }

  // ---------------------------------------------------------------- months as days

  /** The days from the first of the first requested month to the end of the last, or to today. */
  predicate Requested(now: int, span: nat, offset: nat, d: int) {
    var m := MonthOf(DayOf(now));
    MonthStart(m - offset - (span - 1)) <= d < MonthStart(m - offset + 1) && d <= DayOf(now)
  }

  /** The days a day span names. */
  predicate Named(now: int, daySpan: int, dayOffset: int, d: int) {
    DayOf(now) - dayOffset - (daySpan - 1) <= d <= DayOf(now) - dayOffset
  }

  /** A range of days as a span and an offset from today, cut to the days still retained but never empty. */
  function DaySpan(today: int, first: int, last: int): (r: (int, int))
    requires first <= last <= today
    ensures r.0 >= 1 && r.1 == today - last
    ensures last - (r.0 - 1) == Max(first, Common.Min(last, today - (MaxSpan(Day) - 1)))
  {
    var dayOffset := today - last;
    var full := last - first + 1;
    var most := MaxSpan(Day) - dayOffset;
    (if full > most then (if most < 1 then 1 else most) else full, dayOffset)
  }

  /** The last requested day: today for the current month, else the last of that month. */
  function LastDay(today: int, offset: nat): int {
    if offset > 0 then MonthStart(MonthOf(today) - offset + 1) - 1 else today
  }

  lemma RequestedRange(today: int, span: nat, offset: nat)
    requires span >= 1
    ensures var m := MonthOf(today);
            MonthStart(m - offset - (span - 1)) <= LastDay(today, offset) <= today < MonthStart(m + 1) &&
            LastDay(today, offset) < MonthStart(m - offset + 1)
  {
    RangeAround(today, MonthOf(today), span, offset);
  }

  lemma RangeAround(today: int, m: int, span: nat, offset: nat)
    requires span >= 1 && MonthStart(m) <= today < MonthStart(m + 1)
    ensures var last := if offset > 0 then MonthStart(m - offset + 1) - 1 else today;
            MonthStart(m - offset - (span - 1)) <= last <= today && last < MonthStart(m - offset + 1)
  {
    MonthSpan(m - offset - (span - 1), m - offset);
    MonthStep(m - offset);
    if offset > 0 { MonthSpan(m - offset + 1, m); }
  }

  /**
   monthRangeToDayBuckets. It names only requested days, names every requested day less than 35 days
   old, and, when the whole range is older than that, names the range's last day alone.
   */
  function MonthRangeToDayBuckets(now: int, span: nat, offset: nat): (r: (int, int))
    requires span >= 1
    ensures r.0 >= 1 && r.1 >= 0
    ensures forall d :: Named(now, r.0, r.1, d) <==>
              Requested(now, span, offset, d) && (DayOf(now) - d < MaxSpan(Day) || d == DayOf(now) - r.1)
  {
    var today := DayOf(now);
    RequestedRange(today, span, offset);
    DaySpan(today, MonthStart(MonthOf(today) - offset - (span - 1)), LastDay(today, offset))
  }

  // ---------------------------------------------------------------- chunked reads

  /** The values stored under the keys, in order. */
  function Values(c: A.Counters, keys: seq<CounterKey>): (vals: seq<int>)
    ensures |vals| == |keys| && forall i :: 0 <= i < |keys| ==> vals[i] == A.Value(c, keys[i])
  {
    seq(|keys|, i requires 0 <= i < |keys| => A.Value(c, keys[i]))
  }

  /**
   chunkedGetMulti. `up(t)` says whether round trip `t` succeeds and `first` numbers this call's first
   trip. The answer is all the values in order, and it is given exactly when every trip made succeeded.
   */
  method ChunkedGetMulti(c: A.Counters, keys: seq<CounterKey>, chunkSize: int, up: nat -> bool, first: nat)
    returns (vals: Option<seq<int>>, next: nat)
    ensures next >= first
    ensures vals.Some? ==> vals.value == Values(c, keys)
    ensures vals.Some? <==> forall t :: first <= t < next ==> up(t)
    ensures keys == [] ==> vals == Some([]) && next == first
  {
    var size := if chunkSize < 1 then |keys| else chunkSize;
    var out: seq<int> := [];
    var rest := keys;
    next := first;
    while |rest| > 0
      invariant |out| + |rest| == |keys| && rest == keys[|out|..]
      invariant out == Values(c, keys[..|out|])
      invariant next >= first && forall t :: first <= t < next ==> up(t)
      invariant |out| == 0 ==> next == first
      decreases |rest|
    {
      var n := if size > |rest| then |rest| else size;
      next := next + 1;
      if !up(next - 1) { return None, next; }
      var got := Values(c, rest[..n]);
      assert keys[..|out| + n] == keys[..|out|] + rest[..n];
      out := out + got;
      rest := rest[n..];
    }
    assert keys[..|keys|] == keys;
    return Some(out), next;
  }

  // ---------------------------------------------------------------- span totals

  const CHUNK_KEYS: int := 1600

  function Itself(): int -> int { (x: int) => x }

  /** What a span total reads: one kind, one window, one instant, one span. */
  datatype Query = Query(kind: string, window: Window, now: int, span: nat, offset: nat)

  function KeysFor(q: Query, id: string, m: Metric): (ks: seq<CounterKey>)
    ensures |ks| == q.span
  {
    SpanKeys(q.kind, id, m, q.window, q.now, q.span, q.offset)
  }

  /** The direct specification: the sum of one id's span buckets of one metric. */
  ghost function SpanTotal(c: A.Counters, q: Query, id: string, m: Metric): int { SumOf(Values(c, KeysFor(q, id, m)), Itself()) }

  ghost predicate TotalsFor(c: A.Counters, q: Query, ids: seq<string>, m: Metric, row: seq<int>) {
    |row| == |ids| && forall i :: 0 <= i < |ids| ==> row[i] == SpanTotal(c, q, ids[i], m)
  }

  /** The keys of one id: its metrics one after the other. */
  function IdKeys(q: Query, id: string, metrics: seq<Metric>): seq<CounterKey> {
    if metrics == [] then [] else IdKeys(q, id, metrics[..|metrics| - 1]) + KeysFor(q, id, metrics[|metrics| - 1])
  }

  function ChunkKeys(q: Query, ids: seq<string>, metrics: seq<Metric>): seq<CounterKey> {
    if ids == [] then [] else ChunkKeys(q, ids[..|ids| - 1], metrics) + IdKeys(q, ids[|ids| - 1], metrics)
  }

  lemma MulStep(i: nat, n: nat, k: nat)
    requires i < n
    ensures 0 <= i * k && i * k + k == (i + 1) * k <= n * k
  {
    MulMonotone(0, i, k);
    MulMonotone(i + 1, n, k);
  }

  lemma SliceOfSlice<T>(s: seq<T>, a: nat, b: nat, at: nat, n: nat)
    requires a <= b <= |s| && at + n <= b - a
    ensures s[a..b][at..at + n] == s[a + at..a + at + n]
  {
    var inner, outer := s[a..b][at..at + n], s[a + at..a + at + n];
    assert forall k :: 0 <= k < n ==> inner[k] == outer[k];
  }

  lemma {:induction false} IdSlice(q: Query, id: string, metrics: seq<Metric>, m: nat, at: nat, span: nat)
    requires m < |metrics| && span == q.span && at == m * span
    ensures at + span <= |IdKeys(q, id, metrics)|
    ensures IdKeys(q, id, metrics)[at..at + span] == KeysFor(q, id, metrics[m])
  {
    var n := |metrics| - 1;
    var init := IdKeys(q, id, metrics[..n]);
    if m < n {
      IdSlice(q, id, metrics[..n], m, at, span);
      assert (init + KeysFor(q, id, metrics[n]))[at..at + span] == init[at..at + span];
    } else {
      IdLength(q, id, metrics[..n], span);
    }
  }

  lemma {:induction false} IdLength(q: Query, id: string, metrics: seq<Metric>, span: nat)
    requires span == q.span
    ensures |IdKeys(q, id, metrics)| == |metrics| * span
  {
    if metrics != [] {
      IdLength(q, id, metrics[..|metrics| - 1], span);
      MulStep(|metrics| - 1, |metrics|, span);
    }
  }

  lemma {:induction false} ChunkLength(q: Query, ids: seq<string>, metrics: seq<Metric>, stride: nat)
    requires stride == |metrics| * q.span
    ensures |ChunkKeys(q, ids, metrics)| == |ids| * stride
  {
    if ids != [] {
      var n := |ids| - 1;
      ChunkLength(q, ids[..n], metrics, stride);
      IdLength(q, ids[n], metrics, q.span);
      MulStep(n, |ids|, stride);
    }
  }

  lemma {:induction false} ChunkSlice(q: Query, ids: seq<string>, metrics: seq<Metric>, i: nat, at: nat, stride: nat)
    requires i < |ids| && stride == |metrics| * q.span && at == i * stride
    ensures at + stride <= |ChunkKeys(q, ids, metrics)|
    ensures ChunkKeys(q, ids, metrics)[at..at + stride] == IdKeys(q, ids[i], metrics)
  {
    var n := |ids| - 1;
    var init := ChunkKeys(q, ids[..n], metrics);
    if i < n {
      ChunkSlice(q, ids[..n], metrics, i, at, stride);
      assert (init + IdKeys(q, ids[n], metrics))[at..at + stride] == init[at..at + stride];
    } else {
      ChunkLength(q, ids[..n], metrics, stride);
      IdLength(q, ids[n], metrics, q.span);
    }
  }

  lemma ValuesSlice(c: A.Counters, keys: seq<CounterKey>, at: nat, n: nat)
    requires at + n <= |keys|
    ensures Values(c, keys)[at..at + n] == Values(c, keys[at..at + n])
  {}

  lemma ValuesNested(c: A.Counters, all: seq<CounterKey>, mine: seq<CounterKey>, want: seq<CounterKey>,
                     first: nat, at: nat)
    requires first + |mine| <= |all| && all[first..first + |mine|] == mine
    requires at + |want| <= |mine| && mine[at..at + |want|] == want
    ensures first + at + |want| <= |all| && Values(c, all)[first + at..first + at + |want|] == Values(c, want)
  {
    SliceOfSlice(all, first, first + |mine|, at, |want|);
    ValuesSlice(c, all, first + at, |want|);
  }

  /** The readings of id `i` and metric `m` sit at `i * stride + m * span` of the flat reply. */
  lemma {:induction false} ReplySlice(c: A.Counters, q: Query, ids: seq<string>, metrics: seq<Metric>, i: nat, m: nat, stride: nat, first: nat, at: nat)
    requires i < |ids| && m < |metrics| && stride == |metrics| * q.span && first == i * stride && at == m * q.span
    ensures first + at + q.span <= |ChunkKeys(q, ids, metrics)|
    ensures Values(c, ChunkKeys(q, ids, metrics))[first + at..first + at + q.span] == Values(c, KeysFor(q, ids[i], metrics[m]))
  {
    ChunkSlice(q, ids, metrics, i, first, stride);
    IdSlice(q, ids[i], metrics, m, at, q.span);
    IdLength(q, ids[i], metrics, q.span);
    ValuesNested(c, ChunkKeys(q, ids, metrics), IdKeys(q, ids[i], metrics), KeysFor(q, ids[i], metrics[m]), first, at);
  }

  method SumSlice(vals: seq<int>, at: int, n: nat) returns (sum: int)
    requires 0 <= at && at + n <= |vals|
    ensures sum == SumOf(vals[at..at + n], Itself())
  {
    sum := 0;
    for j := 0 to n
      invariant sum == SumOf(vals[at..at + j], Itself())
    {
      assert vals[at..at + j + 1][..j] == vals[at..at + j];
      sum := sum + vals[at + j];
    }
  }

  method BuildSpanKeys(q: Query, id: string, m: Metric) returns (keys: seq<CounterKey>)
    requires !q.window.Min?
    ensures keys == KeysFor(q, id, m)
  {
    var buckets;
    keys, buckets := HistoryBucketKeysAt(q.kind, id, m, q.window, q.now, q.span, q.offset);
  }

  lemma {:induction false} IdKeysSnoc(q: Query, id: string, metrics: seq<Metric>, m: nat, before: seq<CounterKey>)
    requires m < |metrics|
    ensures before + IdKeys(q, id, metrics[..m + 1]) == before + IdKeys(q, id, metrics[..m]) + KeysFor(q, id, metrics[m])
  {
    assert metrics[..m + 1][..m] == metrics[..m];
  }

  method BuildIdKeys(q: Query, id: string, metrics: seq<Metric>, before: seq<CounterKey>) returns (keys: seq<CounterKey>)
    requires !q.window.Min?
    ensures keys == before + IdKeys(q, id, metrics)
  {
    keys := before;
    for m := 0 to |metrics|
      invariant keys == before + IdKeys(q, id, metrics[..m])
    {
      var ks := BuildSpanKeys(q, id, metrics[m]);
      IdKeysSnoc(q, id, metrics, m, before);
      keys := keys + ks;
    }
    assert metrics[..|metrics|] == metrics;
  }

  method BuildChunkKeys(q: Query, ids: seq<string>, metrics: seq<Metric>) returns (keys: seq<CounterKey>)
    requires !q.window.Min?
    ensures keys == ChunkKeys(q, ids, metrics)
  {
    keys := [];
    for i := 0 to |ids|
      invariant keys == ChunkKeys(q, ids[..i], metrics)
    {
      keys := BuildIdKeys(q, ids[i], metrics, keys);
      assert ids[..i + 1][..i] == ids[..i];
    }
    assert ids[..|ids|] == ids;
  }

  ghost predicate RowsFor(c: A.Counters, q: Query, ids: seq<string>, metrics: seq<Metric>, out: seq<seq<int>>) {
    |out| == |metrics| && forall m :: 0 <= m < |metrics| ==> TotalsFor(c, q, ids, metrics[m], out[m])
  }

  /** One total, read off the flat reply at its id's and metric's place. */
  method TotalAt(ghost c: A.Counters, q: Query, chunk: seq<string>, metrics: seq<Metric>, vals: seq<int>, i: nat, m: nat, stride: int)
    returns (sum: int)
    requires i < |chunk| && m < |metrics| && stride == |metrics| * q.span
    requires vals == Values(c, ChunkKeys(q, chunk, metrics))
    ensures sum == SpanTotal(c, q, chunk[i], metrics[m])
  {
    MulMonotone(0, |metrics|, q.span);
    MulMonotone(0, i, stride);
    MulMonotone(0, m, q.span);
    var first, at := i * stride, m * q.span;
    ReplySlice(c, q, chunk, metrics, i, m, stride, first, at);
    sum := SumSlice(vals, first + at, q.span);
  }

  /** Appends one id's totals, metric by metric. */
  method AppendTotals(ghost c: A.Counters, q: Query, ghost seen: seq<string>, chunk: seq<string>, metrics: seq<Metric>,
                      vals: seq<int>, i: nat, before: seq<seq<int>>)
    returns (out: seq<seq<int>>)
    requires i < |chunk| && vals == Values(c, ChunkKeys(q, chunk, metrics)) && RowsFor(c, q, seen, metrics, before)
    ensures RowsFor(c, q, seen + [chunk[i]], metrics, out)
  {
    out := before;
    var stride := |metrics| * q.span;
    ghost var more := seen + [chunk[i]];
    for m := 0 to |metrics|
      invariant |out| == |metrics|
      invariant forall k :: 0 <= k < m ==> TotalsFor(c, q, more, metrics[k], out[k])
      invariant forall k :: m <= k < |metrics| ==> out[k] == before[k]
    {
      var sum := TotalAt(c, q, chunk, metrics, vals, i, m, stride);
      assert TotalsFor(c, q, seen, metrics[m], before[m]);
      assert TotalsFor(c, q, more, metrics[m], before[m] + [sum]);
      out := out[m := out[m] + [sum]];
    }
  }

  /** Appends the totals of a whole chunk. */
  method AppendChunk(ghost c: A.Counters, q: Query, ghost seen: seq<string>, chunk: seq<string>, metrics: seq<Metric>,
                     vals: seq<int>, before: seq<seq<int>>)
    returns (out: seq<seq<int>>)
    requires vals == Values(c, ChunkKeys(q, chunk, metrics)) && RowsFor(c, q, seen, metrics, before)
    ensures RowsFor(c, q, seen + chunk, metrics, out)
  {
    out := before;
    ghost var now := seen;
    for i := 0 to |chunk|
      invariant now == seen + chunk[..i]
      invariant RowsFor(c, q, now, metrics, out)
    {
      out := AppendTotals(c, q, now, chunk, metrics, vals, i, out);
      now := now + [chunk[i]];
    }
    assert now == seen + chunk;
  }

  /** The keys of one chunk, read in as many round trips as it takes. */
  method ReadChunk(c: A.Counters, q: Query, chunk: seq<string>, metrics: seq<Metric>, up: nat -> bool, first: nat)
    returns (vals: Option<seq<int>>, next: nat)
    requires !q.window.Min?
    ensures next >= first
    ensures vals.Some? ==> vals.value == Values(c, ChunkKeys(q, chunk, metrics))
    ensures vals.Some? <==> forall t :: first <= t < next ==> up(t)
  {
    var allKeys := BuildChunkKeys(q, chunk, metrics);
    vals, next := ChunkedGetMulti(c, allKeys, CHUNK_KEYS, up, first);
  }

  /** How many ids go into one chunk: as many as keep it within the key bound, but at least one. */
  function PerChunk(span: nat, metrics: nat): (n: nat)
    requires span >= 1 && metrics >= 1
    ensures n >= 1
    ensures n == 1 || n * (metrics * span) <= 1600
    ensures (n + 1) * (metrics * span) > 1600
  {
    var k := span * metrics;
    MulMonotone(1, span, metrics);
    FloorBrackets(CHUNK_KEYS, k);
    if CHUNK_KEYS / k < 1 then 1 else CHUNK_KEYS / k
  }

  /**
   spanTotalsMulti: for every metric and every id, in input order, the sum over that id's own span of
   buckets, however the ids are split into chunks and the chunks into round trips; or no answer at all
   when some round trip failed.
   */
  method SpanTotalsMulti(c: A.Counters, q: Query, ids: seq<string>, metrics: seq<Metric>, up: nat -> bool)
    returns (out: Option<seq<seq<int>>>, trips: nat)
    requires !q.window.Min?
    ensures ids == [] || metrics == [] || q.span < 1 ==>
              trips == 0 && out.Some? && |out.value| == |metrics| && forall m :: 0 <= m < |metrics| ==> out.value[m] == []
    ensures ids != [] && metrics != [] && q.span >= 1 && out.Some? ==> RowsFor(c, q, ids, metrics, out.value)
    ensures out.Some? <==> forall t :: 0 <= t < trips ==> up(t)
  {
    var rows: seq<seq<int>> := seq(|metrics|, _ => []);
    trips := 0;
    if |ids| == 0 || |metrics| == 0 || q.span < 1 { return Some(rows), 0; }
    var perChunk := PerChunk(q.span, |metrics|);
    var remaining := ids;
    ghost var seen: seq<string> := [];
    while |remaining| > 0
      invariant ids == seen + remaining
      invariant RowsFor(c, q, seen, metrics, rows)
      invariant forall t :: 0 <= t < trips ==> up(t)
      decreases |remaining|
    {
      var n := if perChunk > |remaining| then |remaining| else perChunk;
      var chunk := remaining[..n];
      var vals;
      vals, trips := ReadChunk(c, q, chunk, metrics, up, trips);
      if vals.None? { return None, trips; }
      rows := AppendChunk(c, q, seen, chunk, metrics, vals.value, rows);
      TakeChunk(ids, seen, remaining, n);
      seen := seen + chunk;
      remaining := remaining[n..];
    }
    assert ids == seen;
    return Some(rows), trips;
  }

  lemma TakeChunk(ids: seq<string>, seen: seq<string>, remaining: seq<string>, n: nat)
    requires ids == seen + remaining && n <= |remaining|
    ensures ids == seen + remaining[..n] + remaining[n..]
  {
  }
}
