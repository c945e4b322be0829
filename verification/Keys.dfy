/**
 Counter keys and cache keys as text. Counters elsewhere are indexed by the structured `CounterKey`;
 `RenderInjective` is what entitles them to: two structured keys share a text only when they are equal.
 Text is a sequence of bytes, so a length is a byte count.
 */
module Keys {
  import opened Common
  import opened Decimal
  import opened Calendar

  // ---------------------------------------------------------------- counter keys

  datatype Metric = Req | TokIn | TokOut | Cost | Rej

  function MetricName(m: Metric): string {
    match m
    case Req => "req"
    case TokIn => "tokin"
    case TokOut => "tokout"
    case Cost => "cost"
    case Rej => "rej"
  }

  datatype CounterKey = CounterKey(kind: string, id: string, metric: Metric, window: Window, bucket: int)

  predicate NoColon(s: string) { forall i :: 0 <= i < |s| ==> s[i] != ':' }

  /** windowKeyForBucket: six parts joined by colons. */
  function WindowKeyForBucket(kind: string, id: string, metric: string, window: string, bucket: string): string {
    "llmgw" + ":" + (kind + ":" + (id + ":" + metric + ":" + window + ":" + bucket))
  }

  function Render(k: CounterKey): string {
    WindowKeyForBucket(k.kind, k.id, MetricName(k.metric), WindowName(k.window), Label(k.window, k.bucket))
  }

  lemma SplitFirst(a: string, x: string, b: string, y: string)
    requires NoColon(a) && NoColon(b)
    requires a + ":" + x == b + ":" + y
    ensures a == b && x == y
  {
    var s, t := a + ":" + x, b + ":" + y;
    assert s[|a|] == ':' && t[|b|] == ':';
    assert forall i :: 0 <= i < |a| ==> s[i] == a[i];
    assert forall i :: 0 <= i < |b| ==> t[i] == b[i];
    assert |a| == |b|;
    assert a == s[..|a|] && b == t[..|b|];
    assert x == s[|a| + 1..] && y == t[|b| + 1..];
  }

  lemma SplitLast(x: string, a: string, y: string, b: string)
    requires NoColon(a) && NoColon(b)
    requires x + ":" + a == y + ":" + b
    ensures x == y && a == b
  {
    var s, t := x + ":" + a, y + ":" + b;
    assert s[|x|] == ':' && t[|y|] == ':';
    assert forall i :: |x| < i < |s| ==> s[i] == a[i - |x| - 1];
    assert forall i :: |y| < i < |t| ==> t[i] == b[i - |y| - 1];
    assert |x| == |y|;
    assert x == s[..|x|] && y == t[..|y|];
    assert a == s[|x| + 1..] && b == t[|y| + 1..];
  }

  /** The id may hold any character, colons included: the other four parts pin it from both ends. */
  lemma WindowKeyInjective(kind: string, id: string, metric: string, window: string, bucket: string,
                           kind': string, id': string, metric': string, window': string, bucket': string)
    requires NoColon(kind) && NoColon(metric) && NoColon(window) && NoColon(bucket)
    requires NoColon(kind') && NoColon(metric') && NoColon(window') && NoColon(bucket')
    requires WindowKeyForBucket(kind, id, metric, window, bucket) ==
             WindowKeyForBucket(kind', id', metric', window', bucket')
    ensures kind == kind' && id == id' && metric == metric' && window == window' && bucket == bucket'
  {
    var tail := id + ":" + metric + ":" + window + ":" + bucket;
    var tail' := id' + ":" + metric' + ":" + window' + ":" + bucket';
    SplitFirst("llmgw", kind + ":" + tail, "llmgw", kind' + ":" + tail');
    SplitFirst(kind, tail, kind', tail');
    SplitLast(id + ":" + metric + ":" + window, bucket, id' + ":" + metric' + ":" + window', bucket');
    SplitLast(id + ":" + metric, window, id' + ":" + metric', window');
    SplitLast(id, metric, id', metric');
  }

  lemma NamesInjective(v: Window, w: Window, m: Metric, n: Metric)
    ensures NoColon(WindowName(w)) && NoColon(MetricName(m))
    ensures WindowName(v) == WindowName(w) ==> v == w
    ensures MetricName(m) == MetricName(n) ==> m == n
  {
    assert WindowName(Min)[1] == 'i' && WindowName(Month)[1] == 'o' && WindowName(Hour)[0] == 'h' && WindowName(Day)[0] == 'd';
    assert MetricName(Req)[2] == 'q' && MetricName(Rej)[2] == 'j' && |MetricName(TokIn)| == 5 && |MetricName(TokOut)| == 6;
  }

  /** The text of a counter: prefix, kind, id, metric, window and label, with colons between. */
  lemma {:induction false} RenderText(k: CounterKey)
    ensures Render(k) ==
            "llmgw:" + k.kind + ":" + k.id + ":" +
            (match k.metric case Req => "req" case TokIn => "tokin" case TokOut => "tokout" case Cost => "cost" case Rej => "rej") + ":" +
            (match k.window case Min => "min" case Hour => "hour" case Day => "day" case Month => "month") + ":" +
            Label(k.window, k.bucket)
  {
    JoinSix(k.kind, k.id, MetricName(k.metric), WindowName(k.window), Label(k.window, k.bucket));
  }

  lemma {:induction false} JoinSix(a: string, b: string, c: string, d: string, e: string)
    ensures WindowKeyForBucket(a, b, c, d, e) == "llmgw:" + a + ":" + b + ":" + c + ":" + d + ":" + e
  {
    assert "llmgw" + ":" == "llmgw:";
  }

  /** Two counters share a store key exactly when scope, metric, window and bucket all agree. */
  lemma RenderInjective(a: CounterKey, b: CounterKey)
    requires NoColon(a.kind) && NoColon(b.kind)
    ensures Render(a) == Render(b) <==> a == b
  {
    NamesInjective(a.window, b.window, a.metric, b.metric);
    NamesInjective(b.window, a.window, b.metric, a.metric);
    if Render(a) == Render(b) {
      WindowKeyInjective(a.kind, a.id, MetricName(a.metric), WindowName(a.window), Label(a.window, a.bucket),
                         b.kind, b.id, MetricName(b.metric), WindowName(b.window), Label(b.window, b.bucket));
      LabelInjective(a.window, a.bucket, b.bucket);
    }
  }

  // ---------------------------------------------------------------- length prefixes

  function IndexOfColon(s: string): (i: nat)
    ensures i <= |s| && NoColon(s[..i]) && (i < |s| ==> s[i] == ':')
  {
    if s == [] || s[0] == ':' then 0 else
      var i := IndexOfColon(s[1..]);
      assert s[..i + 1] == [s[0]] + s[1..][..i];
      i + 1
  }

  /** Reads "<decimal>:" off the front of a text. */
  function TakeCount(s: string): Option<(nat, string)> {
    var i := IndexOfColon(s);
    if i == |s| || !AllDigits(s[..i]) then None else Some((Atoi(s[..i]), s[i + 1..]))
  }

  lemma {:induction false} TakeCountOfItoa(n: nat, rest: string)
    ensures TakeCount(Itoa(n) + ":" + rest) == Some((n, rest))
  {
    var p := Itoa(n);
    var s := p + ":" + rest;
    var i := IndexOfColon(s);
    assert NoColon(p);
    assert s[|p|] == ':' && s[..|p|] == p && s[|p| + 1..] == rest;
    assert forall j :: 0 <= j < |p| ==> s[j] == p[j];
    assert forall j :: 0 <= j < i ==> s[..i][j] == s[j];
    assert i == |p|;
    AtoiOfItoa(n);
  }

  /** userModelScopeID. */
  function UserModelScopeID(user: string, canonical: string): string {
    Itoa(|user|) + ":" + user + canonical
  }

  function DecodeUserModel(s: string): Option<(string, string)> {
    match TakeCount(s)
    case None => None
    case Some((n, rest)) => if n <= |rest| then Some((rest[..n], rest[n..])) else None
  }

  /** The pair can be read back whatever bytes the two names hold. */
  lemma UserModelRoundTrip(user: string, canonical: string)
    ensures DecodeUserModel(UserModelScopeID(user, canonical)) == Some((user, canonical))
  {
    TakeCountOfItoa(|user|, user + canonical);
    assert UserModelScopeID(user, canonical) == Itoa(|user|) + ":" + (user + canonical);
  }

  /** writeLengthPrefixed. */
  function Netstring(s: string): string { Itoa(|s|) + ":" + s }

  function Netstrings(xs: seq<string>): string {
    if xs == [] then "" else Netstring(xs[0]) + Netstrings(xs[1..])
  }

  function ListText(xs: seq<string>): string { Itoa(|xs|) + ":" + Netstrings(xs) }

  function TakeNetstrings(n: nat, s: string): Option<(seq<string>, string)> {
    if n == 0 then Some(([], s)) else
      match DecodeUserModel(s)
      case None => None
      case Some((x, rest)) =>
        match TakeNetstrings(n - 1, rest)
        case None => None
        case Some((xs, tail)) => Some(([x] + xs, tail))
  }

  function TakeList(s: string): Option<(seq<string>, string)> {
    match TakeCount(s)
    case None => None
    case Some((n, rest)) => TakeNetstrings(n, rest)
  }

  lemma NetstringCons(x: string, more: string, rest: string)
    ensures DecodeUserModel(Netstring(x) + more + rest) == Some((x, more + rest))
  {
    UserModelRoundTrip(x, more + rest);
    assert Netstring(x) + more + rest == UserModelScopeID(x, more + rest);
  }

  lemma {:induction false} TakeNetstringsOfNetstrings(xs: seq<string>, rest: string)
    ensures TakeNetstrings(|xs|, Netstrings(xs) + rest) == Some((xs, rest))
  {
    if xs == [] {
      assert Netstrings(xs) + rest == rest;
    } else {
      TakeNetstringsOfNetstrings(xs[1..], rest);
      NetstringCons(xs[0], Netstrings(xs[1..]), rest);
      TakeOneMore(|xs|, Netstrings(xs) + rest, xs[0], Netstrings(xs[1..]) + rest, xs[1..], rest);
      assert [xs[0]] + xs[1..] == xs;
    }
  }

  lemma {:induction false} TakeOneMore(n: nat, s: string, x: string, tail: string, xs: seq<string>, rest: string)
    requires n > 0 && DecodeUserModel(s) == Some((x, tail)) && TakeNetstrings(n - 1, tail) == Some((xs, rest))
    ensures TakeNetstrings(n, s) == Some(([x] + xs, rest))
  {
  }

  lemma TakeListOfListText(xs: seq<string>, rest: string)
    ensures TakeList(ListText(xs) + rest) == Some((xs, rest))
  {
    TakeCountOfItoa(|xs|, Netstrings(xs) + rest);
    assert ListText(xs) + rest == Itoa(|xs|) + ":" + (Netstrings(xs) + rest);
    TakeNetstringsOfNetstrings(xs, rest);
  }

  // ---------------------------------------------------------------- the models cache key

  datatype Grant = Grant(providers: seq<string>, models: seq<string>)

  /** What the key has to tell apart. */
  datatype Principal =
    | Named(name: string)
    | Synthetic(members: seq<string>, personal: Option<Grant>)

  function PersonalText(personal: Option<Grant>): string {
    match personal
    case None => "N"
    case Some(g) => "Y" + ListText(g.providers) + ListText(g.models)
  }

  /** The text modelsCacheKey builds. */
  function CacheKeyText(p: Principal): string {
    match p
    case Named(name) => "g" + Netstring(name)
    case Synthetic(members, personal) =>
      "s" + ListText(members) + PersonalText(personal)
  }

  function DecodePersonal(s: string): Option<Option<Grant>> {
    if s == "N" then Some(None)
    else if s != "" && s[0] == 'Y' then
      match TakeList(s[1..])
      case None => None
      case Some((providers, rest)) =>
        match TakeList(rest)
        case None => None
        case Some((models, end)) => if end == "" then Some(Some(Grant(providers, models))) else None
    else None
  }

  /** An independent reader for the key. */
  function DecodeCacheKey(s: string): Option<Principal> {
    if s == "" then None
    else if s[0] == 'g' then
      match DecodeUserModel(s[1..])
      case None => None
      case Some((name, rest)) => if rest == "" then Some(Named(name)) else None
    else if s[0] == 's' then
      match TakeList(s[1..])
      case None => None
      case Some((members, rest)) =>
        match DecodePersonal(rest)
        case None => None
        case Some(personal) => Some(Synthetic(members, personal))
    else None
  }

  lemma PersonalRoundTrip(personal: Option<Grant>)
    ensures DecodePersonal(PersonalText(personal)) == Some(personal)
  {
    match personal
    case None =>
    case Some(g) =>
      var s := PersonalText(personal);
      assert s[1..] == ListText(g.providers) + ListText(g.models);
      TakeListOfListText(g.providers, ListText(g.models));
      TakeListOfListText(g.models, "");
      assert ListText(g.models) + "" == ListText(g.models);
  }

  /** The key determines group kind, ordered member names and personal grant, for arbitrary strings. */
  lemma CacheKeyRoundTrip(p: Principal)
    ensures DecodeCacheKey(CacheKeyText(p)) == Some(p)
  {
    var s := CacheKeyText(p);
    match p
    case Named(name) =>
      assert s[1..] == UserModelScopeID(name, "");
      UserModelRoundTrip(name, "");
    case Synthetic(members, personal) =>
      assert s[1..] == ListText(members) + PersonalText(personal);
      TakeListOfListText(members, PersonalText(personal));
      PersonalRoundTrip(personal);
  }
}
