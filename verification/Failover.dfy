/**
 The failover candidate pipeline: health filter, stable partition by discovery health, cost guard, cap.
 */
module Failover {
  import opened Common
  import opened Int64
  import opened Pricing
  import A = Admission

  datatype Candidate = Candidate(provider: string, upstreamModel: string, canonical: string)

  // ---------------------------------------------------------------- sub-sequences

  /** The elements satisfying `p`, in order. */
  function Filter<T>(xs: seq<T>, p: T -> bool): seq<T> {
    if xs == [] then []
    else Filter(xs[..|xs| - 1], p) + if p(xs[|xs| - 1]) then [xs[|xs| - 1]] else []
  }

  lemma {:induction false} FilterStep<T>(xs: seq<T>, x: T, p: T -> bool)
    ensures Filter(xs + [x], p) == Filter(xs, p) + if p(x) then [x] else []
  {
    assert (xs + [x])[..|xs|] == xs;
  }

  lemma {:induction false} FilterMember<T>(xs: seq<T>, p: T -> bool, x: T)
    ensures x in Filter(xs, p) <==> x in xs && p(x)
  {
    if xs != [] {
      var n := |xs| - 1;
      FilterMember(xs[..n], p, x);
      assert xs == xs[..n] + [xs[n]];
    }
  }

  lemma {:induction false} FilterConcat<T>(xs: seq<T>, ys: seq<T>, p: T -> bool)
    ensures Filter(xs + ys, p) == Filter(xs, p) + Filter(ys, p)
  {
    if ys == [] {
      assert xs + ys == xs;
    } else {
      var n := |ys| - 1;
      FilterConcat(xs, ys[..n], p);
      assert xs + ys == (xs + ys[..n]) + [ys[n]];
      FilterStep(xs + ys[..n], ys[n], p);
    }
  }

  lemma {:induction false} FilterAll<T>(xs: seq<T>, q: T -> bool)
    requires forall i :: 0 <= i < |xs| ==> q(xs[i])
    ensures Filter(xs, q) == xs
  {
    if xs != [] {
      var init, x := xs[..|xs| - 1], xs[|xs| - 1];
      assert forall i :: 0 <= i < |init| ==> init[i] == xs[i];
      FilterAll(init, q);
      assert init + [x] == xs;
    }
  }

  lemma {:induction false} FilterNone<T>(xs: seq<T>, q: T -> bool)
    requires forall i :: 0 <= i < |xs| ==> !q(xs[i])
    ensures Filter(xs, q) == []
  {
    if xs != [] {
      var n := |xs| - 1;
      assert forall i :: 0 <= i < n ==> xs[..n][i] == xs[i];
      FilterNone(xs[..n], q);
    }
  }

  /** How often a filter keeps each element when one more is appended. */
  lemma {:induction false} FilterCounts<T>(xs: seq<T>, x: T, p: T -> bool)
    ensures multiset(Filter(xs + [x], p)) == multiset(Filter(xs, p)) + if p(x) then multiset{x} else multiset{}
  {
    FilterStep(xs, x, p);
  }

  lemma AddOne<T>(a: multiset<T>, b: multiset<T>, x: T)
    ensures (a + multiset{x}) + (b + multiset{}) == a + b + multiset{x}
    ensures (a + multiset{}) + (b + multiset{x}) == a + b + multiset{x}
  {
  }

  /** Two complementary filters together keep every element as often as it occurs. */
  ghost predicate Partitions<T>(xs: seq<T>, p: T -> bool, q: T -> bool) {
    multiset(Filter(xs, p)) + multiset(Filter(xs, q)) == multiset(xs)
  }

  lemma PartitionSnoc<T>(xs: seq<T>, x: T, p: T -> bool, q: T -> bool)
    requires q(x) <==> !p(x)
    requires Partitions(xs, p, q)
    ensures Partitions(xs + [x], p, q)
  {
    FilterCounts(xs, x, p);
    FilterCounts(xs, x, q);
    AddOne(multiset(Filter(xs, p)), multiset(Filter(xs, q)), x);
    assert multiset(xs + [x]) == multiset(xs) + multiset{x};
  }

  lemma {:induction false} PartitionKeepsAll<T>(xs: seq<T>, p: T -> bool, q: T -> bool)
    requires forall i :: 0 <= i < |xs| ==> (q(xs[i]) <==> !p(xs[i]))
    ensures Partitions(xs, p, q)
  {
    if xs != [] {
      var init, x := xs[..|xs| - 1], xs[|xs| - 1];
      assert forall i :: 0 <= i < |init| ==> init[i] == xs[i];
      PartitionKeepsAll(init, p, q);
      PartitionSnoc(init, x, p, q);
      assert xs == init + [x];
    }
  }

  /** `xs` is `ys` with some elements left out: nothing added, nothing reordered. */
  ghost predicate SubSeq<T(!new)>(xs: seq<T>, ys: seq<T>) {
    if ys == [] then xs == []
    else
      var init, last := ys[..|ys| - 1], ys[|ys| - 1];
      SubSeq(xs, init) || (xs != [] && xs[|xs| - 1] == last && SubSeq(xs[..|xs| - 1], init))
  }

  /** The places in `ys` that `xs` was picked from, in increasing order. */
  lemma {:induction false} SubSeqPlaces<T(!new)>(xs: seq<T>, ys: seq<T>) returns (at: seq<nat>)
    requires SubSeq(xs, ys)
    ensures |at| == |xs| && forall i :: 0 <= i < |xs| ==> at[i] < |ys| && xs[i] == ys[at[i]]
    ensures forall i, j :: 0 <= i < j < |at| ==> at[i] < at[j]
    decreases |ys|
  {
    at := [];
    if ys != [] {
      var init := ys[..|ys| - 1];
      if SubSeq(xs, init) {
        at := SubSeqPlaces(xs, init);
      } else {
        at := SubSeqPlaces(xs[..|xs| - 1], init);
        at := at + [|ys| - 1];
      }
    }
  }

  lemma {:induction false} SubSeqRefl<T(!new)>(xs: seq<T>)
    ensures SubSeq(xs, xs) && SubSeq([], xs)
  {
    if xs != [] { SubSeqRefl(xs[..|xs| - 1]); }
  }

  lemma {:induction false} SubSeqTrans<T(!new)>(xs: seq<T>, ys: seq<T>, zs: seq<T>)
    requires SubSeq(xs, ys) && SubSeq(ys, zs)
    ensures SubSeq(xs, zs)
    decreases |zs|
  {
    if zs != [] {
      var init := zs[..|zs| - 1];
      if SubSeq(ys, init) {
        SubSeqTrans(xs, ys, init);
      } else if SubSeq(xs, ys[..|ys| - 1]) {
        SubSeqTrans(xs, ys[..|ys| - 1], init);
      } else {
        SubSeqTrans(xs[..|xs| - 1], ys[..|ys| - 1], init);
      }
    }
  }

  lemma {:induction false} FilterLast<T>(xs: seq<T>, p: T -> bool)
    requires xs != []
    ensures var init, x := xs[..|xs| - 1], xs[|xs| - 1];
            Filter(xs, p) == if p(x) then Filter(init, p) + [x] else Filter(init, p)
  {
  }

  lemma {:induction false} FilterIsSub<T(!new)>(xs: seq<T>, p: T -> bool)
    ensures SubSeq(Filter(xs, p), xs)
  {
    if xs != [] {
      var init := xs[..|xs| - 1];
      FilterIsSub(init, p);
      FilterLast(xs, p);
      SnocIsSub(Filter(init, p), init, xs[|xs| - 1]);
      assert xs == init + [xs[|xs| - 1]];
    }
  }

  lemma {:induction false} PrefixIsSub<T(!new)>(xs: seq<T>, n: nat)
    requires n <= |xs|
    ensures SubSeq(xs[..n], xs)
    decreases |xs|
  {
    if n < |xs| {
      PrefixIsSub(xs[..|xs| - 1], n);
      assert xs[..|xs| - 1][..n] == xs[..n];
    } else {
      SubSeqRefl(xs);
      assert xs[..n] == xs;
    }
  }

  lemma {:induction false} ConsIsSub<T(!new)>(x: T, xs: seq<T>, ys: seq<T>)
    requires SubSeq(xs, ys)
    ensures SubSeq([x] + xs, [x] + ys)
    decreases |ys|
  {
    if ys == [] {
      assert [x] + ys == [x];
      SubSeqRefl([x]);
    } else {
      var init := ys[..|ys| - 1];
      assert ([x] + ys)[..|ys|] == [x] + init && ([x] + ys)[|ys|] == ys[|ys| - 1];
      if SubSeq(xs, init) {
        ConsIsSub(x, xs, init);
      } else {
        ConsIsSub(x, xs[..|xs| - 1], init);
        assert ([x] + xs)[..|xs|] == [x] + xs[..|xs| - 1];
      }
    }
  }

  /** Leaving elements out leaves each class in its order. */
  lemma {:induction false} FilterOfSub<T(!new)>(xs: seq<T>, ys: seq<T>, p: T -> bool)
    requires SubSeq(xs, ys)
    ensures SubSeq(Filter(xs, p), Filter(ys, p))
    decreases |ys|
  {
    if ys != [] {
      var init, y := ys[..|ys| - 1], ys[|ys| - 1];
      FilterLast(ys, p);
      if SubSeq(xs, init) {
        FilterOfSub(xs, init, p);
        SnocIsSub(Filter(xs, p), Filter(init, p), y);
      } else {
        FilterLast(xs, p);
        FilterOfSub(xs[..|xs| - 1], init, p);
        SnocIsSub(Filter(xs[..|xs| - 1], p), Filter(init, p), y);
      }
    }
  }

  lemma {:induction false} SnocIsSub<T(!new)>(xs: seq<T>, ys: seq<T>, y: T)
    requires SubSeq(xs, ys)
    ensures SubSeq(xs, ys + [y]) && SubSeq(xs + [y], ys + [y])
  {
    assert (ys + [y])[..|ys|] == ys && (xs + [y])[..|xs|] == xs;
  }

  // ---------------------------------------------------------------- ordering

  function On(health: string -> bool): Candidate -> bool { (c: Candidate) => health(c.provider) }

  function Off(health: string -> bool): Candidate -> bool { (c: Candidate) => !health(c.provider) }

  /** The candidates that survive the request-health gate: all of them if the gate would leave none. */
  function Routable(all: seq<Candidate>, healthy: string -> bool): seq<Candidate> {
    if Filter(all, On(healthy)) == [] then all else Filter(all, On(healthy))
  }

  function Ordered(enabled: bool, primary: Candidate, extra: seq<Candidate>,
                   healthy: string -> bool, discovered: string -> bool): seq<Candidate> {
    if !enabled || extra == [] then [primary]
    else
      var base := Routable([primary] + extra, healthy);
      Filter(base, On(discovered)) + Filter(base, Off(discovered))
  }

  /** orderedFailoverCandidates. */
  method OrderedFailoverCandidates(enabled: bool, primary: Candidate, extra: seq<Candidate>,
                                   healthy: string -> bool, discovered: string -> bool)
    returns (out: seq<Candidate>)
    ensures out == Ordered(enabled, primary, extra, healthy, discovered)
  {
    if !enabled || |extra| == 0 { return [primary]; }
    var all := [primary] + extra;
    var live: seq<Candidate> := [];
    for i := 0 to |all|
      invariant live == Filter(all[..i], On(healthy))
    {
      assert all[..i + 1][..i] == all[..i];
      if healthy(all[i].provider) { live := live + [all[i]]; }
    }
    assert all[..|all|] == all;
    if |live| == 0 { live := all; }
    var ordered: seq<Candidate> := [];
    var deprioritized: seq<Candidate> := [];
    for i := 0 to |live|
      invariant ordered == Filter(live[..i], On(discovered))
      invariant deprioritized == Filter(live[..i], Off(discovered))
    {
      assert live[..i + 1][..i] == live[..i];
      if discovered(live[i].provider) {
        ordered := ordered + [live[i]];
      } else {
        deprioritized := deprioritized + [live[i]];
      }
    }
    assert live[..|live|] == live;
    return ordered + deprioritized;
  }

  /**
   The partition is stable and loses nothing: the result is a permutation of the routable candidates,
   with the discovery-healthy ones first and each class in its original order.
   */
  lemma OrderedIsStable(primary: Candidate, extra: seq<Candidate>, healthy: string -> bool, discovered: string -> bool)
    requires extra != []
    ensures var out := Ordered(true, primary, extra, healthy, discovered);
            var base := Routable([primary] + extra, healthy);
            && multiset(out) == multiset(base)
            && Filter(out, On(discovered)) == Filter(base, On(discovered))
            && Filter(out, Off(discovered)) == Filter(base, Off(discovered))
            && (forall i, j :: 0 <= i < j < |out| && discovered(out[j].provider) ==> discovered(out[i].provider))
  {
    PartitionStable(Routable([primary] + extra, healthy), discovered);
  }

  lemma {:induction false} FilterKeeps<T>(xs: seq<T>, p: T -> bool)
    ensures forall i :: 0 <= i < |Filter(xs, p)| ==> p(Filter(xs, p)[i])
  {
    var kept := Filter(xs, p);
    forall i | 0 <= i < |kept| ensures p(kept[i]) { FilterMember(xs, p, kept[i]); }
  }

  /** Filtering a concatenation of the kept and the dropped gives back the kept, on whichever side they are. */
  lemma {:induction false} FilterOfParts<T>(kept: seq<T>, dropped: seq<T>, p: T -> bool)
    requires forall i :: 0 <= i < |kept| ==> p(kept[i])
    requires forall i :: 0 <= i < |dropped| ==> !p(dropped[i])
    ensures Filter(kept + dropped, p) == kept && Filter(dropped + kept, p) == kept
  {
    FilterAll(kept, p);
    FilterNone(dropped, p);
    FilterConcat(kept, dropped, p);
    FilterConcat(dropped, kept, p);
  }

  lemma {:induction false} PartitionPermutes(base: seq<Candidate>, discovered: string -> bool)
    ensures multiset(Filter(base, On(discovered)) + Filter(base, Off(discovered))) == multiset(base)
  {
    PartitionKeepsAll(base, On(discovered), Off(discovered));
  }

  lemma {:induction false} PartitionStable(base: seq<Candidate>, discovered: string -> bool)
    ensures var out := Filter(base, On(discovered)) + Filter(base, Off(discovered));
            && multiset(out) == multiset(base)
            && Filter(out, On(discovered)) == Filter(base, On(discovered))
            && Filter(out, Off(discovered)) == Filter(base, Off(discovered))
            && (forall i, j :: 0 <= i < j < |out| && discovered(out[j].provider) ==> discovered(out[i].provider))
  {
    var ok, off := Filter(base, On(discovered)), Filter(base, Off(discovered));
    PartitionPermutes(base, discovered);
    FilterKeeps(base, On(discovered));
    FilterKeeps(base, Off(discovered));
    assert forall i :: 0 <= i < |ok| ==> discovered(ok[i].provider);
    assert forall i :: 0 <= i < |off| ==> !discovered(off[i].provider);
    FilterOfParts(ok, off, On(discovered));
    FilterOfParts(off, ok, Off(discovered));
  }

  predicate NoneHealthy(all: seq<Candidate>, healthy: string -> bool) { forall i :: 0 <= i < |all| ==> !healthy(all[i].provider) }

  lemma {:induction false} OrderedIsRoutable(primary: Candidate, extra: seq<Candidate>, healthy: string -> bool, discovered: string -> bool, c: Candidate)
    requires extra != []
    ensures c in Ordered(true, primary, extra, healthy, discovered) <==> c in Routable([primary] + extra, healthy)
  {
    var out, base := Ordered(true, primary, extra, healthy, discovered), Routable([primary] + extra, healthy);
    OrderedIsStable(primary, extra, healthy, discovered);
    assert c in multiset(out) <==> c in multiset(base);
  }

  /** All candidates if none is healthy, else the healthy ones. */
  lemma {:induction false} RoutableMember(all: seq<Candidate>, healthy: string -> bool, c: Candidate)
    ensures c in Routable(all, healthy) <==> c in all && (healthy(c.provider) || NoneHealthy(all, healthy))
  {
    var live := Filter(all, On(healthy));
    FilterMember(all, On(healthy), c);
    if live == [] {
      forall i | 0 <= i < |all| ensures !healthy(all[i].provider) { FilterMember(all, On(healthy), all[i]); }
    } else {
      FilterMember(all, On(healthy), live[0]);
      var i :| 0 <= i < |all| && all[i] == live[0];
      assert healthy(all[i].provider);
    }
  }

  /**
   Never empty; its members are exactly the request-healthy candidates, or all of them when none is
   healthy; and with failover off or nothing to fail over to, the primary alone.
   */
  lemma {:induction false} OrderedMembers(enabled: bool, primary: Candidate, extra: seq<Candidate>,
                                          healthy: string -> bool, discovered: string -> bool)
    ensures var out := Ordered(enabled, primary, extra, healthy, discovered);
            && out != []
            && (!enabled || extra == [] ==> out == [primary])
            && (enabled && extra != [] ==>
                 forall c :: c in out <==> c in [primary] + extra && (healthy(c.provider) || NoneHealthy([primary] + extra, healthy)))
  {
    if enabled && extra != [] {
      var all, out := [primary] + extra, Ordered(enabled, primary, extra, healthy, discovered);
      forall c ensures c in out <==> c in all && (healthy(c.provider) || NoneHealthy(all, healthy)) {
        OrderedIsRoutable(primary, extra, healthy, discovered, c);
        RoutableMember(all, healthy, c);
      }
      if NoneHealthy(all, healthy) {
        assert all[0] in out;
      } else {
        var i :| 0 <= i < |all| && healthy(all[i].provider);
        assert all[i] in out;
      }
    }
  }

  // ---------------------------------------------------------------- the cost guard

  /** resolveUnifiedPricing: the canonical id first, the bare id only when that has no price. */
  function ResolvedPrice(c: Candidate, cat: Catalog): Option<Price> {
    match LookupPricing(c.canonical, cat)
    case Some(p) => Some(p)
    case None => LookupPricing(c.upstreamModel, cat)
  }

  /** candidateCostAllowed. */
  predicate CostAllowed(primary: Option<Price>, candidate: Option<Price>) {
    match (primary, candidate)
    case (Some(p), Some(c)) => c.inputPerM <= p.inputPerM && c.outputPerM <= p.outputPerM
    case (Some(_), None) => false
    case (None, Some(c)) => c.inputPerM == 0.0 && c.outputPerM == 0.0
    case (None, None) => true
  }

  function Allowed(head: Candidate, cat: Catalog): Candidate -> bool {
    (c: Candidate) => CostAllowed(ResolvedPrice(head, cat), ResolvedPrice(c, cat))
  }

  function Guarded(cands: seq<Candidate>, cat: Catalog): seq<Candidate> {
    if |cands| < 2 then cands else [cands[0]] + Filter(cands[1..], Allowed(cands[0], cat))
  }

  /** filterCandidatesByCost. */
  method FilterCandidatesByCost(cands: seq<Candidate>, cat: Catalog) returns (out: seq<Candidate>)
    ensures out == Guarded(cands, cat)
    ensures cands != [] ==> out != [] && out[0] == cands[0] && SubSeq(out, cands)
    ensures cands != [] ==>
              forall c :: c in cands[1..] ==> (c in out[1..] <==> PricedWithin(ResolvedPrice(cands[0], cat), ResolvedPrice(c, cat)))
  {
    if cands != [] { GuardedTail(cands, cat); }
    if |cands| < 2 { return cands; }
    var head := cands[0];
    var headPrice := ResolvedPrice(head, cat);
    out := [head];
    var rest := cands[1..];
    for i := 0 to |rest|
      invariant out == [head] + Filter(rest[..i], Allowed(head, cat))
    {
      assert rest[..i + 1][..i] == rest[..i];
      if CostAllowed(headPrice, ResolvedPrice(rest[i], cat)) { out := out + [rest[i]]; }
    }
    assert rest[..|rest|] == rest;
  }

  /** The guard keeps the head, reorders nothing, and keeps of the rest exactly what is priced within the head. */
  lemma {:induction false} GuardedTail(cands: seq<Candidate>, cat: Catalog)
    requires cands != []
    ensures var out := Guarded(cands, cat);
            && out != [] && out[0] == cands[0] && SubSeq(out, cands)
            && forall c :: c in cands[1..] ==> (c in out[1..] <==> PricedWithin(ResolvedPrice(cands[0], cat), ResolvedPrice(c, cat)))
  {
    var out, rest, p := Guarded(cands, cat), cands[1..], Allowed(cands[0], cat);
    SubSeqRefl(cands);
    if |cands| >= 2 {
      FilterIsSub(rest, p);
      ConsIsSub(cands[0], Filter(rest, p), rest);
      assert [cands[0]] + rest == cands && out[1..] == Filter(rest, p);
      forall c | c in rest ensures c in out[1..] <==> PricedWithin(ResolvedPrice(cands[0], cat), ResolvedPrice(c, cat)) {
        FilterMember(rest, p, c);
        GuardInPrices(ResolvedPrice(cands[0], cat), ResolvedPrice(c, cat));
      }
    }
  }

  /** capFailoverCandidates. */
  function Capped(cands: seq<Candidate>, max: int): seq<Candidate> {
    if max > 0 && |cands| > max then cands[..max] else cands
  }

  /** Order, guard and cap, as the request loop applies them. */
  function Tried(enabled: bool, primary: Candidate, extra: seq<Candidate>,
                 healthy: string -> bool, discovered: string -> bool, cat: Catalog, maxAttempts: int): seq<Candidate> {
    Capped(Guarded(Ordered(enabled, primary, extra, healthy, discovered), cat), maxAttempts)
  }

  ghost predicate ValidCatalog(cat: Catalog) {
    forall m: string {:trigger LookupPricing(m, cat)} :: LookupPricing(m, cat).Some? ==> ValidPrice(LookupPricing(m, cat).value)
  }

  /**
   Guard and cap keep the head, leave out but never reorder, keep only candidates the guard allows, and
   keep all of those unless the cap was reached.
   */
  lemma {:induction false} GuardedMembers(cands: seq<Candidate>, cat: Catalog, max: int)
    requires cands != []
    ensures var out := Capped(Guarded(cands, cat), max);
            && out != [] && out[0] == cands[0] && SubSeq(out, cands)
            && (max > 0 ==> |out| <= max)
            && (forall i :: 1 <= i < |out| ==> CostAllowed(ResolvedPrice(cands[0], cat), ResolvedPrice(out[i], cat)))
            && (max <= 0 || |out| < max ==>
                 forall i :: 1 <= i < |cands| && CostAllowed(ResolvedPrice(cands[0], cat), ResolvedPrice(cands[i], cat)) ==> cands[i] in out)
  {
    var g := Guarded(cands, cat);
    var out := Capped(g, max);
    SubSeqRefl(cands);
    if |cands| >= 2 {
      var rest, p := cands[1..], Allowed(cands[0], cat);
      FilterKeeps(rest, p);
      FilterIsSub(rest, p);
      ConsIsSub(cands[0], Filter(rest, p), rest);
      assert [cands[0]] + rest == cands;
      forall i | 1 <= i < |cands| && p(cands[i]) ensures cands[i] in g {
        assert cands[i] == rest[i - 1];
        FilterMember(rest, p, cands[i]);
      }
    }
    PrefixIsSub(g, |out|);
    assert out == g[..|out|];
    SubSeqTrans(out, g, cands);
  }

  /**
   What the guard lets through, in the prices alone: both known and neither side above the head's; the
   head unknown and the candidate priced zero on both sides; or neither known.
   */
  predicate PricedWithin(head: Option<Price>, c: Option<Price>) {
    (head.Some? && c.Some? && c.value.inputPerM <= head.value.inputPerM && c.value.outputPerM <= head.value.outputPerM) ||
    (head.None? && c.Some? && c.value.inputPerM == 0.0 && c.value.outputPerM == 0.0) ||
    (head.None? && c.None?)
  }

  lemma {:induction false} GuardInPrices(head: Option<Price>, c: Option<Price>)
    ensures CostAllowed(head, c) <==> PricedWithin(head, c)
  {
  }

  /** The class of candidates whose providers discovery reports as healthy, or the other one. */
  function Class(discovered: string -> bool, up: bool): Candidate -> bool { if up then On(discovered) else Off(discovered) }

  /** Ordering keeps each discovery-health class in the order the candidates were given. */
  lemma {:induction false} OrderedClass(enabled: bool, primary: Candidate, extra: seq<Candidate>,
                                        healthy: string -> bool, discovered: string -> bool, up: bool)
    ensures SubSeq(Filter(Ordered(enabled, primary, extra, healthy, discovered), Class(discovered, up)), [primary] + extra)
  {
    var all, p := [primary] + extra, Class(discovered, up);
    if !enabled || extra == [] {
      FilterIsSub([primary], p);
      PrefixIsSub(all, 1);
      assert all[..1] == [primary];
      SubSeqTrans(Filter([primary], p), [primary], all);
    } else {
      var base := Routable(all, healthy);
      OrderedIsStable(primary, extra, healthy, discovered);
      FilterIsSub(base, p);
      FilterIsSub(all, On(healthy));
      SubSeqRefl(all);
      SubSeqTrans(Filter(base, p), base, all);
    }
  }

  lemma {:induction false} TriedClass(enabled: bool, primary: Candidate, extra: seq<Candidate>, healthy: string -> bool,
                                      discovered: string -> bool, out: seq<Candidate>, up: bool)
    requires SubSeq(out, Ordered(enabled, primary, extra, healthy, discovered))
    ensures SubSeq(Filter(out, Class(discovered, up)), [primary] + extra)
  {
    var ordered, p := Ordered(enabled, primary, extra, healthy, discovered), Class(discovered, up);
    OrderedClass(enabled, primary, extra, healthy, discovered, up);
    FilterOfSub(out, ordered, p);
    SubSeqTrans(Filter(out, p), Filter(ordered, p), [primary] + extra);
  }

  /** A known head price is never exceeded; under an unknown one nothing has a price but zero. */
  ghost predicate NoDearer(head: Candidate, c: Candidate, cat: Catalog) {
    match ResolvedPrice(head, cat)
    case Some(p) => ResolvedPrice(c, cat).Some? && forall u: A.Usage :: ValidUsage(u) ==> CostOf(ResolvedPrice(c, cat).value, u) <= CostOf(p, u)
    case None => ResolvedPrice(c, cat).Some? ==> ResolvedPrice(c, cat).value == Price(0.0, 0.0)
  }

  lemma {:induction false} AllowedIsNoDearer(head: Candidate, c: Candidate, cat: Catalog)
    requires ValidCatalog(cat) && CostAllowed(ResolvedPrice(head, cat), ResolvedPrice(c, cat))
    ensures NoDearer(head, c, cat)
  {
    if ResolvedPrice(head, cat).Some? {
      forall u: A.Usage | ValidUsage(u) ensures CostOf(ResolvedPrice(c, cat).value, u) <= CostOf(ResolvedPrice(head, cat).value, u) {
        AllowedCostsNoMore(ResolvedPrice(head, cat).value, ResolvedPrice(c, cat).value, u);
      }
    }
  }

  lemma {:induction false} SubSeqMembers<T(!new)>(xs: seq<T>, ys: seq<T>)
    requires SubSeq(xs, ys)
    ensures forall x :: x in xs ==> x in ys
  {
    var at := SubSeqPlaces(xs, ys);
  }

  lemma {:induction false} SubSeqKeepsClassesApart(out: seq<Candidate>, ordered: seq<Candidate>, discovered: string -> bool)
    requires SubSeq(out, ordered)
    requires forall i, j :: 0 <= i < j < |ordered| && discovered(ordered[j].provider) ==> discovered(ordered[i].provider)
    ensures forall i, j :: 0 <= i < j < |out| && discovered(out[j].provider) ==> discovered(out[i].provider)
  {
    var at := SubSeqPlaces(out, ordered);
    forall i, j | 0 <= i < j < |out| && discovered(out[j].provider) ensures discovered(out[i].provider) {
      assert at[i] < at[j];
    }
  }

  /**
   The try list of the request loop. It starts with the head of the order and leaves candidates out
   without reordering, so that each discovery-health class stays in the order given and the healthy
   class comes first; it holds a request-unhealthy candidate only when all were; it holds no candidate
   dearer than its head, and every candidate the guard allows unless the cap was reached.
   */
  method TryList(enabled: bool, primary: Candidate, extra: seq<Candidate>,
                 healthy: string -> bool, discovered: string -> bool, cat: Catalog, maxAttempts: int)
    returns (out: seq<Candidate>)
    ensures out == Tried(enabled, primary, extra, healthy, discovered, cat, maxAttempts)
    ensures out != [] && out[0] == Ordered(enabled, primary, extra, healthy, discovered)[0]
    ensures SubSeq(out, Ordered(enabled, primary, extra, healthy, discovered)) && (maxAttempts > 0 ==> |out| <= maxAttempts)
    ensures forall up :: SubSeq(Filter(out, Class(discovered, up)), [primary] + extra)
    ensures forall i, j :: 0 <= i < j < |out| && discovered(out[j].provider) ==> discovered(out[i].provider)
    ensures enabled && extra != [] ==> (forall c :: c in out ==> healthy(c.provider)) || NoneHealthy([primary] + extra, healthy)
    ensures ValidCatalog(cat) ==> forall i :: 1 <= i < |out| ==> NoDearer(out[0], out[i], cat)
    ensures forall i :: 1 <= i < |out| ==> PricedWithin(ResolvedPrice(out[0], cat), ResolvedPrice(out[i], cat))
    ensures maxAttempts <= 0 || |out| < maxAttempts ==>
              forall c :: c in Ordered(enabled, primary, extra, healthy, discovered)[1..] ==>
                (c in out[1..] <==> PricedWithin(ResolvedPrice(out[0], cat), ResolvedPrice(c, cat)))
  {
    var ordered := OrderedFailoverCandidates(enabled, primary, extra, healthy, discovered);
    var guarded := FilterCandidatesByCost(ordered, cat);
    out := Capped(guarded, maxAttempts);
    OrderedMembers(enabled, primary, extra, healthy, discovered);
    GuardedMembers(ordered, cat, maxAttempts);
    SubSeqMembers(out, ordered);
    HealthyFirst(enabled, primary, extra, healthy, discovered);
    SubSeqKeepsClassesApart(out, ordered, discovered);
    forall up ensures SubSeq(Filter(out, Class(discovered, up)), [primary] + extra) {
      TriedClass(enabled, primary, extra, healthy, discovered, out, up);
    }
    forall c: Candidate ensures CostAllowed(ResolvedPrice(out[0], cat), ResolvedPrice(c, cat)) <==> PricedWithin(ResolvedPrice(out[0], cat), ResolvedPrice(c, cat)) {
      GuardInPrices(ResolvedPrice(out[0], cat), ResolvedPrice(c, cat));
    }
    if ValidCatalog(cat) {
      forall i | 1 <= i < |out| ensures NoDearer(out[0], out[i], cat) { AllowedIsNoDearer(out[0], out[i], cat); }
    }
  }

  lemma {:induction false} HealthyFirst(enabled: bool, primary: Candidate, extra: seq<Candidate>, healthy: string -> bool, discovered: string -> bool)
    ensures var out := Ordered(enabled, primary, extra, healthy, discovered);
            forall i, j :: 0 <= i < j < |out| && discovered(out[j].provider) ==> discovered(out[i].provider)
  {
    if enabled && extra != [] { OrderedIsStable(primary, extra, healthy, discovered); }
  }

  lemma AllowedCostsNoMore(head: Price, cand: Price, u: A.Usage)
    requires ValidPrice(head) && ValidPrice(cand) && ValidUsage(u)
    requires cand.inputPerM <= head.inputPerM && cand.outputPerM <= head.outputPerM
    ensures CostOf(cand, u) <= CostOf(head, u)
  {
    MicrosMonotone(cand.inputPerM, head.inputPerM);
    MicrosMonotone(cand.outputPerM, head.outputPerM);
    CostMonotone(Micros(cand.inputPerM), Micros(cand.outputPerM), Micros(head.inputPerM), Micros(head.outputPerM), u);
  }

  /**
   Every candidate that is tried is priced no higher than the first one tried: for a known head price
   it costs no more for every usage, and for an unknown one it is zero-priced or itself unpriced.
   */
  lemma NeverDearer(enabled: bool, primary: Candidate, extra: seq<Candidate>, healthy: string -> bool,
                    discovered: string -> bool, cat: Catalog, max: int, i: nat, u: A.Usage)
    requires ValidCatalog(cat) && ValidUsage(u)
    requires i < |Tried(enabled, primary, extra, healthy, discovered, cat, max)|
    ensures var out := Tried(enabled, primary, extra, healthy, discovered, cat, max);
            var head, tried := ResolvedPrice(out[0], cat), ResolvedPrice(out[i], cat);
            if head.Some? then tried.Some? && CostOf(tried.value, u) <= CostOf(head.value, u)
            else tried.None? || tried.value == Price(0.0, 0.0)
  {
    var cands := Ordered(enabled, primary, extra, healthy, discovered);
    OrderedMembers(enabled, primary, extra, healthy, discovered);
    GuardedMembers(cands, cat, max);
    var out := Capped(Guarded(cands, cat), max);
    var head, tried := ResolvedPrice(out[0], cat), ResolvedPrice(out[i], cat);
    if head.Some? && i > 0 { AllowedCostsNoMore(head.value, tried.value, u); }
  }

  // ---------------------------------------------------------------- what is billed

  /** modelMetaFree: the canonical entry decides alone; the bare entry only in its absence. */
  predicate MarkedFree(c: Candidate, meta: map<string, bool>) {
    if c.canonical in meta then meta[c.canonical]
    else c.upstreamModel in meta && meta[c.upstreamModel]
  }

  /** unifiedCostMicros: a model marked free bills nothing, whatever price it resolves to. */
  function Billed(c: Candidate, u: A.Usage, cat: Catalog, meta: map<string, bool>): int {
    if MarkedFree(c, meta) then 0
    else
      match ResolvedPrice(c, cat)
      case None => 0
      case Some(p) => CostOf(p, u)
  }

  lemma CostSign(inMicros: int, outMicros: int, u: A.Usage)
    requires ValidMicros(inMicros) && ValidMicros(outMicros) && ValidUsage(u)
    ensures CostMicros(inMicros, outMicros, u) >= 0
    ensures inMicros == 0 && outMicros == 0 ==> CostMicros(inMicros, outMicros, u) == 0
  {
    CostIsCutOff(inMicros, outMicros, u);
    NearestSign(Min(TrueProduct(inMicros, outMicros, u), MAX), CostMicros(inMicros, outMicros, u));
  }

  lemma NearestSign(t: int, r: int)
    requires t >= 0 && r == Nearest(t, MILLION)
    ensures r >= 0 && (t == 0 ==> r == 0)
  {
    NearestMonotone(0, t, MILLION);
    assert Nearest(0, MILLION) == 0;
  }

  lemma CostNonNegative(p: Price, u: A.Usage)
    requires ValidPrice(p) && ValidUsage(u)
    ensures CostOf(p, u) >= 0
    ensures Micros(p.inputPerM) == 0 && Micros(p.outputPerM) == 0 ==> CostOf(p, u) == 0
  {
    CostSign(Micros(p.inputPerM), Micros(p.outputPerM), u);
  }

  /** A product of at least a million is a cost of at least one. */
  lemma WholeMicroUSD(t: int)
    requires t >= MILLION
    ensures Nearest(Min(t, MAX), MILLION) >= 1
  {
    NearestMonotone(MILLION, Min(t, MAX), MILLION);
  }

  /** A million tokens on a side that has a price cost something. */
  lemma MillionTokens(p: Price)
    requires ValidPrice(p)
    ensures Micros(p.inputPerM) > 0 ==> CostOf(p, A.Usage(MILLION, 0)) > 0
    ensures Micros(p.outputPerM) > 0 ==> CostOf(p, A.Usage(0, MILLION)) > 0
  {
    var a, b := Micros(p.inputPerM), Micros(p.outputPerM);
    CostIsCutOff(a, b, A.Usage(MILLION, 0));
    CostIsCutOff(a, b, A.Usage(0, MILLION));
    if a > 0 { WholeMicroUSD(TrueProduct(a, b, A.Usage(MILLION, 0))); }
    if b > 0 { WholeMicroUSD(TrueProduct(a, b, A.Usage(0, MILLION))); }
  }

  /**
   What a candidate is billed: nothing if the entry under its canonical id, or failing that under its
   bare id, marks it free; otherwise its price, found under the canonical id first, or nothing.
   */
  lemma {:induction false} BilledBy(c: Candidate, u: A.Usage, cat: Catalog, meta: map<string, bool>)
    ensures c.canonical in meta && meta[c.canonical] ==> Billed(c, u, cat, meta) == 0
    ensures c.canonical !in meta && c.upstreamModel in meta && meta[c.upstreamModel] ==> Billed(c, u, cat, meta) == 0
    ensures (if c.canonical in meta then !meta[c.canonical] else c.upstreamModel in meta ==> !meta[c.upstreamModel]) ==>
              Billed(c, u, cat, meta) == if LookupPricing(c.canonical, cat).Some? then CostOf(LookupPricing(c.canonical, cat).value, u)
                                         else if LookupPricing(c.upstreamModel, cat).Some? then CostOf(LookupPricing(c.upstreamModel, cat).value, u)
                                         else 0
  {
  }

  /** What the guard compares is what is billed, except under a head that is marked free. */
  predicate BillingAgrees(head: Candidate, tried: Candidate, cat: Catalog, meta: map<string, bool>) {
    !MarkedFree(head, meta) || MarkedFree(tried, meta) || ResolvedPrice(tried, cat).None? ||
    (Micros(ResolvedPrice(tried, cat).value.inputPerM) == 0 && Micros(ResolvedPrice(tried, cat).value.outputPerM) == 0)
  }

  /**
   The guard resolves prices without looking at the free marks that billing honours. A candidate the
   guard allows is billed no more than the head for every usage exactly when the head is not marked
   free, or the candidate is, or the candidate has no price in whole micro-USD.
   */
  lemma BilledNoMoreIff(head: Candidate, tried: Candidate, cat: Catalog, meta: map<string, bool>)
    requires ValidCatalog(cat) && CostAllowed(ResolvedPrice(head, cat), ResolvedPrice(tried, cat))
    ensures (forall u: A.Usage :: ValidUsage(u) ==> Billed(tried, u, cat, meta) <= Billed(head, u, cat, meta)) <==>
            BillingAgrees(head, tried, cat, meta)
  {
    var hp, tp := ResolvedPrice(head, cat), ResolvedPrice(tried, cat);
    if BillingAgrees(head, tried, cat, meta) {
      forall u: A.Usage | ValidUsage(u) ensures Billed(tried, u, cat, meta) <= Billed(head, u, cat, meta) {
        if hp.Some? { CostNonNegative(hp.value, u); }
        if tp.Some? { CostNonNegative(tp.value, u); }
        if hp.Some? && tp.Some? { AllowedCostsNoMore(hp.value, tp.value, u); }
      }
    } else {
      MillionTokens(tp.value);
      var u := if Micros(tp.value.inputPerM) > 0 then A.Usage(MILLION, 0) else A.Usage(0, MILLION);
      assert ValidUsage(u) && Billed(tried, u, cat, meta) > Billed(head, u, cat, meta);
    }
  }

  /** The id the registry gives a provider's model. */
  predicate IsCanonical(c: Candidate) { c.canonical == c.provider + "/" + c.upstreamModel }

  lemma {:induction false} PairTried(head: Candidate, tried: Candidate, healthy: string -> bool, discovered: string -> bool, cat: Catalog)
    requires healthy(head.provider) && healthy(tried.provider) && discovered(head.provider) && discovered(tried.provider)
    requires ResolvedPrice(head, cat) == ResolvedPrice(tried, cat)
    ensures Tried(true, head, [tried], healthy, discovered, cat, 0) == [head, tried]
  {
    PairOrdered(head, tried, healthy, discovered);
    PairGuarded(head, tried, cat);
  }

  lemma {:induction false} PairOrdered(head: Candidate, tried: Candidate, healthy: string -> bool, discovered: string -> bool)
    requires healthy(head.provider) && healthy(tried.provider) && discovered(head.provider) && discovered(tried.provider)
    ensures Ordered(true, head, [tried], healthy, discovered) == [head, tried]
  {
    var all := [head] + [tried];
    FilterAll(all, On(healthy));
    FilterAll(all, On(discovered));
    FilterNone(all, Off(discovered));
    assert all == [head, tried] && all + [] == all;
  }

  lemma {:induction false} PairGuarded(head: Candidate, tried: Candidate, cat: Catalog)
    requires ResolvedPrice(head, cat) == ResolvedPrice(tried, cat)
    ensures Guarded([head, tried], cat) == [head, tried]
  {
    var rest := [head, tried][1..];
    assert rest == [tried];
    assert Allowed(head, cat)(tried);
    FilterAll(rest, Allowed(head, cat));
  }

  /** A head marked free and a candidate that is not, both priced alike by the tables. */
  lemma {:induction false} FreeHeadFamily(head: Candidate, tried: Candidate, cat: Catalog, meta: map<string, bool>, p: Price)
    requires ValidPrice(p) && Micros(p.inputPerM) > 0
    requires ResolvedPrice(head, cat) == Some(p) && ResolvedPrice(tried, cat) == Some(p)
    requires MarkedFree(head, meta) && !MarkedFree(tried, meta)
    ensures var u := A.Usage(MILLION, 0); Billed(head, u, cat, meta) == 0 && Billed(tried, u, cat, meta) > 0
  {
    MillionTokens(p);
  }

  /**
   The failing family is real: two healthy providers of the model `m`, priced by its bare id, the first
   marked free. Both are in the try list, the first is billed nothing and the second is not.
   */
  lemma {:induction false} FreeHeadCanFailOverToBilled(healthy: string -> bool, discovered: string -> bool)
    returns (head: Candidate, tried: Candidate, cat: Catalog, meta: map<string, bool>, u: A.Usage)
    requires healthy("local") && healthy("paid") && discovered("local") && discovered("paid")
    ensures head == Candidate("local", "m", "local/m") && tried == Candidate("paid", "m", "paid/m")
    ensures IsCanonical(head) && IsCanonical(tried) && ValidUsage(u)
    ensures Tried(true, head, [tried], healthy, discovered, cat, 0) == [head, tried]
    ensures Billed(head, u, cat, meta) == 0 && Billed(tried, u, cat, meta) > 0
  {
    var one := Price(1.0, 1.0);
    head, tried, u := Candidate("local", "m", "local/m"), Candidate("paid", "m", "paid/m"), A.Usage(MILLION, 0);
    cat, meta := Catalog(map[], map["m" := one], map[]), map["local/m" := true];
    assert "local" + "/" + "m" == "local/m" && "paid" + "/" + "m" == "paid/m";
    assert |"local/m"| == 7 && |"paid/m"| == 6 && |"m"| == 1;
    assert ResolvedPrice(head, cat) == Some(one) && ResolvedPrice(tried, cat) == Some(one);
    assert Micros(1.0) == 1000000;
    PairTried(head, tried, healthy, discovered, cat);
    FreeHeadFamily(head, tried, cat, meta, one);
  }
}
