/**
 Access grants. A principal may belong to several groups and hold a personal grant; a passthrough
 request is authorised only when one single grant covers provider, path and model together.

 Glob matching, percent-decoding and the split of a configured provider prefix are library or registry
 behaviour and enter as the functions of `Env`.
 */
module Access {
  import opened Common
  import opened Decimal
  import opened Keys
  import A = Admission
  import P = Protocol

  datatype Env = Env(glob: (string, string) -> bool, unescape: string -> Option<string>, bare: string -> string)

  /** `grants`, `memberGroups` and `personalGrant` are set only on a principal built by EffectiveGroup. */
  datatype Group = Group(name: string, limits: Option<A.Limits>,
                         providers: seq<string>, models: seq<string>,
                         mcpServers: seq<string>, agents: seq<string>, passthroughPaths: seq<string>,
                         cache: Option<bool>, cacheTTL: int,
                         grants: Option<seq<Grant>>, memberGroups: Option<seq<Group>>, personalGrant: Option<Grant>)

  /** A configured, named group. */
  predicate Ordinary(g: Group) { g.grants.None? && g.memberGroups.None? && g.personalGrant.None? }

  predicate AllOrdinary(gs: seq<Group>) { forall i :: 0 <= i < |gs| ==> Ordinary(gs[i]) }

  // ---------------------------------------------------------------- globs

  /** An empty pattern list matches anything. */
  predicate MatchesGlob(env: Env, patterns: seq<string>, candidate: string) {
    patterns == [] || exists i :: 0 <= i < |patterns| && env.glob(patterns[i], candidate)
  }

  /** matchesGlob. */
  method MatchGlob(env: Env, patterns: seq<string>, candidate: string) returns (ok: bool)
    ensures ok == MatchesGlob(env, patterns, candidate)
  {
    if |patterns| == 0 { return true; }
    for i := 0 to |patterns|
      invariant forall j :: 0 <= j < i ==> !env.glob(patterns[j], candidate)
    {
      if env.glob(patterns[i], candidate) { return true; }
    }
    return false;
  }

  predicate AllowsProvider(env: Env, g: Group, provider: string) { MatchesGlob(env, g.providers, provider) }

  /** The path list allows the path: it is empty, or the path decodes and one pattern matches what it decodes to. */
  predicate PathAllowed(env: Env, paths: seq<string>, rest: string) {
    paths == [] || match env.unescape(rest) case None => false case Some(d) => MatchesGlob(env, paths, d)
  }

  /**
   allowsPassthroughPath: an empty list allows all before decoding; otherwise an undecodable path is
   denied and the patterns see the decoded path, never the raw one.
   */
  method AllowsPassthroughPath(env: Env, paths: seq<string>, rest: string) returns (ok: bool)
    ensures ok == PathAllowed(env, paths, rest)
    ensures ok <==> paths == [] || exists d, p :: env.unescape(rest) == Some(d) && p in paths && env.glob(p, d)
  {
    if |paths| == 0 { return true; }
    var decoded := env.unescape(rest);
    if decoded.None? { return false; }
    ok := MatchGlob(env, paths, decoded.value);
    if ok {
      var i :| 0 <= i < |paths| && env.glob(paths[i], decoded.value);
      assert env.unescape(rest) == Some(decoded.value) && paths[i] in paths && env.glob(paths[i], decoded.value);
    }
  }

  // ---------------------------------------------------------------- merging groups

  /** unionOrAll's result: nothing, meaning everything, as soon as one list is empty. */
  function UnionOrAll(lists: seq<seq<string>>): seq<string> {
    if exists i :: 0 <= i < |lists| && lists[i] == [] then [] else Flatten(lists)
  }

  function Flatten(lists: seq<seq<string>>): seq<string> {
    if lists == [] then [] else Flatten(lists[..|lists| - 1]) + lists[|lists| - 1]
  }

  method ComputeUnionOrAll(lists: seq<seq<string>>) returns (out: seq<string>)
    ensures out == UnionOrAll(lists)
  {
    for i := 0 to |lists|
      invariant forall j :: 0 <= j < i ==> lists[j] != []
    {
      if |lists[i]| == 0 { return []; }
    }
    out := [];
    for i := 0 to |lists|
      invariant out == Flatten(lists[..i])
    {
      assert lists[..i + 1][..i] == lists[..i];
      out := out + lists[i];
    }
    assert lists[..|lists|] == lists;
  }

  lemma {:induction false} FlattenMatches(env: Env, lists: seq<seq<string>>, c: string)
    requires forall i :: 0 <= i < |lists| ==> lists[i] != []
    ensures (exists j :: 0 <= j < |Flatten(lists)| && env.glob(Flatten(lists)[j], c)) <==>
            (exists i :: 0 <= i < |lists| && MatchesGlob(env, lists[i], c))
  {
    if lists != [] {
      var n := |lists| - 1;
      var init, last := lists[..n], lists[n];
      assert forall i :: 0 <= i < n ==> init[i] == lists[i];
      FlattenMatches(env, init, c);
      var f, all := Flatten(init), Flatten(lists);
      assert all == f + last;
      if j :| 0 <= j < |all| && env.glob(all[j], c) {
        if j < |f| {
          assert env.glob(f[j], c);
          var i :| 0 <= i < n && MatchesGlob(env, init[i], c);
          assert MatchesGlob(env, lists[i], c);
        } else {
          assert env.glob(last[j - |f|], c);
          assert MatchesGlob(env, lists[n], c);
        }
      }
      if i :| 0 <= i < |lists| && MatchesGlob(env, lists[i], c) {
        if i < n {
          assert MatchesGlob(env, init[i], c);
          var j :| 0 <= j < |f| && env.glob(f[j], c);
          assert env.glob(all[j], c);
        } else {
          var j :| 0 <= j < |last| && env.glob(last[j], c);
          assert env.glob(all[|f| + j], c);
        }
      }
    }
  }

  /** The merged list matches exactly what one of the lists matches. */
  lemma UnionMatches(env: Env, lists: seq<seq<string>>, c: string)
    requires lists != []
    ensures MatchesGlob(env, UnionOrAll(lists), c) <==> exists i :: 0 <= i < |lists| && MatchesGlob(env, lists[i], c)
  {
    if i :| 0 <= i < |lists| && lists[i] == [] {
      assert MatchesGlob(env, lists[i], c);
    } else {
      FlattenMatches(env, lists, c);
      assert |Flatten(lists)| > 0;
    }
  }

  datatype Field = Providers | Models | McpServers | Agents

  function ListOf(g: Group, f: Field): seq<string> {
    match f
    case Providers => g.providers
    case Models => g.models
    case McpServers => g.mcpServers
    case Agents => g.agents
  }

  function ListsOf(members: seq<Group>, f: Field): (lists: seq<seq<string>>)
    ensures |lists| == |members| && forall i :: 0 <= i < |members| ==> lists[i] == ListOf(members[i], f)
  {
    seq(|members|, i requires 0 <= i < |members| => ListOf(members[i], f))
  }

  function JoinNames(members: seq<Group>): string {
    if members == [] then ""
    else if |members| == 1 then members[0].name
    else JoinNames(members[..|members| - 1]) + "+" + members[|members| - 1].name
  }

  function GrantOf(g: Group): Grant { Grant(g.providers, g.models) }

  function GrantList(personal: Option<Grant>): seq<Grant> { match personal case None => [] case Some(g) => [g] }

  function MemberGrants(members: seq<Group>): (gs: seq<Grant>)
    ensures |gs| == |members| && forall i :: 0 <= i < |members| ==> gs[i] == GrantOf(members[i])
  {
    seq(|members|, i requires 0 <= i < |members| => GrantOf(members[i]))
  }

  /** A merged principal's lists are the unions of its members' lists, the personal grant joining for providers and models. */
  lemma {:induction false} MergedFields(members: seq<Group>, personal: Option<Grant>)
    requires |members| > 1 || (members != [] && personal.Some?)
    ensures var grp := Effective(members, personal);
            grp.mcpServers == UnionOrAll(ListsOf(members, McpServers)) && grp.agents == UnionOrAll(ListsOf(members, Agents)) &&
            (personal.None? ==> grp.models == UnionOrAll(ListsOf(members, Models))) &&
            (personal.Some? ==> grp.models == UnionOrAll(ListsOf(members, Models) + [personal.value.models]))
  {
    assert ListsOf(members, Models) + [] == ListsOf(members, Models);
  }

  /** The union of the servers is what some member may use, */
  lemma {:induction false} MergedServers(env: Env, members: seq<Group>, x: string)
    requires members != []
    ensures MatchesGlob(env, UnionOrAll(ListsOf(members, McpServers)), x) <==>
            exists i :: 0 <= i < |members| && MatchesGlob(env, members[i].mcpServers, x)
  {
    UnionOfMembers(env, members, McpServers, x);
  }

  /** so is that of the agents, */
  lemma {:induction false} MergedAgents(env: Env, members: seq<Group>, x: string)
    requires members != []
    ensures MatchesGlob(env, UnionOrAll(ListsOf(members, Agents)), x) <==>
            exists i :: 0 <= i < |members| && MatchesGlob(env, members[i].agents, x)
  {
    UnionOfMembers(env, members, Agents, x);
  }

  /** and that of the models, with those of the personal grant. */
  lemma {:induction false} MergedModels(env: Env, members: seq<Group>, personal: Grant, x: string)
    requires members != []
    ensures MatchesGlob(env, UnionOrAll(ListsOf(members, Models)), x) <==>
            exists i :: 0 <= i < |members| && MatchesGlob(env, members[i].models, x)
    ensures MatchesGlob(env, UnionOrAll(ListsOf(members, Models) + [personal.models]), x) <==>
            (exists i :: 0 <= i < |members| && MatchesGlob(env, members[i].models, x)) || MatchesGlob(env, personal.models, x)
  {
    UnionOfMembers(env, members, Models, x);
    UnionOver(env, members, Models, [personal.models], x);
    assert [personal.models][0] == personal.models;
  }

  lemma {:induction false} UnionOfMembers(env: Env, members: seq<Group>, f: Field, x: string)
    requires members != []
    ensures MatchesGlob(env, UnionOrAll(ListsOf(members, f)), x) <==>
            exists i :: 0 <= i < |members| && MatchesGlob(env, ListOf(members[i], f), x)
  {
    var lists := ListsOf(members, f);
    UnionMatches(env, lists, x);
    if i :| 0 <= i < |lists| && MatchesGlob(env, lists[i], x) { assert MatchesGlob(env, ListOf(members[i], f), x); }
    if i :| 0 <= i < |members| && MatchesGlob(env, ListOf(members[i], f), x) { assert MatchesGlob(env, lists[i], x); }
  }

  lemma {:induction false} UnionOver(env: Env, members: seq<Group>, f: Field, more: seq<seq<string>>, x: string)
    requires members != []
    ensures MatchesGlob(env, UnionOrAll(ListsOf(members, f) + more), x) <==>
            (exists i :: 0 <= i < |members| && MatchesGlob(env, ListOf(members[i], f), x)) ||
            (exists i :: 0 <= i < |more| && MatchesGlob(env, more[i], x))
  {
    var own, n := ListsOf(members, f), |members|;
    var lists := own + more;
    UnionMatches(env, lists, x);
    if i :| 0 <= i < |lists| && MatchesGlob(env, lists[i], x) {
      if i < n { assert lists[i] == ListOf(members[i], f); } else { assert lists[i] == more[i - n]; }
    }
    if i :| 0 <= i < n && MatchesGlob(env, ListOf(members[i], f), x) { assert MatchesGlob(env, lists[i], x); }
    if i :| 0 <= i < |more| && MatchesGlob(env, more[i], x) { assert lists[n + i] == more[i] && MatchesGlob(env, lists[n + i], x); }
  }

  /** One refusal to cache wins, then one wish to cache. */
  function MergedCache(members: seq<Group>): Option<bool> {
    if exists i :: 0 <= i < |members| && members[i].cache == Some(false) then Some(false)
    else if exists i :: 0 <= i < |members| && members[i].cache == Some(true) then Some(true)
    else None
  }

  lemma TwoBools(c: Option<bool>)
    ensures c.None? || c == Some(true) || c == Some(false)
  {
    if c.Some? && c.value { assert c == Some(true); }
  }

  /** A refusal to cache decides, else a wish; only silence all round leaves it open. */
  lemma {:induction false} MergedCacheExact(members: seq<Group>)
    ensures MergedCache(members) == Some(false) <==> exists i :: 0 <= i < |members| && members[i].cache == Some(false)
    ensures MergedCache(members) == None <==> forall i :: 0 <= i < |members| ==> members[i].cache == None
  {
    if MergedCache(members) == None {
      forall i | 0 <= i < |members| ensures members[i].cache == None {
        TwoBools(members[i].cache);
      }
    }
  }

  /** A merged principal is named after its members, in order, with plus signs between. */
  lemma {:induction false} MergedName(first: Group, second: Group, rest: seq<Group>)
    ensures JoinNames([first]) == first.name && JoinNames([first, second]) == first.name + "+" + second.name
    ensures rest != [] ==> JoinNames(rest + [first]) == JoinNames(rest) + "+" + first.name
  {
    assert [first, second][..1] == [first];
    if rest != [] { assert (rest + [first])[..|rest|] == rest; }
  }

  /** The smallest positive lifetime, or 0. */
  function MergedTTL(members: seq<Group>): int {
    if members == [] then 0
    else
      var t, last := MergedTTL(members[..|members| - 1]), members[|members| - 1].cacheTTL;
      if last > 0 && (t == 0 || last < t) then last else t
  }

  /** The merged lifetime is the least positive one, and 0 only when there is none. */
  lemma {:induction false} MergedTTLIsLeast(members: seq<Group>)
    ensures MergedTTL(members) >= 0
    ensures MergedTTL(members) == 0 <==> forall i :: 0 <= i < |members| ==> members[i].cacheTTL <= 0
    ensures MergedTTL(members) > 0 ==> exists i :: 0 <= i < |members| && members[i].cacheTTL == MergedTTL(members)
    ensures forall i :: 0 <= i < |members| && members[i].cacheTTL > 0 ==> MergedTTL(members) <= members[i].cacheTTL
  {
    if members != [] {
      var n := |members| - 1;
      var init := members[..n];
      assert forall i :: 0 <= i < n ==> init[i] == members[i];
      MergedTTLIsLeast(init);
      if MergedTTL(members) == members[n].cacheTTL {
        assert members[n].cacheTTL == MergedTTL(members);
      } else if i :| 0 <= i < n && init[i].cacheTTL == MergedTTL(init) {
        assert members[i].cacheTTL == MergedTTL(init);
      }
    }
  }

  /** The principal effectiveGroup builds. */
  function Effective(members: seq<Group>, personal: Option<Grant>): Group {
    if |members| == 1 && personal.None? then members[0]
    else
      Group(JoinNames(members), None,
            UnionOrAll(ListsOf(members, Providers) + if personal.Some? then [personal.value.providers] else []),
            UnionOrAll(ListsOf(members, Models) + if personal.Some? then [personal.value.models] else []),
            UnionOrAll(ListsOf(members, McpServers)), UnionOrAll(ListsOf(members, Agents)),
            [], MergedCache(members), MergedTTL(members),
            Some(MemberGrants(members) + GrantList(personal)), Some(members), personal)
  }

  /** The cache half of effectiveGroup's loop. */
  method MergeCache(members: seq<Group>) returns (cache: Option<bool>, minTTL: int)
    ensures cache == MergedCache(members) && minTTL == MergedTTL(members)
  {
    var sawCacheFalse, sawCacheTrue := false, false;
    minTTL := 0;
    for i := 0 to |members|
      invariant sawCacheFalse == exists j :: 0 <= j < i && members[j].cache == Some(false)
      invariant sawCacheTrue == exists j :: 0 <= j < i && members[j].cache == Some(true)
      invariant minTTL == MergedTTL(members[..i])
    {
      var m := members[i];
      assert members[..i + 1][..i] == members[..i];
      if m.cache.Some? {
        if m.cache.value { sawCacheTrue := true; } else { sawCacheFalse := true; }
      }
      if m.cacheTTL > 0 && (minTTL == 0 || m.cacheTTL < minTTL) { minTTL := m.cacheTTL; }
    }
    assert members[..|members|] == members;
    cache := if sawCacheFalse then Some(false) else if sawCacheTrue then Some(true) else None;
  }

  /** The name half of the loop: the member names joined by "+", and one grant per member. */
  method CollectNames(members: seq<Group>) returns (name: string, grants: seq<Grant>)
    ensures name == JoinNames(members) && grants == MemberGrants(members)
  {
    name, grants := "", [];
    for i := 0 to |members|
      invariant name == JoinNames(members[..i]) && grants == MemberGrants(members[..i])
    {
      assert members[..i + 1][..i] == members[..i];
      name := if i == 0 then members[i].name else name + "+" + members[i].name;
      grants := grants + [GrantOf(members[i])];
    }
    assert members[..|members|] == members;
  }

  /** The list half of the loop, for one of the four pattern lists. */
  method CollectLists(members: seq<Group>, f: Field) returns (lists: seq<seq<string>>)
    ensures lists == ListsOf(members, f)
  {
    lists := [];
    for i := 0 to |members|
      invariant lists == ListsOf(members[..i], f)
    {
      lists := lists + [ListOf(members[i], f)];
    }
    assert members[..|members|] == members;
  }

  /** effectiveGroup. */
  method EffectiveGroup(members: seq<Group>, personal: Option<Grant>) returns (grp: Group)
    ensures grp == Effective(members, personal)
  {
    if |members| == 1 && personal.None? { return members[0]; }
    var name, grants := CollectNames(members);
    var providerLists := CollectLists(members, Providers);
    var modelLists := CollectLists(members, Models);
    var mcpLists := CollectLists(members, McpServers);
    var agentLists := CollectLists(members, Agents);
    var cache, minTTL := MergeCache(members);
    if personal.Some? {
      grants := grants + [personal.value];
      providerLists := providerLists + [personal.value.providers];
      modelLists := modelLists + [personal.value.models];
    }
    assert grants == MemberGrants(members) + GrantList(personal);
    assert providerLists == ListsOf(members, Providers) + if personal.Some? then [personal.value.providers] else [];
    assert modelLists == ListsOf(members, Models) + if personal.Some? then [personal.value.models] else [];
    var providers := ComputeUnionOrAll(providerLists);
    var models := ComputeUnionOrAll(modelLists);
    var mcp := ComputeUnionOrAll(mcpLists);
    var agents := ComputeUnionOrAll(agentLists);
    return Group(name, None, providers, models, mcp, agents, [], cache, minTTL, Some(grants), Some(members), personal);
  }

  // ---------------------------------------------------------------- single grants

  /** What one grant covers; the personal grant borrows the primary group's paths. */
  datatype SingleGrant = SingleGrant(providers: seq<string>, paths: seq<string>, models: seq<string>)

  function OwnGrant(g: Group): SingleGrant { SingleGrant(g.providers, g.passthroughPaths, g.models) }

  /** Every grant a user with these groups and this personal grant holds. */
  function GrantsHeld(members: seq<Group>, personal: Option<Grant>): (gs: seq<SingleGrant>)
    ensures |gs| == |members| + if personal.Some? && members != [] then 1 else 0
    ensures forall i :: 0 <= i < |members| ==> gs[i] == OwnGrant(members[i])
    ensures personal.Some? && members != [] ==> gs[|members|] == PersonalGrant(members[0], personal.value)
  {
    seq(|members|, i requires 0 <= i < |members| => OwnGrant(members[i])) +
    if personal.Some? && members != [] then [PersonalGrant(members[0], personal.value)] else []
  }

  function PersonalGrant(primary: Group, g: Grant): SingleGrant {
    SingleGrant(g.providers, primary.passthroughPaths, g.models)
  }

  predicate Reaches(env: Env, g: SingleGrant, provider: string, rest: string) {
    MatchesGlob(env, g.providers, provider) && PathAllowed(env, g.paths, rest)
  }

  /** The forms under which a model is matched. */
  function ModelIds(env: Env, provider: string, model: string): seq<string> {
    [model, env.bare(model), provider + "/" + env.bare(model)]
  }

  predicate AnyMatches(env: Env, patterns: seq<string>, ids: seq<string>) {
    exists i :: 0 <= i < |ids| && MatchesGlob(env, patterns, ids[i])
  }

  /** The model named by the request body, if the body could be inspected, is one the patterns allow. */
  predicate ModelCovered(env: Env, patterns: seq<string>, provider: string, peeked: Option<string>) {
    patterns == [] || (peeked.Some? && AnyMatches(env, patterns, ModelIds(env, provider, peeked.value)))
  }

  predicate Covers(env: Env, g: SingleGrant, provider: string, rest: string, peeked: Option<string>) {
    Reaches(env, g, provider, rest) && ModelCovered(env, g.models, provider, peeked)
  }

  predicate SomeGrantCovers(env: Env, gs: seq<SingleGrant>, provider: string, rest: string, peeked: Option<string>) {
    exists i :: 0 <= i < |gs| && Covers(env, gs[i], provider, rest, peeked)
  }

  // ---------------------------------------------------------------- questions about the held grants

  function MemberScopeGroups(grp: Group): seq<Group> {
    match grp.memberGroups case Some(ms) => ms case None => [grp]
  }

  function GrantCount(grp: Group): nat { match grp.grants case Some(gs) => |gs| case None => 1 }

  /** The single grants behind a principal; a personal grant counts only beside member groups. */
  function HeldOf(grp: Group): seq<SingleGrant> {
    GrantsHeld(MemberScopeGroups(grp), if grp.memberGroups.Some? then grp.personalGrant else None)
  }

  ghost predicate SomeHeld(gs: seq<SingleGrant>, q: SingleGrant -> bool) { exists i :: 0 <= i < |gs| && q(gs[i]) }

  function Matching(env: Env, provider: string): SingleGrant -> bool {
    (g: SingleGrant) => MatchesGlob(env, g.providers, provider)
  }

  function Reaching(env: Env, provider: string, rest: string): SingleGrant -> bool {
    (g: SingleGrant) => Reaches(env, g, provider, rest)
  }

  function ReachingAny(env: Env, provider: string, rest: string): SingleGrant -> bool {
    (g: SingleGrant) => Reaches(env, g, provider, rest) && g.models == []
  }

  function ReachingIds(env: Env, provider: string, rest: string, ids: seq<string>): SingleGrant -> bool {
    (g: SingleGrant) => Reaches(env, g, provider, rest) && AnyMatches(env, g.models, ids)
  }

  /** personalGrantAllowsPath together with the personal grant's own provider list. */
  method PersonalReaches(env: Env, grp: Group, provider: string, rest: string) returns (ok: bool)
    ensures ok <==> grp.personalGrant.Some? && grp.memberGroups.Some? && |grp.memberGroups.value| > 0 &&
                    Reaches(env, PersonalGrant(grp.memberGroups.value[0], grp.personalGrant.value), provider, rest)
  {
    if grp.personalGrant.None? || grp.memberGroups.None? || |grp.memberGroups.value| == 0 { return false; }
    ok := MatchGlob(env, grp.personalGrant.value.providers, provider);
    if ok { ok := AllowsPassthroughPath(env, grp.memberGroups.value[0].passthroughPaths, rest); }
  }

  /** If no member's own grant satisfies `q`, only the personal grant can. */
  lemma OnlyPersonalLeft(grp: Group, q: SingleGrant -> bool)
    requires forall i :: 0 <= i < |MemberScopeGroups(grp)| ==> !q(OwnGrant(MemberScopeGroups(grp)[i]))
    ensures SomeHeld(HeldOf(grp), q) <==>
            grp.personalGrant.Some? && grp.memberGroups.Some? && |grp.memberGroups.value| > 0 &&
            q(PersonalGrant(grp.memberGroups.value[0], grp.personalGrant.value))
  {
    var gs, ms := HeldOf(grp), MemberScopeGroups(grp);
    assert forall i :: 0 <= i < |ms| ==> gs[i] == OwnGrant(ms[i]);
    if grp.personalGrant.Some? && grp.memberGroups.Some? && |grp.memberGroups.value| > 0 &&
       q(PersonalGrant(grp.memberGroups.value[0], grp.personalGrant.value)) {
      assert q(gs[|ms|]);
    }
  }

  lemma OwnIsHeld(grp: Group, q: SingleGrant -> bool, i: nat)
    requires i < |MemberScopeGroups(grp)| && q(OwnGrant(MemberScopeGroups(grp)[i]))
    ensures SomeHeld(HeldOf(grp), q)
  {
    assert q(HeldOf(grp)[i]);
  }

  /** allowsPassthroughPathForProvider. */
  method AllowsPassthroughPathForProvider(env: Env, grp: Group, provider: string, rest: string) returns (ok: bool)
    ensures ok == SomeHeld(HeldOf(grp), Reaching(env, provider, rest))
  {
    var ms := MemberScopeGroups(grp);
    ghost var q := Reaching(env, provider, rest);
    for i := 0 to |ms|
      invariant forall j :: 0 <= j < i ==> !q(OwnGrant(ms[j]))
    {
      var allows := MatchGlob(env, ms[i].providers, provider);
      var opens := AllowsPassthroughPath(env, ms[i].passthroughPaths, rest);
      if allows && opens {
        OwnIsHeld(grp, q, i);
        return true;
      }
    }
    OnlyPersonalLeft(grp, q);
    ok := PersonalReaches(env, grp, provider, rest);
  }

  /** hasModelRestrictionForProviderPath. */
  method HasModelRestrictionForProviderPath(env: Env, grp: Group, provider: string, rest: string) returns (restricted: bool)
    ensures restricted == !SomeHeld(HeldOf(grp), ReachingAny(env, provider, rest))
  {
    var ms := MemberScopeGroups(grp);
    ghost var q := ReachingAny(env, provider, rest);
    for i := 0 to |ms|
      invariant forall j :: 0 <= j < i ==> !q(OwnGrant(ms[j]))
    {
      var allows := MatchGlob(env, ms[i].providers, provider);
      var opens := AllowsPassthroughPath(env, ms[i].passthroughPaths, rest);
      if allows && opens && |ms[i].models| == 0 {
        OwnIsHeld(grp, q, i);
        return false;
      }
    }
    OnlyPersonalLeft(grp, q);
    var personal := PersonalReaches(env, grp, provider, rest);
    return !(personal && |grp.personalGrant.value.models| == 0);
  }

  method AnyIdMatches(env: Env, patterns: seq<string>, ids: seq<string>) returns (ok: bool)
    ensures ok == AnyMatches(env, patterns, ids)
  {
    for i := 0 to |ids|
      invariant forall j :: 0 <= j < i ==> !MatchesGlob(env, patterns, ids[j])
    {
      ok := MatchGlob(env, patterns, ids[i]);
      if ok { return; }
    }
    return false;
  }

  /** allowsPassthroughModelForPath. */
  method AllowsPassthroughModelForPath(env: Env, grp: Group, provider: string, rest: string, ids: seq<string>) returns (ok: bool)
    ensures ok == SomeHeld(HeldOf(grp), ReachingIds(env, provider, rest, ids))
  {
    var ms := MemberScopeGroups(grp);
    ghost var q := ReachingIds(env, provider, rest, ids);
    for i := 0 to |ms|
      invariant forall j :: 0 <= j < i ==> !q(OwnGrant(ms[j]))
    {
      var allows := MatchGlob(env, ms[i].providers, provider);
      var opens := AllowsPassthroughPath(env, ms[i].passthroughPaths, rest);
      if !allows || !opens { continue; }
      var any := AnyIdMatches(env, ms[i].models, ids);
      if any {
        OwnIsHeld(grp, q, i);
        return true;
      }
    }
    OnlyPersonalLeft(grp, q);
    var personal := PersonalReaches(env, grp, provider, rest);
    if personal {
      ok := AnyIdMatches(env, grp.personalGrant.value.models, ids);
      return;
    }
    return false;
  }

  /** allowsProviderModel, single-grant form. */
  predicate AllowsProviderModel(env: Env, grp: Group, provider: string, ids: seq<string>) {
    AllowsProvider(env, grp, provider) && AnyMatches(env, grp.models, ids)
  }

  // ---------------------------------------------------------------- the gate

  /** The merged provider list admits exactly the providers of the held grants. */
  lemma ProviderUnion(env: Env, members: seq<Group>, personal: Option<Grant>, provider: string)
    requires members != []
    ensures MatchesGlob(env, Effective(members, personal).providers, provider) <==>
            SomeHeld(GrantsHeld(members, personal), Matching(env, provider))
  {
    var gs := GrantsHeld(members, personal);
    if |members| == 1 && personal.None? {
      assert gs[0] == OwnGrant(members[0]);
      if SomeHeld(gs, Matching(env, provider)) { assert Matching(env, provider)(gs[0]); }
    } else {
      var lists := ListsOf(members, Providers) + if personal.Some? then [personal.value.providers] else [];
      UnionMatches(env, lists, provider);
      assert |lists| == |gs| && forall i :: 0 <= i < |gs| ==> lists[i] == gs[i].providers;
      if i :| 0 <= i < |lists| && MatchesGlob(env, lists[i], provider) { assert Matching(env, provider)(gs[i]); }
      if i :| 0 <= i < |gs| && Matching(env, provider)(gs[i]) { assert MatchesGlob(env, lists[i], provider); }
    }
  }

  lemma EffectiveShape(members: seq<Group>, personal: Option<Grant>)
    requires members != [] && AllOrdinary(members)
    ensures var grp := Effective(members, personal);
            if |members| == 1 && personal.None? then grp == members[0] && GrantCount(grp) == 1 && MemberScopeGroups(grp) == members
            else GrantCount(grp) > 1 && grp.memberGroups == Some(members) && grp.personalGrant == personal
    ensures HeldOf(Effective(members, personal)) == GrantsHeld(members, personal)
  {
    if |members| == 1 && personal.None? { assert Ordinary(members[0]) && [members[0]] == members; }
  }

  /** The three facts the multi-grant path asks for put together say that one grant covers the request. */
  lemma CoverageFromFacts(env: Env, gs: seq<SingleGrant>, provider: string, rest: string, peeked: Option<string>)
    ensures !SomeHeld(gs, Reaching(env, provider, rest)) ==> !SomeGrantCovers(env, gs, provider, rest, peeked)
    ensures SomeHeld(gs, ReachingAny(env, provider, rest)) ==> SomeGrantCovers(env, gs, provider, rest, peeked)
    ensures !SomeHeld(gs, ReachingAny(env, provider, rest)) && peeked.None? ==> !SomeGrantCovers(env, gs, provider, rest, peeked)
    ensures !SomeHeld(gs, ReachingAny(env, provider, rest)) && peeked.Some? ==>
              (SomeGrantCovers(env, gs, provider, rest, peeked) <==>
               SomeHeld(gs, ReachingIds(env, provider, rest, ModelIds(env, provider, peeked.value))))
  {
    if i :| 0 <= i < |gs| && Covers(env, gs[i], provider, rest, peeked) {
      assert Reaching(env, provider, rest)(gs[i]);
      if gs[i].models == [] {
        assert ReachingAny(env, provider, rest)(gs[i]);
      } else {
        assert ReachingIds(env, provider, rest, ModelIds(env, provider, peeked.value))(gs[i]);
      }
    }
    if i :| 0 <= i < |gs| && ReachingAny(env, provider, rest)(gs[i]) {
      assert Covers(env, gs[i], provider, rest, peeked);
    }
    if peeked.Some? {
      if i :| 0 <= i < |gs| && ReachingIds(env, provider, rest, ModelIds(env, provider, peeked.value))(gs[i]) {
        assert Covers(env, gs[i], provider, rest, peeked);
      }
    }
  }

  lemma CoverageNeedsProvider(env: Env, gs: seq<SingleGrant>, provider: string, rest: string, peeked: Option<string>)
    ensures SomeGrantCovers(env, gs, provider, rest, peeked) ==> SomeHeld(gs, Matching(env, provider))
  {
    if i :| 0 <= i < |gs| && Covers(env, gs[i], provider, rest, peeked) { assert Matching(env, provider)(gs[i]); }
  }

  // ---------------------------------------------------------------- the gate in plain terms

  /** A pattern list names a text: it is empty, or one of its patterns matches. */
  ghost predicate Lists(env: Env, patterns: seq<string>, x: string) { patterns == [] || exists p :: p in patterns && env.glob(p, x) }

  /**
   One grant, said in the matcher, the decoder and the prefix split alone: its providers name the
   provider; its paths are empty or name what the path decodes to; and its models are empty or name the
   model as sent, without its provider prefix, or with this provider's.
   */
  ghost predicate Authorises(env: Env, providers: seq<string>, paths: seq<string>, models: seq<string>,
                             provider: string, rest: string, peeked: Option<string>)
  {
    Lists(env, providers, provider) &&
    (paths == [] || exists d :: env.unescape(rest) == Some(d) && Lists(env, paths, d)) &&
    (models == [] ||
     (peeked.Some? && (Lists(env, models, peeked.value) || Lists(env, models, env.bare(peeked.value)) ||
                       Lists(env, models, provider + "/" + env.bare(peeked.value)))))
  }

  lemma {:induction false} ListsIsGlob(env: Env, patterns: seq<string>, x: string)
    ensures Lists(env, patterns, x) <==> MatchesGlob(env, patterns, x)
  {
    if i :| 0 <= i < |patterns| && env.glob(patterns[i], x) { assert patterns[i] in patterns; }
    if p :| p in patterns && env.glob(p, x) {
      var i :| 0 <= i < |patterns| && patterns[i] == p;
      assert env.glob(patterns[i], x);
    }
  }

  lemma {:induction false} PathInPlainTerms(env: Env, paths: seq<string>, rest: string)
    ensures PathAllowed(env, paths, rest) <==> paths == [] || exists d :: env.unescape(rest) == Some(d) && Lists(env, paths, d)
  {
    if env.unescape(rest).Some? { ListsIsGlob(env, paths, env.unescape(rest).value); }
  }

  lemma {:induction false} ModelInPlainTerms(env: Env, models: seq<string>, provider: string, peeked: Option<string>)
    ensures ModelCovered(env, models, provider, peeked) <==>
            models == [] ||
            (peeked.Some? && (Lists(env, models, peeked.value) || Lists(env, models, env.bare(peeked.value)) ||
                              Lists(env, models, provider + "/" + env.bare(peeked.value))))
  {
    if peeked.Some? {
      var ids := ModelIds(env, provider, peeked.value);
      ListsIsGlob(env, models, ids[0]);
      ListsIsGlob(env, models, ids[1]);
      ListsIsGlob(env, models, ids[2]);
      if MatchesGlob(env, models, ids[0]) || MatchesGlob(env, models, ids[1]) || MatchesGlob(env, models, ids[2]) {
        assert AnyMatches(env, models, ids);
      }
      if i :| 0 <= i < |ids| && MatchesGlob(env, models, ids[i]) { assert i == 0 || i == 1 || i == 2; }
    }
  }

  lemma {:induction false} CoversInPlainTerms(env: Env, g: SingleGrant, provider: string, rest: string, peeked: Option<string>)
    ensures Covers(env, g, provider, rest, peeked) <==> Authorises(env, g.providers, g.paths, g.models, provider, rest, peeked)
  {
    ListsIsGlob(env, g.providers, provider);
    PathInPlainTerms(env, g.paths, rest);
    ModelInPlainTerms(env, g.models, provider, peeked);
  }

  /** Some group of the user, or the personal grant with the first group's paths, authorises the request. */
  ghost predicate SomeAuthorises(env: Env, members: seq<Group>, personal: Option<Grant>, provider: string, rest: string, peeked: Option<string>) {
    (exists i :: 0 <= i < |members| &&
       Authorises(env, members[i].providers, members[i].passthroughPaths, members[i].models, provider, rest, peeked)) ||
    (personal.Some? && members != [] &&
     Authorises(env, personal.value.providers, members[0].passthroughPaths, personal.value.models, provider, rest, peeked))
  }

  lemma {:induction false} CoverageInPlainTerms(env: Env, members: seq<Group>, personal: Option<Grant>,
                                                provider: string, rest: string, peeked: Option<string>)
    ensures SomeGrantCovers(env, GrantsHeld(members, personal), provider, rest, peeked) <==>
            SomeAuthorises(env, members, personal, provider, rest, peeked)
  {
    var gs, n := GrantsHeld(members, personal), |members|;
    forall i | 0 <= i < |gs|
      ensures Covers(env, gs[i], provider, rest, peeked) <==>
              Authorises(env, gs[i].providers, gs[i].paths, gs[i].models, provider, rest, peeked)
    {
      CoversInPlainTerms(env, gs[i], provider, rest, peeked);
    }
    if i :| 0 <= i < |gs| && Covers(env, gs[i], provider, rest, peeked) {
      if i < n { assert gs[i] == OwnGrant(members[i]); } else { assert gs[i] == PersonalGrant(members[0], personal.value); }
    }
    if i :| 0 <= i < |members| && Authorises(env, members[i].providers, members[i].passthroughPaths, members[i].models, provider, rest, peeked) {
      assert gs[i] == OwnGrant(members[i]) && Covers(env, gs[i], provider, rest, peeked);
    }
    if personal.Some? && members != [] { assert gs[n] == PersonalGrant(members[0], personal.value); }
  }

  lemma {:induction false} ProvidersInPlainTerms(env: Env, members: seq<Group>, personal: Option<Grant>, provider: string)
    ensures SomeHeld(GrantsHeld(members, personal), Matching(env, provider)) <==>
            (exists i :: 0 <= i < |members| && Lists(env, members[i].providers, provider)) ||
            (personal.Some? && members != [] && Lists(env, personal.value.providers, provider))
  {
    var gs, n := GrantsHeld(members, personal), |members|;
    forall i | 0 <= i < |gs| ensures Matching(env, provider)(gs[i]) <==> Lists(env, gs[i].providers, provider) {
      ListsIsGlob(env, gs[i].providers, provider);
    }
    if i :| 0 <= i < |gs| && Matching(env, provider)(gs[i]) {
      if i < n { assert gs[i] == OwnGrant(members[i]); } else { assert gs[i] == PersonalGrant(members[0], personal.value); }
    }
    if i :| 0 <= i < |members| && Lists(env, members[i].providers, provider) {
      assert gs[i] == OwnGrant(members[i]) && Matching(env, provider)(gs[i]);
    }
    if personal.Some? && members != [] && Lists(env, personal.value.providers, provider) {
      assert gs[n] == PersonalGrant(members[0], personal.value) && Matching(env, provider)(gs[n]);
    }
  }

  /** A path that does not decode is refused by every group that restricts paths. */
  lemma {:induction false} UndecodableIsRefused(env: Env, members: seq<Group>, personal: Option<Grant>,
                                                provider: string, rest: string, peeked: Option<string>)
    requires env.unescape(rest).None? && forall i :: 0 <= i < |members| ==> members[i].passthroughPaths != []
    ensures !SomeAuthorises(env, members, personal, provider, rest, peeked)
  {
  }

  /** Two spellings of one path are authorised alike. */
  lemma {:induction false} SpellingDoesNotMatter(env: Env, members: seq<Group>, personal: Option<Grant>,
                                                 provider: string, rest: string, rest': string, peeked: Option<string>)
    requires env.unescape(rest) == env.unescape(rest')
    requires SomeAuthorises(env, members, personal, provider, rest, peeked)
    ensures SomeAuthorises(env, members, personal, provider, rest', peeked)
  {
    if i :| 0 <= i < |members| && Authorises(env, members[i].providers, members[i].passthroughPaths, members[i].models, provider, rest, peeked) {
      SameSpelling(env, members[i].providers, members[i].passthroughPaths, members[i].models, provider, rest, rest', peeked);
    } else {
      SameSpelling(env, personal.value.providers, members[0].passthroughPaths, personal.value.models, provider, rest, rest', peeked);
    }
  }

  lemma {:induction false} SameSpelling(env: Env, providers: seq<string>, paths: seq<string>, models: seq<string>,
                                        provider: string, rest: string, rest': string, peeked: Option<string>)
    requires env.unescape(rest) == env.unescape(rest') && Authorises(env, providers, paths, models, provider, rest, peeked)
    ensures Authorises(env, providers, paths, models, provider, rest', peeked)
  {
  }

  datatype Verdict = Allowed | ProviderDenied | PathDenied | ModelUnknown | ModelDenied

  /** The multi-grant branch of handlePassthrough: path, then model restriction, then model. */
  method MultiGrantGate(env: Env, grp: Group, provider: string, rest: string, peeked: Option<string>) returns (v: Verdict)
    ensures !v.ProviderDenied?
    ensures v.Allowed? <==> SomeGrantCovers(env, HeldOf(grp), provider, rest, peeked)
  {
    CoverageFromFacts(env, HeldOf(grp), provider, rest, peeked);
    var pathOk := AllowsPassthroughPathForProvider(env, grp, provider, rest);
    if !pathOk { return PathDenied; }
    var restricted := HasModelRestrictionForProviderPath(env, grp, provider, rest);
    if restricted {
      if peeked.None? { return ModelUnknown; }
      var modelOk := AllowsPassthroughModelForPath(env, grp, provider, rest, ModelIds(env, provider, peeked.value));
      if !modelOk { return ModelDenied; }
    }
    return Allowed;
  }

  /** The single-grant branch: model restriction and model, then path. */
  method SingleGrantGate(env: Env, grp: Group, provider: string, rest: string, peeked: Option<string>) returns (v: Verdict)
    requires Ordinary(grp) && AllowsProvider(env, grp, provider)
    ensures !v.ProviderDenied?
    ensures v.Allowed? <==> Covers(env, OwnGrant(grp), provider, rest, peeked)
  {
    if |grp.models| > 0 {
      if peeked.None? { return ModelUnknown; }
      if !AllowsProviderModel(env, grp, provider, ModelIds(env, provider, peeked.value)) { return ModelDenied; }
    }
    var pathOk := AllowsPassthroughPathForProvider(env, grp, provider, rest);
    assert HeldOf(grp) == [OwnGrant(grp)];
    assert Reaching(env, provider, rest)(HeldOf(grp)[0]) == Reaches(env, OwnGrant(grp), provider, rest);
    if !pathOk { return PathDenied; }
    return Allowed;
  }

  /**
   The authorisation part of handlePassthrough, for any principal a user can have. `peeked` is the model
   of the request body, or None when it is unreadable, too long or names none. A request passes exactly
   when one single grant covers provider, path and model, and is refused on the provider exactly when no
   grant names it.
   */
  method PassthroughGate(env: Env, members: seq<Group>, personal: Option<Grant>,
                         provider: string, rest: string, peeked: Option<string>)
    returns (v: Verdict)
    requires members != [] && AllOrdinary(members)
    ensures v.Allowed? <==> SomeGrantCovers(env, GrantsHeld(members, personal), provider, rest, peeked)
    ensures v.Allowed? <==> SomeAuthorises(env, members, personal, provider, rest, peeked)
    ensures v.ProviderDenied? <==>
              !(exists i :: 0 <= i < |members| && Lists(env, members[i].providers, provider)) &&
              !(personal.Some? && Lists(env, personal.value.providers, provider))
    ensures env.unescape(rest).None? && (forall i :: 0 <= i < |members| ==> members[i].passthroughPaths != []) ==> !v.Allowed?
  {
    CoverageInPlainTerms(env, members, personal, provider, rest, peeked);
    ProvidersInPlainTerms(env, members, personal, provider);
    if env.unescape(rest).None? && (forall i :: 0 <= i < |members| ==> members[i].passthroughPaths != []) {
      UndecodableIsRefused(env, members, personal, provider, rest, peeked);
    }
    var grp := EffectiveGroup(members, personal);
    ghost var gs := GrantsHeld(members, personal);
    EffectiveShape(members, personal);
    ProviderUnion(env, members, personal, provider);
    var providerOk := MatchGlob(env, grp.providers, provider);
    if !providerOk {
      CoverageNeedsProvider(env, gs, provider, rest, peeked);
      return ProviderDenied;
    }
    if GrantCount(grp) > 1 {
      v := MultiGrantGate(env, grp, provider, rest, peeked);
    } else {
      v := SingleGrantGate(env, grp, provider, rest, peeked);
      assert gs[0] == OwnGrant(grp) && |gs| == 1;
    }
  }

  /** Authorised: some single grant held covers the request. This is what PassthroughGate decides. */
  ghost predicate Authorised(env: Env, members: seq<Group>, personal: Option<Grant>,
                             provider: string, rest: string, peeked: Option<string>)
  {
    SomeGrantCovers(env, GrantsHeld(members, personal), provider, rest, peeked)
  }

  /** Joining one more group authorises exactly the old requests and those the group authorises alone. */
  lemma JoiningAddsOnlyItsOwn(env: Env, members: seq<Group>, personal: Option<Grant>, joined: Group,
                              provider: string, rest: string, peeked: Option<string>)
    requires members != []
    ensures Authorised(env, members + [joined], personal, provider, rest, peeked) <==>
            Authorised(env, members, personal, provider, rest, peeked) || Authorised(env, [joined], None, provider, rest, peeked)
  {
    var all := members + [joined];
    var gs, hs, own := GrantsHeld(all, personal), GrantsHeld(members, personal), GrantsHeld([joined], None);
    var n := |members|;
    assert gs[n] == OwnGrant(joined) == own[0];
    assert forall i :: 0 <= i < n ==> gs[i] == hs[i];
    assert personal.Some? ==> gs[n + 1] == hs[n];
    if i :| 0 <= i < |gs| && Covers(env, gs[i], provider, rest, peeked) {
      if i < n {
        assert Covers(env, hs[i], provider, rest, peeked);
      } else if i == n {
        assert Covers(env, own[0], provider, rest, peeked);
      } else {
        assert Covers(env, hs[n], provider, rest, peeked);
      }
    }
    if i :| 0 <= i < |hs| && Covers(env, hs[i], provider, rest, peeked) {
      assert Covers(env, gs[if i < n then i else n + 1], provider, rest, peeked);
    }
    if Covers(env, own[0], provider, rest, peeked) { assert Covers(env, gs[n], provider, rest, peeked); }
  }

  // ---------------------------------------------------------------- membership and limit scopes

  /** effectiveGroupNames: the primary first, then each further name once, in order. */
  method EffectiveGroupNames(primary: string, extra: seq<string>) returns (names: seq<string>)
    ensures Distinct(names) && "" !in names
    ensures forall n :: n in names <==> n != "" && (n == primary || n in extra)
    ensures primary != "" ==> |names| > 0 && names[0] == primary
    ensures names == FirstSeen(if primary == "" then [] else [primary], extra)
  {
    var seen: set<string> := {};
    names := [];
    if primary != "" {
      seen := {primary};
      names := [primary];
    }
    ghost var start := names;
    for i := 0 to |extra|
      invariant seen == set n | n in names
      invariant Distinct(names) && "" !in names && start <= names
      invariant forall n :: n in names <==> n != "" && (n == primary || n in extra[..i])
      invariant FirstSeen(names, extra[i..]) == FirstSeen(start, extra)
    {
      assert extra[..i + 1] == extra[..i] + [extra[i]];
      assert extra[i..][0] == extra[i] && extra[i..][1..] == extra[i + 1..];
      if extra[i] == "" || extra[i] in seen { continue; }
      seen := seen + {extra[i]};
      names := names + [extra[i]];
    }
    assert extra[..|extra|] == extra;
  }

  /** `names` followed by the names of `rest` not met before. */
  function FirstSeen(names: seq<string>, rest: seq<string>): seq<string>
    decreases rest
  {
    if rest == [] then names
    else if rest[0] == "" || rest[0] in names then FirstSeen(names, rest[1..])
    else FirstSeen(names + [rest[0]], rest[1..])
  }

  /** withTotalScope(buildLimitScopes(user, group)). */
  function LimitScopes(user: string, limits: Option<A.Limits>, members: seq<Group>): seq<A.Scope> {
    [A.Scope(limits, "user", user)] +
    seq(|members|, i requires 0 <= i < |members| => A.Scope(members[i].limits, "group", members[i].name)) +
    [A.Scope(None, A.TOTAL_KIND, A.TOTAL_ID)]
  }

  /** De-duplicated membership gives the admission protocol the distinct scopes and the total it relies on. */
  lemma LimitScopesWellFormed(user: string, limits: Option<A.Limits>, members: seq<Group>)
    requires forall i, j :: 0 <= i < j < |members| ==> members[i].name != members[j].name
    ensures P.WellFormedScopes(LimitScopes(user, limits, members))
    ensures exists i :: 0 <= i < |LimitScopes(user, limits, members)| &&
              A.IsTotal(LimitScopes(user, limits, members)[i]) && LimitScopes(user, limits, members)[i].limits.None?
    ensures forall i :: 0 <= i < |LimitScopes(user, limits, members)| ==> NoColon(LimitScopes(user, limits, members)[i].kind)
    ensures var scopes, n := LimitScopes(user, limits, members), |members|;
            |scopes| == n + 2 && scopes[0] == A.Scope(limits, "user", user) && scopes[n + 1] == A.Scope(None, "total", "all") &&
            forall i :: 0 <= i < n ==> scopes[i + 1] == A.Scope(members[i].limits, "group", members[i].name)
  {
    var scopes := LimitScopes(user, limits, members);
    var n := |members| + 1;
    assert scopes[0].kind == "user" && scopes[n] == A.Scope(None, A.TOTAL_KIND, A.TOTAL_ID);
    assert forall i :: 1 <= i < n ==> scopes[i] == A.Scope(members[i - 1].limits, "group", members[i - 1].name);
    assert "user"[0] != "group"[0] && "user"[0] != "total"[0] && "group"[0] != "total"[0];
    assert "user"[0] != "model"[0] && "group"[0] != "model"[0] && "total"[0] != "model"[0];
    assert A.IsTotal(scopes[n]) && scopes[n].limits.None?;
  }

  // ---------------------------------------------------------------- the models cache key

  function MemberNames(members: seq<Group>): (names: seq<string>)
    ensures |names| == |members| && forall i :: 0 <= i < |members| ==> names[i] == members[i].name
  {
    seq(|members|, i requires 0 <= i < |members| => members[i].name)
  }

  function PrincipalOf(grp: Group): Principal {
    match grp.memberGroups
    case None => Named(grp.name)
    case Some(ms) => Synthetic(MemberNames(ms), grp.personalGrant)
  }

  lemma {:induction false} NetstringsAppend(xs: seq<string>, x: string)
    ensures Netstrings(xs + [x]) == Netstrings(xs) + Netstring(x)
  {
    if xs == [] {
      NetstringsCons([x]);
      assert xs + [x] == [x];
    } else {
      NetstringsAppend(xs[1..], x);
      assert (xs + [x])[1..] == xs[1..] + [x];
      NetstringsCons(xs);
      NetstringsCons(xs + [x]);
      Assoc(Netstring(xs[0]), Netstrings(xs[1..]), Netstring(x));
    }
  }

  lemma {:induction false} NetstringsCons(xs: seq<string>)
    requires xs != []
    ensures Netstrings(xs) == Netstring(xs[0]) + Netstrings(xs[1..])
  {
  }

  lemma {:induction false} Assoc(a: string, b: string, c: string)
    ensures a + b + c == a + (b + c)
  {
  }

  method WriteList(xs: seq<string>) returns (s: string)
    ensures s == ListText(xs)
  {
    s := Itoa(|xs|) + ":";
    for i := 0 to |xs|
      invariant s == Itoa(|xs|) + ":" + Netstrings(xs[..i])
    {
      NetstringsAppend(xs[..i], xs[i]);
      assert xs[..i + 1] == xs[..i] + [xs[i]];
      s := s + (Itoa(|xs[i]|) + ":" + xs[i]);
    }
    assert xs[..|xs|] == xs;
  }

  /** modelsCacheKey: reading the key back gives the principal's kind, ordered members and personal grant. */
  method ModelsCacheKey(grp: Group) returns (key: string)
    ensures DecodeCacheKey(key) == Some(PrincipalOf(grp))
  {
    CacheKeyRoundTrip(PrincipalOf(grp));
    if grp.memberGroups.None? {
      return "g" + (Itoa(|grp.name|) + ":" + grp.name);
    }
    var members := WriteList(MemberNames(grp.memberGroups.value));
    key := "s" + members;
    if grp.personalGrant.None? {
      key := key + "N";
      return;
    }
    var providers := WriteList(grp.personalGrant.value.providers);
    var models := WriteList(grp.personalGrant.value.models);
    key := key + ("Y" + providers + models);
  }
}
