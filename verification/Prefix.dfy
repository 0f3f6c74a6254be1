/**
 Platform-specific configuration: patterns are prefixes of platform names, and the longest matching
 pattern that says something wins. The sources sort the patterns and let later ones overwrite
 earlier ones, or search them backwards; both must come to the same as picking the longest.
 */
module Prefix {
  import opened Wrappers
  import opened Sorting

  // ----- Patterns -----

  type Attributes = map<string, Option<string>>

  /** A pattern and the attributes it sets; a value may be null. */
  datatype Match = Match(pattern: string, attributes: Attributes)

  function PatternOf(m: Match): string {
    m.pattern
  }

  ghost predicate Distinct(ms: seq<Match>) {
    DistinctKeys(PatternOf, ms)
  }

  ghost predicate Sorted(ms: seq<Match>) {
    SortedBy(PatternOf, ms)
  }

  /** sorted(): by pattern, since no two patterns are equal. */
  function SortMatches(ms: seq<Match>): seq<Match> {
    Sort(PatternOf, ms)
  }

  // ----- The longest matching pattern -----

  /** A pattern that is a prefix of the platform and says something of interest. */
  predicate Applies(platform: string, m: Match, says: Match -> bool) {
    m.pattern <= platform && says(m)
  }

  /** The applying match with the longest pattern. */
  function Longest(platform: string, ms: seq<Match>, says: Match -> bool): (r: Option<Match>)
    ensures r.Some? ==> r.value in ms && Applies(platform, r.value, says)
    ensures forall x :: x in ms && Applies(platform, x, says) ==> r.Some? && |x.pattern| <= |r.value.pattern|
  {
    if ms == [] then None
    else
      var last, rest := ms[|ms| - 1], Longest(platform, ms[..|ms| - 1], says);
      assert ms == ms[..|ms| - 1] + [last];
      if Applies(platform, last, says) && (rest.None? || |rest.value.pattern| < |last.pattern|) then Some(last)
      else rest
  }

  /** The longest match does not depend on the order of the patterns. */
  lemma {:induction false} LongestOfSorted(platform: string, ms: seq<Match>, says: Match -> bool)
    requires Distinct(ms)
    ensures Longest(platform, SortMatches(ms), says) == Longest(platform, ms, says)
  {
    var a, b := Longest(platform, SortMatches(ms), says), Longest(platform, ms, says);
    if a.Some? { SameElements(PatternOf, ms, a.value); }
    if b.Some? { SameElements(PatternOf, ms, b.value); }
    if a.Some? && b.Some? {
      var i :| 0 <= i < |ms| && ms[i] == a.value;
      var j :| 0 <= j < |ms| && ms[j] == b.value;
      assert a.value.pattern == platform[..|a.value.pattern|] && b.value.pattern == platform[..|b.value.pattern|];
      assert i == j;
    }
  }

  /** In sorted order, the last applying match is the longest. */
  lemma {:induction false} LastIsLongest(platform: string, ms: seq<Match>, k: nat, says: Match -> bool)
    requires Sorted(ms) && k < |ms|
    ensures Longest(platform, ms[..k + 1], says) ==
            if Applies(platform, ms[k], says) then Some(ms[k]) else Longest(platform, ms[..k], says)
  {
    var upTo := ms[..k + 1];
    assert upTo[..|upTo| - 1] == ms[..k] && upTo[|upTo| - 1] == ms[k];
    var rest := Longest(platform, ms[..k], says);
    if Applies(platform, ms[k], says) && rest.Some? {
      var i :| 0 <= i < k && ms[i] == rest.value;
      PrefixesByLength(ms[i].pattern, ms[k].pattern, platform);
    }
  }

  /** Going backwards, a match that applies is longer than all that are still to come. */
  lemma {:induction false} FirstFromBehind(platform: string, ms: seq<Match>, k: nat, says: Match -> bool)
    requires Sorted(ms) && k < |ms|
    requires forall i :: k < i < |ms| ==> !Applies(platform, ms[i], says)
    ensures Applies(platform, ms[k], says) ==> Longest(platform, ms, says) == Some(ms[k])
  {
    if Applies(platform, ms[k], says) {
      LastIsLongest(platform, ms, k, says);
      SkipRest(platform, ms, k + 1, says);
    }
  }

  lemma {:induction false} SkipRest(platform: string, ms: seq<Match>, k: nat, says: Match -> bool)
    requires k <= |ms| && forall i :: k <= i < |ms| ==> !Applies(platform, ms[i], says)
    ensures Longest(platform, ms, says) == Longest(platform, ms[..k], says)
  {
    if k == |ms| {
      assert ms[..k] == ms;
    } else {
      var shorter := ms[..|ms| - 1];
      SkipRest(platform, shorter, k, says);
      assert shorter[..k] == ms[..k];
    }
  }

  // ----- RemoteWalker -----

  predicate Defines(m: Match, attribute: string) {
    attribute in m.attributes
  }

  function Get(attributes: Attributes, attribute: string): Option<Option<string>> {
    if attribute in attributes then Some(attributes[attribute]) else None
  }

  /** `m` matches the platform and defines the attribute, and no other pattern that does is longer. */
  ghost predicate Wins(platform: string, ms: seq<Match>, attribute: string, m: Match) {
    && m in ms && m.pattern <= platform && attribute in m.attributes
    && forall x :: x in ms && x.pattern <= platform && attribute in x.attributes ==> |x.pattern| <= |m.pattern|
  }

  /** The value of an attribute: that of a winning pattern, or the given one if no pattern matches and defines it. */
  ghost predicate Decided(platform: string, ms: seq<Match>, attribute: string, otherwise: Option<Option<string>>,
                          value: Option<Option<string>>) {
    || (exists m :: Wins(platform, ms, attribute, m) && value == Some(m.attributes[attribute]))
    || ((forall m :: m in ms && m.pattern <= platform ==> attribute !in m.attributes) && value == otherwise)
  }

  function Effective(platform: string, ms: seq<Match>, attribute: string,
                     otherwise: Option<Option<string>>): Option<Option<string>> {
    match Longest(platform, ms, (m: Match) => Defines(m, attribute))
    case None => otherwise
    case Some(m) => assert Defines(m, attribute); Some(m.attributes[attribute])
  }

  lemma {:induction false} EffectiveIsDecided(platform: string, ms: seq<Match>, attribute: string,
                                              otherwise: Option<Option<string>>)
    ensures Decided(platform, ms, attribute, otherwise, Effective(platform, ms, attribute, otherwise))
  {
    var says := (m: Match) => Defines(m, attribute);
    var best := Longest(platform, ms, says);
    forall m | m in ms && m.pattern <= platform && attribute in m.attributes
      ensures best.Some? && |m.pattern| <= |best.value.pattern|
    {
      assert Applies(platform, m, says);
    }
    if best.Some? {
      assert Wins(platform, ms, attribute, best.value);
    }
  }

  /** There is one such value only: patterns of one length that match are the same. */
  lemma {:induction false} DecidedOnce(platform: string, ms: seq<Match>, attribute: string,
                                       otherwise: Option<Option<string>>, v: Option<Option<string>>,
                                       v': Option<Option<string>>)
    requires Distinct(ms)
    requires Decided(platform, ms, attribute, otherwise, v) && Decided(platform, ms, attribute, otherwise, v')
    ensures v == v'
  {
    if m, m' :| Wins(platform, ms, attribute, m) && v == Some(m.attributes[attribute])
                && Wins(platform, ms, attribute, m') && v' == Some(m'.attributes[attribute]) {
      var i :| 0 <= i < |ms| && ms[i] == m;
      var j :| 0 <= j < |ms| && ms[j] == m';
      assert m.pattern == platform[..|m.pattern|] && m'.pattern == platform[..|m'.pattern|];
      assert i == j;
    }
  }

  /** Overwrites attributes from the shortest matching pattern to the longest. */
  method Resolve(platform: string, ms: seq<Match>, base: Attributes) returns (r: Attributes)
    requires Distinct(ms)
    ensures forall a :: Decided(platform, ms, a, Get(base, a), Get(r, a))
  {
    r := base;
    var sorted := SortMatches(ms);
    SortSorts(PatternOf, ms);
    for k := 0 to |sorted|
      invariant forall a :: Get(r, a) == Effective(platform, sorted[..k], a, Get(base, a))
    {
      forall a
        ensures Effective(platform, sorted[..k + 1], a, Get(base, a)) ==
                if sorted[k].pattern <= platform && a in sorted[k].attributes then Some(sorted[k].attributes[a])
                else Effective(platform, sorted[..k], a, Get(base, a))
      {
        LastIsLongest(platform, sorted, k, (m: Match) => Defines(m, a));
      }
      if sorted[k].pattern <= platform {
        r := r + sorted[k].attributes;
      }
    }
    assert sorted[..|sorted|] == sorted;
    forall a ensures Decided(platform, ms, a, Get(base, a), Get(r, a)) {
      LongestOfSorted(platform, ms, (m: Match) => Defines(m, a));
      EffectiveIsDecided(platform, ms, a, Get(base, a));
    }
  }

  /** Global settings of the remote section. */
  datatype Global = Global(
    aliases: map<string, string>, location: Option<string>, branch: Option<string>, fetch: Option<string>,
    fetchAlways: bool)

  datatype Repo = Repo(name: string, attributes: Attributes, matches: seq<Match>)

  datatype Remote = Remote(name: string, uri: string, branch: Option<string>, fetch: bool)

  function GetOr(attributes: Attributes, attribute: string, otherwise: Option<string>): Option<string> {
    if attribute in attributes then attributes[attribute] else otherwise
  }

  /** Python truth of an optional string. */
  predicate Truthy(v: Option<string>) {
    v.Some? && v.value != ""
  }

  /**
   A repository shows a value for an attribute: that of a winning pattern, else the repository's own,
   else the default.
   */
  ghost predicate Shows(
      platform: string, repo: Repo, attribute: string, default: Option<string>, value: Option<string>) {
    Decided(platform, repo.matches, attribute,
            Some(if attribute in repo.attributes then repo.attributes[attribute] else default), Some(value))
  }

  /** The repository has no location or no project. */
  ghost predicate Skipped(g: Global, platform: string, repo: Repo) {
    || (exists location :: !Truthy(location) && Shows(platform, repo, "location", g.location, location))
    || (exists project :: !Truthy(project) && Shows(platform, repo, "project", None, project))
  }

  /** The repository has a project, and a location that is no alias. */
  ghost predicate Unknown(g: Global, platform: string, repo: Repo) {
    && (exists project :: Truthy(project) && Shows(platform, repo, "project", None, project))
    && exists location :: location != "" && location !in g.aliases
                          && Shows(platform, repo, "location", g.location, Some(location))
  }

  /** The remote is that of the repository. */
  ghost predicate RemoteFor(g: Global, platform: string, repo: Repo, remote: Remote) {
    && remote.name == repo.name
    && (exists location, project :: LocatedAt(g, platform, repo, remote.uri, location, project))
    && Shows(platform, repo, "branch", g.branch, remote.branch)
    && (remote.fetch <==> g.fetchAlways || Some("yes") == if "fetch" in repo.attributes then repo.attributes["fetch"]
                                                          else g.fetch)
  }

  /** The uri is the server of the location, a slash and the project. */
  ghost predicate LocatedAt(g: Global, platform: string, repo: Repo, uri: string, location: string, project: string) {
    && location != "" && project != "" && location in g.aliases
    && Shows(platform, repo, "location", g.location, Some(location))
    && Shows(platform, repo, "project", None, Some(project))
    && var n := |g.aliases[location]|;
    && |uri| == n + 1 + |project|
    && uri[..n] == g.aliases[location] && uri[n] == '/' && uri[n + 1..] == project
  }

  /** The first `n` repositories give the remotes: those at the increasing positions `from`, the others are skipped. */
  ghost predicate WalkedTo(
      g: Global, platform: string, repos: seq<Repo>, n: nat, remotes: seq<Remote>, from: seq<nat>) {
    && n <= |repos| && |from| == |remotes|
    && (forall i, j :: 0 <= i < j < |from| ==> from[i] < from[j])
    && (forall i :: 0 <= i < |from| ==> from[i] < n && RemoteFor(g, platform, repos[from[i]], remotes[i]))
    && (forall k :: 0 <= k < n && k !in from ==> Skipped(g, platform, repos[k]))
  }

  /**
   RemoteWalker.__iter__: the remotes of the repositories in order, without those that have no location
   or no project, up to the first unknown alias; `ok` is false when there is one.
   */
  method Walk(g: Global, platform: string, repos: seq<Repo>)
    returns (remotes: seq<Remote>, ok: bool)
    requires forall i :: 0 <= i < |repos| ==> Distinct(repos[i].matches)
    ensures ok ==> exists from :: WalkedTo(g, platform, repos, |repos|, remotes, from)
    ensures !ok ==> exists n, from :: 0 <= n < |repos| && WalkedTo(g, platform, repos, n, remotes, from)
                                      && Unknown(g, platform, repos[n])
  {
    hide Decided, RemoteFor;
    remotes, ok := [], true;
    ghost var from: seq<nat> := [];
    for k := 0 to |repos|
      invariant WalkedTo(g, platform, repos, k, remotes, from)
    {
      var repo := repos[k];
      var base := map["location" := GetOr(repo.attributes, "location", g.location),
                      "project" := GetOr(repo.attributes, "project", None),
                      "branch" := GetOr(repo.attributes, "branch", g.branch)];
      var attributes := Resolve(platform, repo.matches, base);
      Settled(platform, repo, "location", g.location, base, attributes);
      Settled(platform, repo, "project", None, base, attributes);
      Settled(platform, repo, "branch", g.branch, base, attributes);
      var location, project, branch := attributes["location"], attributes["project"], attributes["branch"];
      if Truthy(location) && Truthy(project) {
        if location.value !in g.aliases {
          assert Unknown(g, platform, repo);
          return remotes, false;
        }
        var uri := g.aliases[location.value] + "/" + project.value;
        var fetch := g.fetchAlways || GetOr(repo.attributes, "fetch", g.fetch) == Some("yes");
        var remote := Remote(repo.name, uri, branch, fetch);
        RemoteBuilt(g, platform, repo, remote, location.value, project.value);
        WalkedOn(g, platform, repos, k, remotes, from, remote);
        remotes, from := remotes + [remote], from + [k];
      }
    }
  }

  lemma {:induction false} Settled(platform: string, repo: Repo, attribute: string, default: Option<string>,
                                   base: Attributes, r: Attributes)
    requires attribute in base && base[attribute] == GetOr(repo.attributes, attribute, default)
    requires Decided(platform, repo.matches, attribute, Get(base, attribute), Get(r, attribute))
    ensures attribute in r && Shows(platform, repo, attribute, default, r[attribute])
  {
  }

  lemma {:induction false} RemoteBuilt(g: Global, platform: string, repo: Repo, remote: Remote, location: string,
                                       project: string)
    requires location != "" && project != "" && location in g.aliases
    requires Shows(platform, repo, "location", g.location, Some(location))
    requires Shows(platform, repo, "project", None, Some(project))
    requires Shows(platform, repo, "branch", g.branch, remote.branch)
    requires remote.name == repo.name && remote.uri == g.aliases[location] + "/" + project
    requires remote.fetch == (g.fetchAlways || GetOr(repo.attributes, "fetch", g.fetch) == Some("yes"))
    ensures RemoteFor(g, platform, repo, remote)
  {
    hide Shows;
    var server := g.aliases[location];
    assert remote.uri[..|server|] == server && remote.uri[|server| + 1..] == project;
    assert LocatedAt(g, platform, repo, remote.uri, location, project);
  }

  lemma {:induction false} WalkedOn(g: Global, platform: string, repos: seq<Repo>, k: nat, remotes: seq<Remote>,
                                    from: seq<nat>, remote: Remote)
    requires k < |repos| && WalkedTo(g, platform, repos, k, remotes, from) && RemoteFor(g, platform, repos[k], remote)
    ensures WalkedTo(g, platform, repos, k + 1, remotes + [remote], from + [k])
  {
    hide RemoteFor, Skipped;
    var from' := from + [k];
    assert from'[|from|] == k;
    assert forall i :: 0 <= i < |from| ==> from'[i] == from[i];
    forall i | 0 <= i < k + 1 && i !in from' ensures Skipped(g, platform, repos[i]) {
      assert i != k && i !in from;
    }
  }

  // ----- Sysupgrade attributes -----

  predicate Provides(m: Match, name: string) {
    name in m.attributes && Truthy(m.attributes[name])
  }

  /**
   _get_sysupgrade_attr: a non-empty value of a matching pattern such that no longer one has any; nothing
   exactly when no matching pattern has one.
   */
  method GetSysupgradeAttr(platform: string, sysupgrade: seq<Match>, name: string) returns (r: Option<string>)
    requires Distinct(sysupgrade)
    ensures r.None? <==> forall m :: m in sysupgrade && m.pattern <= platform && name in m.attributes ==>
                                       m.attributes[name].None? || m.attributes[name].value == ""
    ensures r.Some? ==> exists m :: m in sysupgrade && m.pattern <= platform && Get(m.attributes, name) == Some(r)
                                    && NoLonger(platform, sysupgrade, name, m)
  {
    var sorted := SortMatches(sysupgrade);
    var says := (m: Match) => Provides(m, name);
    SortSorts(PatternOf, sysupgrade);
    LongestOfSorted(platform, sysupgrade, says);
    hide SortMatches, Longest, NoLonger;
    var k := |sorted|;
    while k > 0
      invariant 0 <= k <= |sorted|
      invariant forall i :: k <= i < |sorted| ==> !Applies(platform, sorted[i], says)
    {
      k := k - 1;
      var m := sorted[k];
      FirstFromBehind(platform, sorted, k, says);
      if m.pattern <= platform && name in m.attributes && Truthy(m.attributes[name]) {
        assert Applies(platform, m, says);
        LongestWins(platform, sysupgrade, name, m);
        return m.attributes[name];
      }
    }
    NoneApplies(platform, sysupgrade, says);
    assert forall m :: m in sysupgrade && m.pattern <= platform ==> !Provides(m, name);
    return None;
  }

  lemma {:induction false} NoneApplies(platform: string, ms: seq<Match>, says: Match -> bool)
    requires forall i :: 0 <= i < |SortMatches(ms)| ==> !Applies(platform, SortMatches(ms)[i], says)
    ensures forall m :: m in ms && m.pattern <= platform ==> !says(m)
  {
    forall m | m in ms && m.pattern <= platform ensures !says(m) {
      SameElements(PatternOf, ms, m);
      var i :| 0 <= i < |SortMatches(ms)| && SortMatches(ms)[i] == m;
      assert !Applies(platform, SortMatches(ms)[i], says);
    }
  }

  /** No matching pattern longer than that of `m` has a non-empty value. */
  ghost predicate NoLonger(platform: string, ms: seq<Match>, name: string, m: Match) {
    forall x :: x in ms && x.pattern <= platform && name in x.attributes && |x.pattern| > |m.pattern| ==>
                  x.attributes[name].None? || x.attributes[name].value == ""
  }

  lemma {:induction false} LongestWins(platform: string, ms: seq<Match>, name: string, m: Match)
    requires Longest(platform, ms, (m: Match) => Provides(m, name)) == Some(m)
    ensures m in ms && NoLonger(platform, ms, name, m)
  {
    var says := (m: Match) => Provides(m, name);
    forall x | x in ms && x.pattern <= platform && name in x.attributes && |x.pattern| > |m.pattern|
      ensures x.attributes[name].None? || x.attributes[name].value == ""
    {
      assert !Applies(platform, x, says);
    }
  }
}
