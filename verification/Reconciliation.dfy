/** What a reload keeps of the old configuration: the folders of repositories that
    could not be loaded this time. */
module Reconciliation {
  import opened SharePointMaps
  import opened WatcherProfiles

  /** The repository's folders could not be listed when the latest profile was loaded. */
  predicate FailedToLoad(sites: SiteMaps, status: map<string, bool>, p: Path)
  {
    && p in sites.sites && sites.sites[p] in sites.repos
    && sites.repos[sites.sites[p]] in status && !status[sites.repos[sites.sites[p]]]
  }

  /** A folder that the latest profile lacks stays if its name has no path, or if its
      site's repository failed to load. `paths` holds the names that have one. */
  predicate Retained(paths: map<string, Path>, sites: SiteMaps, status: map<string, bool>, f: string)
  {
    f !in paths || FailedToLoad(sites, status, paths[f])
  }

  /** What the decisions of one reload depend on. */
  datatype Basis = Basis(paths: map<string, Path>, sites: SiteMaps, status: map<string, bool>)

  function Kept(b: Basis, was: set<string>, latest: set<string>): set<string>
  {
    set f | f in was && f !in latest && Retained(b.paths, b.sites, b.status, f)
  }

  function Dropped(b: Basis, was: set<string>, latest: set<string>): set<string>
  {
    set f | f in was && f !in latest && !Retained(b.paths, b.sites, b.status, f)
  }

  function Reconciled(b: Basis, was: set<string>, latest: set<string>): set<string>
  {
    latest + Kept(b, was, latest)
  }

  function ReconciledParents(b: Basis, was: map<string, string>, latest: map<string, string>): map<string, string>
  {
    (was + latest) - Dropped(b, was.Keys, latest.Keys)
  }

  /** Where an absent conversion error plays no part, exactly the old folders of
      repositories that failed to load stay beside the new set. */
  lemma ReconciledMeaning(b: Basis, was: set<string>, latest: set<string>, f: string)
    requires f in b.paths
    ensures f in Reconciled(b, was, latest) <==>
              f in latest || (f in was && FailedToLoad(b.sites, b.status, b.paths[f]))
  {}

  /** Reloading from the same profile again changes nothing and drops nothing. */
  lemma ReconciledTwice(b: Basis, was: set<string>, latest: set<string>)
    ensures Reconciled(b, Reconciled(b, was, latest), latest) == Reconciled(b, was, latest)
    ensures Dropped(b, Reconciled(b, was, latest), latest) == {}
  {}

  lemma MergedTwice(m: SiteMaps, latest: SiteMaps)
    ensures WithMerged(WithMerged(m, latest), latest) == WithMerged(m, latest)
  {
    var once := WithMerged(m, latest);
    assert once.sites + latest.sites == once.sites;
    assert once.repos + latest.repos == once.repos;
  }

  lemma ParentsTwice(b: Basis, was: map<string, string>, latest: map<string, string>)
    ensures ReconciledParents(b, ReconciledParents(b, was, latest), latest) == ReconciledParents(b, was, latest)
  {
    var once := ReconciledParents(b, was, latest);
    assert Dropped(b, once.Keys, latest.Keys) == {};
    assert once + latest == once;
    assert once - {} == once;
  }

  /** The excluded folders with a parent stay among the excluded folders. */
  lemma ParentsStayExcluded(b: Basis, parents: map<string, string>, excluded: set<string>,
                            latestParents: map<string, string>, latestExcluded: set<string>)
    requires parents.Keys <= excluded && latestParents.Keys <= latestExcluded
    ensures ReconciledParents(b, parents, latestParents).Keys <= Reconciled(b, excluded, latestExcluded)
  {}

  /*** Whom a removal is announced to ***/

  datatype Destination = One(monitor: nat) | All | Nobody

  predicate Reaches(d: Destination, k: nat)
  {
    d == All || d == One(k)
  }

  /** A new exclusion goes to the monitor of the included folder around it; without
      such a folder to all; to none if that folder is not monitored yet. */
  function ExclusionRoute(parents: map<string, string>, monitors: map<string, nat>, f: string): Destination
  {
    if f !in parents then All
    else if parents[f] in monitors then One(monitors[parents[f]])
    else Nobody
  }

  function DropRoute(monitors: map<string, nat>, f: string): Destination
  {
    if f in monitors then One(monitors[f]) else All
  }

  type Routes = map<string, Destination>

  /** What monitor `k` is told of the first `i` names. */
  function Told(routes: Routes, names: seq<string>, i: nat, k: nat): seq<string>
    requires i <= |names|
  {
    if i == 0 then []
    else
      Told(routes, names, i - 1, k)
      + if names[i - 1] in routes && Reaches(routes[names[i - 1]], k) then [names[i - 1]] else []
  }

  /** A monitor is told exactly the names that are routed to it. */
  lemma {:induction false} ToldExactly(routes: Routes, names: seq<string>, i: nat, k: nat, f: string)
    requires i <= |names|
    ensures f in Told(routes, names, i, k) <==> f in names[..i] && f in routes && Reaches(routes[f], k)
  {
    if i > 0 {
      ToldExactly(routes, names, i - 1, k, f);
      assert names[..i] == names[..i - 1] + [names[i - 1]];
    }
  }
}
