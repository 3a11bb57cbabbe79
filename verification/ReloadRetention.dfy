/** Which old folders survive a reload, told from the repositories of the new configuration. */
module ReloadRetention {
  import opened Wrappers
  import opened SharePointMaps
  import opened WatcherProfiles
  import opened Reconciliation
  import opened WatcherReload

  /** A SharePoint repository of which its own folders or those of an exclusion could
      not be listed. */
  predicate Unlisted(r: RepoFolder)
  {
    r.SharePointRepo? && (r.listing == None || None in r.excludes)
  }

  /** The last repository with that path is such a one. */
  ghost predicate LastIsUnlisted(repos: seq<RepoFolder>, path: string)
  {
    exists i :: 0 <= i < |repos| && repos[i].path == path && Unlisted(repos[i])
                && forall j :: i < j < |repos| ==> repos[j].path != path
  }

  /** The path is in a site whose repository could not be listed. */
  ghost predicate Spared(repos: seq<RepoFolder>, sites: map<Path, string>, addresses: map<string, string>, p: Path)
  {
    p in sites && sites[p] in addresses && LastIsUnlisted(repos, addresses[sites[p]])
  }

  predicate Lists(r: RepoFolder, p: Path)
  {
    r.SharePointRepo? && r.listing.Some? && p in r.listing.value
  }

  predicate ListsSite(r: RepoFolder, site: string)
  {
    r.SharePointRepo? && r.listing.Some? && site in r.listing.value.Values
  }

  ghost predicate LastLists(repos: seq<RepoFolder>, i: nat, p: Path)
  {
    i < |repos| && Lists(repos[i], p) && forall j :: i < j < |repos| ==> !Lists(repos[j], p)
  }

  ghost predicate LastListsSite(repos: seq<RepoFolder>, i: nat, site: string)
  {
    i < |repos| && ListsSite(repos[i], site) && forall j :: i < j < |repos| ==> !ListsSite(repos[j], site)
  }

  predicate NoneLists(repos: seq<RepoFolder>, p: Path)
  {
    forall i :: 0 <= i < |repos| ==> !Lists(repos[i], p)
  }

  predicate NoneListsSite(repos: seq<RepoFolder>, site: string)
  {
    forall i :: 0 <= i < |repos| ==> !ListsSite(repos[i], site)
  }

  /** A path's site is the one that the last repository listing it gives; other paths
      keep theirs. */
  ghost predicate SitesFollow(repos: seq<RepoFolder>, was: map<Path, string>, now: map<Path, string>)
  {
    && (forall i: nat, p :: LastLists(repos, i, p) ==> p in now && now[p] == repos[i].listing.value[p])
    && (forall p :: NoneLists(repos, p) ==> (p in now <==> p in was) && (p in now ==> now[p] == was[p]))
  }

  /** A site's repository is the last one in whose listing the site occurs; other sites
      keep theirs. */
  ghost predicate AddressesFollow(repos: seq<RepoFolder>, was: map<string, string>, now: map<string, string>)
  {
    && (forall i: nat, site :: LastListsSite(repos, i, site) ==> site in now && now[site] == repos[i].path)
    && (forall site :: NoneListsSite(repos, site) ==> (site in now <==> site in was) && (site in now ==> now[site] == was[site]))
  }

  lemma {:induction false} CopiedFollows(m: SiteMaps, repos: seq<RepoFolder>)
    ensures SitesFollow(repos, m.sites, Copied(m, repos, |repos|).sites)
    ensures AddressesFollow(repos, m.repos, Copied(m, repos, |repos|).repos)
    decreases |repos|
  {
    if repos != [] {
      var n := |repos| - 1;
      CopiedFollows(m, repos[..n]);
      CopiedPrefix(m, repos, n, n);
      var before, after := Copied(m, repos, n), Copied(m, repos, n + 1);
      assert forall i :: 0 <= i < n ==> repos[..n][i] == repos[i];
      SitesNext(repos, m.sites, before, after);
      AddressesNext(repos, m.repos, before, after);
    }
  }

  lemma SitesNext(repos: seq<RepoFolder>, was: map<Path, string>, before: SiteMaps, after: SiteMaps)
    requires repos != [] && after == WithRepo(before, repos[|repos| - 1])
    requires SitesFollow(repos[..|repos| - 1], was, before.sites)
    ensures SitesFollow(repos, was, after.sites)
  {
    var n := |repos| - 1;
    assert forall i :: 0 <= i < n ==> repos[..n][i] == repos[i];
    forall i: nat, p | LastLists(repos, i, p)
      ensures p in after.sites && after.sites[p] == repos[i].listing.value[p]
    {
      if i < n {
        assert !Lists(repos[n], p) && LastLists(repos[..n], i, p);
      }
    }
    forall p | NoneLists(repos, p)
      ensures (p in after.sites <==> p in was) && (p in after.sites ==> after.sites[p] == was[p])
    {
      assert !Lists(repos[n], p) && NoneLists(repos[..n], p);
    }
  }

  lemma AddressesNext(repos: seq<RepoFolder>, was: map<string, string>, before: SiteMaps, after: SiteMaps)
    requires repos != [] && after == WithRepo(before, repos[|repos| - 1])
    requires AddressesFollow(repos[..|repos| - 1], was, before.repos)
    ensures AddressesFollow(repos, was, after.repos)
  {
    var n := |repos| - 1;
    assert forall i :: 0 <= i < n ==> repos[..n][i] == repos[i];
    forall i: nat, site | LastListsSite(repos, i, site)
      ensures site in after.repos && after.repos[site] == repos[i].path
    {
      if i < n {
        assert !ListsSite(repos[n], site) && LastListsSite(repos[..n], i, site);
      }
    }
    forall site | NoneListsSite(repos, site)
      ensures (site in after.repos <==> site in was) && (site in after.repos ==> after.repos[site] == was[site])
    {
      assert !ListsSite(repos[n], site) && NoneListsSite(repos[..n], site);
    }
  }

  lemma {:induction false} CopiedPrefix(m: SiteMaps, repos: seq<RepoFolder>, n: nat, k: nat)
    requires k <= n <= |repos|
    ensures Copied(m, repos[..n], k) == Copied(m, repos, k)
  {
    if k > 0 {
      CopiedPrefix(m, repos, n, k - 1);
    }
  }

  /** Merging the maps of a new profile is following its repositories from the old maps. */
  lemma MergedFollows(repos: seq<RepoFolder>, was: SiteMaps, latest: SiteMaps, now: SiteMaps)
    requires SitesFollow(repos, map[], latest.sites) && AddressesFollow(repos, map[], latest.repos)
    requires now == WithMerged(was, latest)
    ensures SitesFollow(repos, was.sites, now.sites) && AddressesFollow(repos, was.repos, now.repos)
  {}

  /** The loading status of a newly loaded profile says false exactly for the paths
      whose last repository could not be listed. */
  lemma StatusMeaning(repos: seq<RepoFolder>, status: map<string, bool>, path: string)
    requires StatusesOf(repos, |repos|, status)
    requires NoOtherStatus({}, repos, |repos|, status)
    ensures path in status && !status[path] <==> LastIsUnlisted(repos, path)
  {
    if path in status {
      var i := LastWith(repos, path);
      assert status[path] == Loads(repos[i]);
      LoadsIsListed(repos[i]);
    }
    if LastIsUnlisted(repos, path) {
      var i :| 0 <= i < |repos| && repos[i].path == path && Unlisted(repos[i])
               && forall j :: i < j < |repos| ==> repos[j].path != path;
      LoadsIsListed(repos[i]);
    }
  }

  lemma LoadsIsListed(r: RepoFolder)
    ensures Loads(r) <==> !Unlisted(r)
  {}

  lemma {:induction false} LastWith(repos: seq<RepoFolder>, path: string) returns (i: nat)
    requires HasPath(repos, |repos|, path)
    ensures i < |repos| && repos[i].path == path && forall j :: i < j < |repos| ==> repos[j].path != path
    decreases |repos|
  {
    var n := |repos| - 1;
    if repos[n].path == path {
      i := n;
    } else {
      var k :| 0 <= k < |repos| && repos[k].path == path;
      assert repos[..n][k].path == path;
      i := LastWith(repos[..n], path);
      assert forall j :: 0 <= j < n ==> repos[..n][j] == repos[j];
    }
  }

  lemma RetainedIsSpared(repos: seq<RepoFolder>, b: Basis, f: string)
    requires StatusesOf(repos, |repos|, b.status) && f in b.paths
    requires NoOtherStatus({}, repos, |repos|, b.status)
    ensures Retained(b.paths, b.sites, b.status, f) <==> Spared(repos, b.sites.sites, b.sites.repos, b.paths[f])
  {
    var sites, addresses := b.sites.sites, b.sites.repos;
    if b.paths[f] in sites && sites[b.paths[f]] in addresses {
      StatusMeaning(repos, b.status, addresses[sites[b.paths[f]]]);
    }
  }

  ghost predicate BeginsWithOne(folders: set<string>, f: string)
  {
    exists g :: g in folders && g <= f
  }

  /** A folder that is not spared, that is refused, and that lies in an included folder both
      of the old and of the new profile. */
  ghost predicate Ends(repos: seq<RepoFolder>, sites: map<Path, string>, addresses: map<string, string>, s: Surroundings,
                       included: set<string>, latestIncluded: set<string>, f: string)
  {
    && f in s.paths && !Spared(repos, sites, addresses, s.paths[f])
    && f in s.refused && BeginsWithOne(included, f) && BeginsWithOne(latestIncluded, f)
  }

  lemma StopMeaning(repos: seq<RepoFolder>, b: Basis, s: Surroundings, included: set<string>, latestIncluded: set<string>,
                    was: set<string>, now: set<string>)
    requires b.paths == s.paths
    requires forall f :: f in s.paths ==>
               (Retained(b.paths, b.sites, b.status, f) <==> Spared(repos, b.sites.sites, b.sites.repos, s.paths[f]))
    ensures (forall f :: f in Dropped(b, was, now) ==> !Blocked(s, included, latestIncluded, f)) <==>
              forall f :: f in was && f !in now ==> !Ends(repos, b.sites.sites, b.sites.repos, s, included, latestIncluded, f)
  {
    forall f | f in was && f !in now
      ensures f in Dropped(b, was, now) && Blocked(s, included, latestIncluded, f)
         <==> Ends(repos, b.sites.sites, b.sites.repos, s, included, latestIncluded, f)
    {}
    assert forall f :: f in Dropped(b, was, now) ==> f in was && f !in now;
  }

  /** A link of the new profile replaces an old one; another old one stays if its folder
      is spared or has no path. */
  ghost predicate ParentsFollow(latest: map<string, string>, was: map<string, string>,
                                repos: seq<RepoFolder>, sites: map<Path, string>, addresses: map<string, string>, s: Surroundings,
                                now: map<string, string>)
  {
    forall f ::
      && (f in now <==> f in latest || (f in was && (f in s.paths ==> Spared(repos, sites, addresses, s.paths[f]))))
      && (f in now ==> now[f] == if f in latest then latest[f] else was[f])
  }

  /** Monitor `k` is that of the folder around `f`, or there is no such folder. */
  predicate TellsParent(parents: map<string, string>, monitors: map<string, nat>, f: string, k: nat)
  {
    f in parents ==> parents[f] in monitors && monitors[parents[f]] == k
  }

  lemma ParentsMeaning(b: Basis, latest: map<string, string>, was: map<string, string>,
                       repos: seq<RepoFolder>, s: Surroundings)
    requires b.paths == s.paths
    requires forall f :: f in s.paths ==>
               (Retained(b.paths, b.sites, b.status, f) <==> Spared(repos, b.sites.sites, b.sites.repos, s.paths[f]))
    ensures ParentsFollow(latest, was, repos, b.sites.sites, b.sites.repos, s, ReconciledParents(b, was, latest))
  {}

  /** Monitor `k` is told of the new exclusions of the folders that it watches or that none
      contains, and of the dropped folders that it watches or that none is recorded to. */
  ghost predicate Informs(news: seq<string>, k: nat, parents: map<string, string>, monitors: map<string, nat>,
                          excluded: set<string>, dropped: set<string>)
  {
    forall f :: f in news <==>
      || (f in excluded && TellsParent(parents, monitors, f, k))
      || (f in dropped && (f in monitors ==> monitors[f] == k))
  }

  lemma NoticesMeaning(b: Basis, ok: bool, parents: map<string, string>, monitors: map<string, nat>, s: Surroundings,
                       added: set<string>, included: set<string>, latestIncluded: set<string>, left: set<string>, k: nat)
    returns (news: seq<string>)
    requires left == if ok then Reconciled(b, included, latestIncluded) else included
    ensures news == ExclusionNotices(parents, monitors, added, k)
                    + if ok then DropNotices(b, monitors + Placed(s, latestIncluded - included), included + latestIncluded - latestIncluded, k)
                      else []
    ensures Informs(news, k, parents, monitors, added, included - left)
  {
    var moved := monitors + Placed(s, latestIncluded - included);
    var drops := if ok then DropNotices(b, moved, included + latestIncluded - latestIncluded, k) else [];
    news := ExclusionNotices(parents, monitors, added, k) + drops;
    forall f
      ensures f in news <==> || (f in added && TellsParent(parents, monitors, f, k))
                             || (f in included - left && (f in monitors ==> monitors[f] == k))
    {
      ExclusionIsAnnounced(parents, monitors, added, k, f);
      DropIsAnnounced(b, moved, included, latestIncluded, k, f);
    }
  }

  lemma AllInformed(b: Basis, ok: bool, parents: map<string, string>, monitors: map<string, nat>, s: Surroundings,
                    added: set<string>, included: set<string>, latestIncluded: set<string>, left: set<string>,
                    before: seq<seq<string>>, after: seq<seq<string>>)
    requires left == if ok then Reconciled(b, included, latestIncluded) else included
    requires |before| == |after|
    requires forall k: nat :: k < |after| ==>
               after[k] == before[k] + ExclusionNotices(parents, monitors, added, k)
                           + if ok then DropNotices(b, monitors + Placed(s, latestIncluded - included),
                                                    included + latestIncluded - latestIncluded, k) else []
    ensures forall k: nat :: k < |after| ==>
              before[k] <= after[k] && Informs(after[k][|before[k]|..], k, parents, monitors, added, included - left)
  {
    forall k: nat | k < |after|
      ensures before[k] <= after[k] && Informs(after[k][|before[k]|..], k, parents, monitors, added, included - left)
    {
      OneInformed(b, ok, parents, monitors, s, added, included, latestIncluded, left, k, before[k], after[k]);
    }
  }

  lemma OneInformed(b: Basis, ok: bool, parents: map<string, string>, monitors: map<string, nat>, s: Surroundings,
                    added: set<string>, included: set<string>, latestIncluded: set<string>, left: set<string>,
                    k: nat, before: seq<string>, after: seq<string>)
    requires left == if ok then Reconciled(b, included, latestIncluded) else included
    requires after == before + ExclusionNotices(parents, monitors, added, k)
                      + if ok then DropNotices(b, monitors + Placed(s, latestIncluded - included),
                                               included + latestIncluded - latestIncluded, k) else []
    ensures before <= after && Informs(after[|before|..], k, parents, monitors, added, included - left)
  {
    var news := NoticesMeaning(b, ok, parents, monitors, s, added, included, latestIncluded, left, k);
    TwoNews(before, ExclusionNotices(parents, monitors, added, k),
            if ok then DropNotices(b, monitors + Placed(s, latestIncluded - included),
                                   included + latestIncluded - latestIncluded, k) else [], after);
  }

  lemma TwoNews(before: seq<string>, first: seq<string>, second: seq<string>, after: seq<string>)
    requires after == before + first + second
    ensures before <= after && after[|before|..] == first + second
  {}

  /** A reload, and what it tells the monitors. */
  method ReloadAndTell(watcher: Watcher, latest: WatcherProfile, s: Surroundings) returns (ok: bool, ghost b: Basis, ghost stopped: nat)
    requires watcher.Valid() && latest.Valid() && latest != watcher.profile
    requires forall f :: f in s.crawled && s.crawled[f].Some? ==> s.crawled[f].value < watcher.removeLists.Length
    modifies watcher, watcher.profile, watcher.removeLists
    ensures watcher.Valid()
    ensures watcher.profile.CurrentSites() == WithMerged(old(watcher.profile.CurrentSites()), latest.CurrentSites())
    ensures b == watcher.BasisOf(s.paths, latest.repoFolderLoadingStatus)
    ensures ok <==> forall f :: f in Dropped(b, old(watcher.profile.excludedFolders), latest.excludedFolders) ==>
                                  !Blocked(s, old(watcher.profile.includedFolders), latest.includedFolders, f)
    ensures ok ==>
              && watcher.profile.excludedFolders == Reconciled(b, old(watcher.profile.excludedFolders), latest.excludedFolders)
              && watcher.profile.includedFolders == Reconciled(b, old(watcher.profile.includedFolders), latest.includedFolders)
              && watcher.profile.parentByExcludedFolder
                 == ReconciledParents(b, old(watcher.profile.parentByExcludedFolder), latest.parentByExcludedFolder)
    ensures !ok ==>
              && watcher.profile.includedFolders == old(watcher.profile.includedFolders)
              && stopped <= |Lacking(old(watcher.profile.excludedFolders), latest.excludedFolders)|
              && watcher.profile.excludedFolders
                 == old(watcher.profile.excludedFolders) + latest.excludedFolders
                    - DroppedAmong(b, Lacking(old(watcher.profile.excludedFolders), latest.excludedFolders), stopped)
    ensures forall k: nat :: k < watcher.removeLists.Length ==>
              && old(watcher.removeLists[k]) <= watcher.removeLists[k]
              && Informs(watcher.removeLists[k][|old(watcher.removeLists[k])|..], k, latest.parentByExcludedFolder,
                         old(watcher.fileMonitorByFolderName), latest.excludedFolders - old(watcher.profile.excludedFolders),
                         old(watcher.profile.includedFolders) - watcher.profile.includedFolders)
  {
    ghost var excluded, included := watcher.profile.excludedFolders, watcher.profile.includedFolders;
    ghost var monitors, lists := watcher.fileMonitorByFolderName, watcher.removeLists[..];
    ok, b, stopped := watcher.ReloadRepoFolderConfig(latest, s);
    AllInformed(b, ok, latest.parentByExcludedFolder, monitors, s, latest.excludedFolders - excluded, included,
                latest.includedFolders, watcher.profile.includedFolders, lists, watcher.removeLists[..]);
  }

  /** The profile is loaded anew and the watcher reloaded from it. Unless a refused
      folder ends the reload, a folder with a path is then in a set exactly if the new
      profile has it there, or the old one had and the folder's site belongs to a
      repository that could not be listed; one without a path also if the old one had
      it; and so for the links of excluded folders. A reload that ends early drops none
      of these exclusions either. Each monitor is told what concerns it, and no more. */
  method LoadAndReload(watcher: Watcher, repos: seq<RepoFolder>, s: Surroundings) returns (latest: WatcherProfile, ok: bool)
    requires watcher.Valid()
    requires forall f :: f in s.crawled && s.crawled[f].Some? ==> s.crawled[f].value < watcher.removeLists.Length
    modifies watcher, watcher.profile, watcher.removeLists
    ensures fresh(latest) && watcher.Valid()
    ensures SitesFollow(repos, old(watcher.profile.siteByFolders), watcher.profile.siteByFolders)
    ensures AddressesFollow(repos, old(watcher.profile.repoPathBySite), watcher.profile.repoPathBySite)
    ensures ok <==>
              forall f :: f in old(watcher.profile.excludedFolders) && f !in latest.excludedFolders ==>
                !Ends(repos, watcher.profile.siteByFolders, watcher.profile.repoPathBySite, s,
                      old(watcher.profile.includedFolders), latest.includedFolders, f)
    ensures ok ==>
              forall f :: f in s.paths ==>
                var spared := Spared(repos, watcher.profile.siteByFolders, watcher.profile.repoPathBySite, s.paths[f]);
                && (f in watcher.profile.excludedFolders <==>
                      f in latest.excludedFolders || (f in old(watcher.profile.excludedFolders) && spared))
                && (f in watcher.profile.includedFolders <==>
                      f in latest.includedFolders || (f in old(watcher.profile.includedFolders) && spared))
    ensures ok ==>
              forall f :: f !in s.paths ==>
                && (f in watcher.profile.excludedFolders <==>
                      f in latest.excludedFolders || f in old(watcher.profile.excludedFolders))
                && (f in watcher.profile.includedFolders <==>
                      f in latest.includedFolders || f in old(watcher.profile.includedFolders))
    ensures ok ==> ParentsFollow(latest.parentByExcludedFolder, old(watcher.profile.parentByExcludedFolder),
                                 repos, watcher.profile.siteByFolders, watcher.profile.repoPathBySite, s,
                                 watcher.profile.parentByExcludedFolder)
    ensures forall k: nat :: k < watcher.removeLists.Length ==>
              && old(watcher.removeLists[k]) <= watcher.removeLists[k]
              && Informs(watcher.removeLists[k][|old(watcher.removeLists[k])|..], k, latest.parentByExcludedFolder,
                         old(watcher.fileMonitorByFolderName), latest.excludedFolders - old(watcher.profile.excludedFolders),
                         old(watcher.profile.includedFolders) - watcher.profile.includedFolders)
    ensures !ok ==>
              forall f :: f in old(watcher.profile.excludedFolders)
                          && (f in s.paths ==> Spared(repos, watcher.profile.siteByFolders, watcher.profile.repoPathBySite, s.paths[f])) ==>
                f in watcher.profile.excludedFolders
    ensures !ok ==> latest.excludedFolders <= watcher.profile.excludedFolders
                    && watcher.profile.includedFolders == old(watcher.profile.includedFolders)
  {
    latest := new WatcherProfile();
    NoSitesYet(latest);
    ghost var none := latest.CurrentSites();
    latest.Copy(repos);
    CopiedFollows(none, repos);
    ghost var was, included := watcher.profile.CurrentSites(), watcher.profile.includedFolders;
    ghost var excluded, parents := watcher.profile.excludedFolders, watcher.profile.parentByExcludedFolder;
    ghost var b, stopped;
    ok, b, stopped := ReloadAndTell(watcher, latest, s);
    MergedFollows(repos, was, latest.CurrentSites(), watcher.profile.CurrentSites());
    forall f | f in s.paths
      ensures Retained(b.paths, b.sites, b.status, f)
         <==> Spared(repos, watcher.profile.siteByFolders, watcher.profile.repoPathBySite, s.paths[f])
    {
      RetainedIsSpared(repos, b, f);
    }
    StopMeaning(repos, b, s, included, latest.includedFolders, excluded, latest.excludedFolders);
    ParentsMeaning(b, latest.parentByExcludedFolder, parents, repos, s);
    if !ok {
      DroppedAreOld(b, excluded, latest.excludedFolders, stopped);
    }
  }

  lemma DroppedAreOld(b: Basis, was: set<string>, now: set<string>, stopped: nat)
    requires stopped <= |Lacking(was, now)|
    ensures forall f :: f in DroppedAmong(b, Lacking(was, now), stopped) ==>
              f in was && f !in now && !Retained(b.paths, b.sites, b.status, f)
  {
    var names := Lacking(was, now);
    forall f | f in DroppedAmong(b, names, stopped)
      ensures f in was && f !in now && !Retained(b.paths, b.sites, b.status, f)
    {
      var j :| 0 <= j < stopped && !Retained(b.paths, b.sites, b.status, names[j]) && names[j] == f;
      assert f in names;
    }
  }
}
