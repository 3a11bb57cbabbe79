/** The watcher's profile: the folders to watch and to leave out, and which SharePoint
    site and repository each folder belongs to. */
module WatcherProfiles {
  import opened Wrappers
  import opened StringOrder
  import opened SharePointMaps
  import opened VfsNames

  /*** Folders, sites and repositories ***/

  /** The site of each folder and the repository of each site. */
  datatype SiteMaps = SiteMaps(sites: map<Path, string>, repos: map<string, string>)

  /** The folders of a repository have been listed. */
  function WithListing(m: SiteMaps, folders: map<Path, string>, repo: string): SiteMaps
  {
    SiteMaps(m.sites + folders, m.repos + AllTo(folders.Values, repo))
  }

  function AllTo(keys: set<string>, value: string): map<string, string>
  {
    map k | k in keys :: value
  }

  lemma AllToStep(m: map<string, string>, keys: set<string>, k: string, value: string)
    ensures m + AllTo(keys + {k}, value) == (m + AllTo(keys, value))[k := value]
  {}

  lemma AllToNone(m: map<string, string>, value: string)
    ensures m + AllTo({}, value) == m
  {}

  function WithMerged(m: SiteMaps, latest: SiteMaps): SiteMaps
  {
    SiteMaps(m.sites + latest.sites, m.repos + latest.repos)
  }

  /** How a profile came by its site maps: through listings, by a copy or a reload from
      SharePoint, and through reloads from other profiles of the same kind. */
  datatype History =
    | Initial
    | Listed(before: History, folders: map<Path, string>, repo: string)
    | Merged(before: History, latest: History)

  function After(h: History): SiteMaps
  {
    match h
    case Initial => SiteMaps(map[], map[])
    case Listed(before, folders, repo) => WithListing(After(before), folders, repo)
    case Merged(before, latest) => WithMerged(After(before), After(latest))
  }

  predicate SitesHaveRepos(m: SiteMaps)
  {
    forall p :: p in m.sites ==> m.sites[p] in m.repos
  }

  lemma ListingKeepsRepos(m: SiteMaps, folders: map<Path, string>, repo: string)
    requires SitesHaveRepos(m)
    ensures SitesHaveRepos(WithListing(m, folders, repo))
  {}

  lemma MergingKeepsRepos(m: SiteMaps, latest: SiteMaps)
    requires SitesHaveRepos(m) && SitesHaveRepos(latest)
    ensures SitesHaveRepos(WithMerged(m, latest))
  {}

  /** However a profile was loaded and reloaded, every site that a folder maps to has
      a repository. */
  lemma {:induction false} EverySiteHasRepo(h: History)
    ensures SitesHaveRepos(After(h))
  {
    match h
    case Initial =>
    case Listed(before, folders, repo) =>
      EverySiteHasRepo(before);
      ListingKeepsRepos(After(before), folders, repo);
    case Merged(before, latest) =>
      EverySiteHasRepo(before);
      EverySiteHasRepo(latest);
      MergingKeepsRepos(After(before), After(latest));
  }

  /*** Names ***/

  function FolderName(p: Path): string
  {
    ConvertToVfs(WindowsText(p))
  }

  function NamesOf(paths: set<Path>): set<string>
  {
    set p | p in paths :: FolderName(p)
  }

  function VfsNamesOf(paths: seq<string>): set<string>
  {
    set p | p in paths :: ConvertToVfs(p)
  }

  lemma NamesStep(paths: set<Path>, p: Path)
    ensures NamesOf(paths + {p}) == NamesOf(paths) + {FolderName(p)}
  {}

  method AddNames(names: set<string>, paths: set<Path>) returns (r: set<string>)
    ensures r == names + NamesOf(paths)
  {
    r := names;
    var rest := paths;
    ghost var done: set<Path> := {};
    while rest != {}
      invariant rest + done == paths && r == names + NamesOf(done)
    {
      var p :| p in rest;
      NamesStep(done, p);
      r := r + {FolderName(p)};
      rest := rest - {p};
      done := done + {p};
    }
    assert done == paths;
  }

  /** `v` is the name of an included folder around the excluded folder named `k`. */
  ghost predicate Links(k: string, v: string, excluded: set<Path>, included: set<Path>)
  {
    exists e, i :: e in excluded && i in included && StartsWith(e, i) && k == FolderName(e) && v == FolderName(i)
  }

  /** Of the links in `r` the new ones lead from an excluded to an included folder, and
      every excluded folder inside an included one has such a link. */
  ghost predicate Linked(parents: map<string, string>, r: map<string, string>, excluded: set<Path>, included: set<Path>)
  {
    && (forall k :: k in parents ==> k in r)
    && (forall k :: k in r ==> Links(k, r[k], excluded, included) || (k in parents && r[k] == parents[k]))
    && (forall e, i :: e in excluded && i in included && StartsWith(e, i) ==>
          FolderName(e) in r && Links(FolderName(e), r[FolderName(e)], excluded, included))
  }

  method LinkOne(parents: map<string, string>, e: Path, included: set<Path>, ghost excluded: set<Path>)
    returns (r: map<string, string>)
    requires e in excluded
    ensures forall k :: k in parents ==> k in r
    ensures forall k :: k in r ==> Links(k, r[k], excluded, included) || (k in parents && r[k] == parents[k])
    ensures forall i :: i in included && StartsWith(e, i) ==>
              FolderName(e) in r && Links(FolderName(e), r[FolderName(e)], excluded, included)
  {
    r := parents;
    var rest := included;
    while rest != {}
      invariant rest <= included
      invariant forall k :: k in parents ==> k in r
      invariant forall k :: k in r ==> Links(k, r[k], excluded, included) || (k in parents && r[k] == parents[k])
      invariant forall i :: i in included && i !in rest && StartsWith(e, i) ==>
                  FolderName(e) in r && Links(FolderName(e), r[FolderName(e)], excluded, included)
    {
      var i :| i in rest;
      if StartsWith(e, i) {
        assert Links(FolderName(e), FolderName(i), excluded, included);
        r := r[FolderName(e) := FolderName(i)];
      }
      rest := rest - {i};
    }
  }

  /** Every excluded folder inside an included one is linked to it. */
  method LinkParents(parents: map<string, string>, excluded: set<Path>, included: set<Path>) returns (r: map<string, string>)
    ensures Linked(parents, r, excluded, included)
  {
    r := parents;
    var rest := excluded;
    while rest != {}
      invariant rest <= excluded
      invariant forall k :: k in parents ==> k in r
      invariant forall k :: k in r ==> Links(k, r[k], excluded, included) || (k in parents && r[k] == parents[k])
      invariant forall e, i :: e in excluded && e !in rest && i in included && StartsWith(e, i) ==>
                  FolderName(e) in r && Links(FolderName(e), r[FolderName(e)], excluded, included)
    {
      var e :| e in rest;
      ghost var before := r;
      r := LinkOne(r, e, included, excluded);
      rest := rest - {e};
    }
  }

  /** Among topmost folders there is one at most around an excluded folder, so that the
      order of the loops does not matter. */
  lemma LinkDetermined(parents: map<string, string>, r: map<string, string>, excluded: set<Path>, listed: set<Path>, e: Path, i: Path)
    requires Linked(parents, r, excluded, TopmostOf(listed) - excluded) && e in excluded
    requires i in TopmostOf(listed) - excluded && StartsWith(e, i)
    requires forall x :: x in excluded && FolderName(x) == FolderName(e) ==> x == e
    ensures FolderName(e) in r && r[FolderName(e)] == FolderName(i)
  {
    var x, y :| x in excluded && y in TopmostOf(listed) - excluded && StartsWith(x, y)
                && FolderName(e) == FolderName(x) && r[FolderName(e)] == FolderName(y);
    OneTopmost(listed, e, i, y);
  }

  /** Of two folders around a third one contains the other. */
  lemma OneTopmost(listed: set<Path>, e: Path, i: Path, j: Path)
    requires Topmost(listed, i) && Topmost(listed, j) && StartsWith(e, i) && StartsWith(e, j)
    ensures i == j
  {
    assert if |i| <= |j| then StartsWith(j, i) else StartsWith(i, j);
  }

  /*** The profile ***/

  /** What a request for the folders of a SharePoint address brings; none on failure. */
  type SharePointListing = Option<map<Path, string>>

  datatype RepoFolder =
    | SharePointRepo(path: string, listing: SharePointListing, excludes: seq<SharePointListing>)
    | SharedRepo(path: string, excludedPaths: seq<string>)

  /** A repository counts as loaded when it and all its exclusions could be listed. */
  predicate Loads(r: RepoFolder)
  {
    match r
    case SharedRepo(_, _) => true
    case SharePointRepo(_, listing, excludes) => listing.Some? && forall i :: 0 <= i < |excludes| ==> excludes[i].Some?
  }

  function KeysOf(excludes: seq<SharePointListing>): set<Path>
  {
    set i, p | 0 <= i < |excludes| && excludes[i].Some? && p in excludes[i].value.Keys :: p
  }

  ghost function TopmostOf(paths: set<Path>): set<Path>
  {
    set p | p in paths && Topmost(paths, p)
  }

  function RelistedOne(m: SiteMaps, sharePoint: map<string, bool>, listings: map<string, map<Path, string>>, path: string): SiteMaps
  {
    if path in sharePoint && sharePoint[path] && path in listings then WithListing(m, listings[path], path) else m
  }

  /** The site maps after the first `i` repositories have been listed again. */
  function Relisted(m: SiteMaps, sharePoint: map<string, bool>, listings: map<string, map<Path, string>>, names: seq<string>,
                    i: nat): SiteMaps
    requires i <= |names|
  {
    if i == 0 then m else RelistedOne(Relisted(m, sharePoint, listings, names, i - 1), sharePoint, listings, names[i - 1])
  }

  /** A SharePoint repository whose folders can be listed has the folder. */
  ghost predicate FoundAnew(sharePoint: map<string, bool>, listings: map<string, map<Path, string>>, p: Path)
  {
    exists path :: path in sharePoint && sharePoint[path] && path in listings && p in listings[path]
  }

  lemma {:induction false} RelistedKeys(m: SiteMaps, sharePoint: map<string, bool>, listings: map<string, map<Path, string>>,
                                        names: seq<string>, i: nat, p: Path)
    requires i <= |names|
    ensures p in Relisted(m, sharePoint, listings, names, i).sites <==>
              || p in m.sites
              || exists j :: 0 <= j < i && names[j] in sharePoint && sharePoint[names[j]] && names[j] in listings
                             && p in listings[names[j]]
  {
    if i > 0 {
      RelistedKeys(m, sharePoint, listings, names, i - 1, p);
    }
  }

  lemma RelistedFinds(m: SiteMaps, sharePoint: map<string, bool>, listings: map<string, map<Path, string>>, p: Path)
    ensures
      var names := Listing(sharePoint.Keys);
      p in Relisted(m, sharePoint, listings, names, |names|).sites <==> p in m.sites || FoundAnew(sharePoint, listings, p)
  {
    var names := Listing(sharePoint.Keys);
    RelistedKeys(m, sharePoint, listings, names, |names|, p);
    if FoundAnew(sharePoint, listings, p) {
      var path :| path in sharePoint && sharePoint[path] && path in listings && p in listings[path];
      assert path in names;
      var j :| 0 <= j < |names| && names[j] == path;
    }
  }

  /** A SharePoint repository that can be listed brings its folders and sites. */
  function WithRepo(m: SiteMaps, r: RepoFolder): SiteMaps
  {
    if r.SharePointRepo? && r.listing.Some? then WithListing(m, r.listing.value, r.path) else m
  }

  /** The site maps after the first `n` repositories of a configuration. */
  function Copied(m: SiteMaps, repos: seq<RepoFolder>, n: nat): SiteMaps
    requires n <= |repos|
  {
    if n == 0 then m else WithRepo(Copied(m, repos, n - 1), repos[n - 1])
  }

  /*** The folder sets of a whole configuration ***/

  /** The folders that the first `n` repositories list. */
  function ListedBy(repos: seq<RepoFolder>, n: nat): set<Path>
    requires n <= |repos|
  {
    if n == 0 then {}
    else
      var r := repos[n - 1];
      ListedBy(repos, n - 1) + if r.SharePointRepo? && r.listing.Some? then r.listing.value.Keys else {}
  }

  /** The names that repository `r` includes when these folders have been listed. */
  ghost function IncludedBy(r: RepoFolder, listed: set<Path>): set<string>
  {
    match r
    case SharedRepo(path, _) => {ConvertToVfs(path)}
    case SharePointRepo(_, _, excludes) => if Loads(r) then NamesOf(TopmostOf(listed) - KeysOf(excludes)) else {}
  }

  function ExcludedBy(r: RepoFolder): set<string>
  {
    match r
    case SharedRepo(_, excludedPaths) => VfsNamesOf(excludedPaths)
    case SharePointRepo(_, _, excludes) => if Loads(r) then NamesOf(KeysOf(excludes)) else {}
  }

  /** What each repository of a configuration includes; `known` are the folders listed
      before. */
  ghost function Inclusions(known: set<Path>, repos: seq<RepoFolder>): (r: seq<set<string>>)
    ensures |r| == |repos|
  {
    seq(|repos|, j requires 0 <= j < |repos| => IncludedBy(repos[j], known + ListedBy(repos, j + 1)))
  }

  function Exclusions(repos: seq<RepoFolder>): (r: seq<set<string>>)
    ensures |r| == |repos|
  {
    seq(|repos|, i requires 0 <= i < |repos| => ExcludedBy(repos[i]))
  }

  function UnionOf(sets: seq<set<string>>, n: nat): set<string>
    requires n <= |sets|
  {
    if n == 0 then {} else UnionOf(sets, n - 1) + sets[n - 1]
  }

  lemma {:induction false} InUnion(sets: seq<set<string>>, n: nat, f: string)
    requires n <= |sets|
    ensures f in UnionOf(sets, n) <==> exists i :: 0 <= i < n && f in sets[i]
  {
    if n > 0 {
      InUnion(sets, n - 1, f);
    }
  }

  /** What a copy adds to. */
  datatype Configuration = Configuration(sites: SiteMaps, included: set<string>, excluded: set<string>)

  ghost predicate CopiedFirst(start: Configuration, repos: seq<RepoFolder>, n: nat, now: Configuration)
    requires n <= |repos|
  {
    && now.sites == Copied(start.sites, repos, n)
    && now.included == start.included + UnionOf(Inclusions(start.sites.sites.Keys, repos), n)
    && now.excluded == start.excluded + UnionOf(Exclusions(repos), n)
  }

  lemma CopiedNext(start: Configuration, repos: seq<RepoFolder>, n: nat, before: Configuration, now: Configuration)
    requires n < |repos| && CopiedFirst(start, repos, n, before)
    requires now.sites == WithRepo(before.sites, repos[n])
    requires now.included == before.included + IncludedBy(repos[n], now.sites.sites.Keys)
    requires now.excluded == before.excluded + ExcludedBy(repos[n])
    ensures CopiedFirst(start, repos, n + 1, now)
  {
    var inclusions, exclusions := Inclusions(start.sites.sites.Keys, repos), Exclusions(repos);
    InclusionAt(start.sites, repos, n);
    UnionStep(start.included, inclusions, n);
    UnionStep(start.excluded, exclusions, n);
  }

  lemma InclusionAt(sites: SiteMaps, repos: seq<RepoFolder>, n: nat)
    requires n < |repos|
    ensures Inclusions(sites.sites.Keys, repos)[n] == IncludedBy(repos[n], Copied(sites, repos, n + 1).sites.Keys)
    ensures Exclusions(repos)[n] == ExcludedBy(repos[n])
  {
    ListedSites(sites, repos, n + 1);
  }

  lemma UnionStep(start: set<string>, sets: seq<set<string>>, n: nat)
    requires n < |sets|
    ensures start + UnionOf(sets, n + 1) == start + UnionOf(sets, n) + sets[n]
  {}

  /** Each of the first `n` repositories has left its status, unless a later one of the
      same path has. */
  ghost predicate StatusesOf(repos: seq<RepoFolder>, n: nat, status: map<string, bool>)
    requires n <= |repos|
  {
    forall i :: 0 <= i < n && (forall j :: i < j < n ==> repos[j].path != repos[i].path) ==>
      repos[i].path in status && status[repos[i].path] == Loads(repos[i])
  }

  predicate HasPath(repos: seq<RepoFolder>, n: nat, path: string)
    requires n <= |repos|
  {
    exists i :: 0 <= i < n && repos[i].path == path
  }

  ghost predicate NoOtherStatus(known: set<string>, repos: seq<RepoFolder>, n: nat, status: map<string, bool>)
    requires n <= |repos|
  {
    forall path :: path in status ==> path in known || HasPath(repos, n, path)
  }

  lemma NextStatusOnly(known: set<string>, repos: seq<RepoFolder>, n: nat, status: map<string, bool>)
    requires n < |repos| && NoOtherStatus(known, repos, n, status)
    ensures NoOtherStatus(known, repos, n + 1, status[repos[n].path := Loads(repos[n])])
  {
    assert HasPath(repos, n + 1, repos[n].path);
    forall path | HasPath(repos, n, path)
      ensures HasPath(repos, n + 1, path)
    {
      var i :| 0 <= i < n && repos[i].path == path;
      assert i < n + 1;
    }
  }

  lemma NextStatus(repos: seq<RepoFolder>, n: nat, status: map<string, bool>)
    requires n < |repos| && StatusesOf(repos, n, status)
    ensures StatusesOf(repos, n + 1, status[repos[n].path := Loads(repos[n])])
  {}

  lemma {:induction false} ListedSites(m: SiteMaps, repos: seq<RepoFolder>, n: nat)
    requires n <= |repos|
    ensures Copied(m, repos, n).sites.Keys == m.sites.Keys + ListedBy(repos, n)
  {
    if n > 0 {
      ListedSites(m, repos, n - 1);
    }
  }

  datatype RepositoryError = SiteNotFound | RepoPathNotFound

  class WatcherProfile {
    var includedFolders: set<string>
    var excludedFolders: set<string>
    var parentByExcludedFolder: map<string, string>
    var siteByFolders: map<Path, string>
    var repoPathBySite: map<string, string>
    var repoFolderLoadingStatus: map<string, bool>
    var sharePointRepos: map<string, bool>
    ghost var history: History

    constructor ()
      ensures Valid() && ParentsExcluded() && history == Initial
      ensures includedFolders == {} && excludedFolders == {} && parentByExcludedFolder == map[]
      ensures repoFolderLoadingStatus == map[] && sharePointRepos == map[]
    {
      includedFolders, excludedFolders, parentByExcludedFolder := {}, {}, map[];
      siteByFolders, repoPathBySite := map[], map[];
      repoFolderLoadingStatus, sharePointRepos := map[], map[];
      history := Initial;
    }

    function CurrentSites(): SiteMaps
      reads this
    {
      SiteMaps(siteByFolders, repoPathBySite)
    }

    ghost predicate Valid()
      reads this
    {
      CurrentSites() == After(history)
    }

    predicate ParentsExcluded()
      reads this
    {
      parentByExcludedFolder.Keys <= excludedFolders
    }

    /** The folders of one repository are noted, each site under the repository's path. */
    method NoteListing(folders: map<Path, string>, path: string)
      requires Valid()
      modifies this`siteByFolders, this`repoPathBySite, this`history
      ensures Valid() && CurrentSites() == WithListing(old(CurrentSites()), folders, path)
    {
      siteByFolders := siteByFolders + folders;
      ghost var before := repoPathBySite;
      var rest := folders.Values;
      ghost var done: set<string> := {};
      AllToNone(before, path);
      while rest != {}
        invariant rest + done == folders.Values && repoPathBySite == before + AllTo(done, path)
        invariant siteByFolders == old(siteByFolders) + folders && history == old(history)
      {
        var site :| site in rest;
        AllToStep(before, done, site, path);
        repoPathBySite := repoPathBySite[site := path];
        rest := rest - {site};
        done := done + {site};
      }
      assert done == folders.Values;
      history := Listed(history, folders, path);
    }

    /** Stops at the first exclusion that cannot be listed. */
    method CollectExcludes(excludes: seq<SharePointListing>) returns (ok: bool, paths: set<Path>)
      ensures ok == forall i :: 0 <= i < |excludes| ==> excludes[i].Some?
      ensures ok ==> paths == KeysOf(excludes)
    {
      paths := {};
      for i := 0 to |excludes|
        invariant forall j :: 0 <= j < i ==> excludes[j].Some?
        invariant paths == KeysOf(excludes[..i])
      {
        if excludes[i] == None {
          return false, paths;
        }
        KeysStep(excludes, i);
        paths := paths + excludes[i].value.Keys;
      }
      assert excludes[..|excludes|] == excludes;
      ok := true;
    }

    /** The topmost of all folders noted so far, without this repository's exclusions,
        are to be watched. */
    method CopySharePointRepo(path: string, listing: SharePointListing, excludes: seq<SharePointListing>)
      requires Valid()
      modifies this
      ensures Valid() && sharePointRepos == old(sharePointRepos)[path := true]
      ensures CurrentSites() == if listing == None then old(CurrentSites())
                                else WithListing(old(CurrentSites()), listing.value, path)
      ensures repoFolderLoadingStatus == old(repoFolderLoadingStatus)[path := Loads(SharePointRepo(path, listing, excludes))]
      ensures !Loads(SharePointRepo(path, listing, excludes)) ==>
                unchanged(`includedFolders) && unchanged(`excludedFolders) && unchanged(`parentByExcludedFolder)
      ensures Loads(SharePointRepo(path, listing, excludes)) ==>
                && includedFolders == old(includedFolders) + NamesOf(TopmostOf(siteByFolders.Keys) - KeysOf(excludes))
                && excludedFolders == old(excludedFolders) + NamesOf(KeysOf(excludes))
                && Linked(old(parentByExcludedFolder), parentByExcludedFolder, KeysOf(excludes),
                          TopmostOf(siteByFolders.Keys) - KeysOf(excludes))
      ensures old(ParentsExcluded()) ==> ParentsExcluded()
    {
      sharePointRepos := sharePointRepos[path := true];
      if listing == None {
        repoFolderLoadingStatus := repoFolderLoadingStatus[path := false];
        return;
      }
      NoteListing(listing.value, path);
      var siteByDL := RemoveSubPathsFromMap(siteByFolders);
      assert siteByDL.Keys == TopmostOf(siteByFolders.Keys);
      var ok, out := CollectExcludes(excludes);
      if !ok {
        repoFolderLoadingStatus := repoFolderLoadingStatus[path := false];
        return;
      }
      var watched := siteByDL.Keys - out;
      includedFolders := AddNames(includedFolders, watched);
      excludedFolders := AddNames(excludedFolders, out);
      ghost var parents := parentByExcludedFolder;
      parentByExcludedFolder := LinkParents(parentByExcludedFolder, out, watched);
      LinkedAreExcluded(parents, parentByExcludedFolder, out, watched);
      repoFolderLoadingStatus := repoFolderLoadingStatus[path := true];
    }

    method CopySharedRepo(path: string, excludedPaths: seq<string>)
      requires Valid()
      modifies this`includedFolders, this`excludedFolders, this`parentByExcludedFolder, this`sharePointRepos,
               this`repoFolderLoadingStatus
      ensures Valid() && CurrentSites() == old(CurrentSites())
      ensures sharePointRepos == old(sharePointRepos)[path := false]
      ensures repoFolderLoadingStatus == old(repoFolderLoadingStatus)[path := true]
      ensures includedFolders == old(includedFolders) + {ConvertToVfs(path)}
      ensures excludedFolders == old(excludedFolders) + VfsNamesOf(excludedPaths)
      ensures parentByExcludedFolder == old(parentByExcludedFolder) + AllTo(VfsNamesOf(excludedPaths), ConvertToVfs(path))
      ensures old(ParentsExcluded()) ==> ParentsExcluded()
    {
      sharePointRepos := sharePointRepos[path := false];
      var parent := ConvertToVfs(path);
      includedFolders := includedFolders + {parent};
      ExcludeFrom(parent, excludedPaths);
      repoFolderLoadingStatus := repoFolderLoadingStatus[path := true];
    }

    method ExcludeFrom(parent: string, excludedPaths: seq<string>)
      modifies this`excludedFolders, this`parentByExcludedFolder
      ensures excludedFolders == old(excludedFolders) + VfsNamesOf(excludedPaths)
      ensures parentByExcludedFolder == old(parentByExcludedFolder) + AllTo(VfsNamesOf(excludedPaths), parent)
    {
      AllToNone(parentByExcludedFolder, parent);
      ghost var names := {};
      for i := 0 to |excludedPaths|
        invariant names == VfsNamesOf(excludedPaths[..i])
        invariant excludedFolders == old(excludedFolders) + names
        invariant parentByExcludedFolder == old(parentByExcludedFolder) + AllTo(names, parent)
      {
        var child := ConvertToVfs(excludedPaths[i]);
        VfsNamesStep(excludedPaths, i);
        AllToStep(old(parentByExcludedFolder), names, child, parent);
        parentByExcludedFolder := parentByExcludedFolder[child := parent];
        excludedFolders := excludedFolders + {child};
        names := names + {child};
      }
      assert excludedPaths[..|excludedPaths|] == excludedPaths;
    }

    method CopyRepo(r: RepoFolder)
      requires Valid()
      modifies this
      ensures Valid() && CurrentSites() == WithRepo(old(CurrentSites()), r)
      ensures includedFolders == old(includedFolders) + IncludedBy(r, siteByFolders.Keys)
      ensures excludedFolders == old(excludedFolders) + ExcludedBy(r)
      ensures repoFolderLoadingStatus == old(repoFolderLoadingStatus)[r.path := Loads(r)]
      ensures old(ParentsExcluded()) ==> ParentsExcluded()
    {
      match r
      case SharePointRepo(path, listing, excludes) =>
        CopySharePointRepo(path, listing, excludes);
      case SharedRepo(path, excludedPaths) =>
        CopySharedRepo(path, excludedPaths);
    }

    /** The folder sets grow by what each repository includes and excludes, and each
        repository leaves its own loading status, whatever follows of another path. */
    method Copy(repos: seq<RepoFolder>)
      requires Valid()
      modifies this
      ensures Valid() && CurrentSites() == Copied(old(CurrentSites()), repos, |repos|)
      ensures includedFolders == old(includedFolders) + UnionOf(Inclusions(old(siteByFolders.Keys), repos), |repos|)
      ensures excludedFolders == old(excludedFolders) + UnionOf(Exclusions(repos), |repos|)
      ensures old(ParentsExcluded()) ==> ParentsExcluded()
      ensures StatusesOf(repos, |repos|, repoFolderLoadingStatus)
      ensures NoOtherStatus(old(repoFolderLoadingStatus).Keys, repos, |repos|, repoFolderLoadingStatus)
    {
      ghost var start := CurrentConfiguration();
      for n := 0 to |repos|
        invariant Valid() && (old(ParentsExcluded()) ==> ParentsExcluded())
        invariant CopiedFirst(start, repos, n, CurrentConfiguration())
        invariant StatusesOf(repos, n, repoFolderLoadingStatus)
        invariant NoOtherStatus(old(repoFolderLoadingStatus).Keys, repos, n, repoFolderLoadingStatus)
      {
        ghost var before, statuses := CurrentConfiguration(), repoFolderLoadingStatus;
        CopyRepo(repos[n]);
        CopiedNext(start, repos, n, before, CurrentConfiguration());
        NextStatus(repos, n, statuses);
        NextStatusOnly(old(repoFolderLoadingStatus).Keys, repos, n, statuses);
      }
    }

    ghost function CurrentConfiguration(): Configuration
      reads this
    {
      Configuration(CurrentSites(), includedFolders, excludedFolders)
    }

    method RelistRepo(path: string, listings: map<string, map<Path, string>>)
      requires Valid()
      modifies this`siteByFolders, this`repoPathBySite, this`history
      ensures Valid() && CurrentSites() == RelistedOne(old(CurrentSites()), sharePointRepos, listings, path)
      ensures old(siteByFolders).Keys <= siteByFolders.Keys
    {
      if path in sharePointRepos && sharePointRepos[path] && path in listings {
        NoteListing(listings[path], path);
      }
    }

    /** Lists every SharePoint repository again, in the order of their paths; one whose
        listing fails is passed over. */
    method ReloadSharePointFolders(listings: map<string, map<Path, string>>)
      requires Valid()
      modifies this`siteByFolders, this`repoPathBySite, this`history
      ensures Valid()
      ensures
        var names := Listing(sharePointRepos.Keys);
        CurrentSites() == Relisted(old(CurrentSites()), sharePointRepos, listings, names, |names|)
      ensures old(siteByFolders).Keys <= siteByFolders.Keys
    {
      var names := Enumerate(sharePointRepos.Keys);
      RelistRepos(names, listings);
    }

    method RelistRepos(names: seq<string>, listings: map<string, map<Path, string>>)
      requires Valid()
      modifies this`siteByFolders, this`repoPathBySite, this`history
      ensures Valid() && CurrentSites() == Relisted(old(CurrentSites()), sharePointRepos, listings, names, |names|)
      ensures old(siteByFolders).Keys <= siteByFolders.Keys
    {
      for i := 0 to |names|
        invariant Valid() && CurrentSites() == Relisted(old(CurrentSites()), sharePointRepos, listings, names, i)
        invariant old(siteByFolders).Keys <= siteByFolders.Keys
      {
        RelistRepo(names[i], listings);
      }
    }

    /** What sendToJMS looks up for a file in a SharePoint folder. */
    method RepoPathOf(parentPath: Path, listings: map<string, map<Path, string>>) returns (r: Result<string, RepositoryError>)
      requires Valid()
      modifies this`siteByFolders, this`repoPathBySite, this`history
      ensures Valid()
      ensures r.Success? <==> parentPath in siteByFolders
      ensures r.Success? <==> parentPath in old(siteByFolders) || FoundAnew(sharePointRepos, listings, parentPath)
      ensures r.Success? ==> siteByFolders[parentPath] in repoPathBySite && r.value == repoPathBySite[siteByFolders[parentPath]]
      ensures r != Failure(RepoPathNotFound)
    {
      if parentPath !in siteByFolders {
        RelistedFinds(CurrentSites(), sharePointRepos, listings, parentPath);
        ReloadSharePointFolders(listings);
        if parentPath !in siteByFolders {
          return Failure(SiteNotFound);
        }
      }
      EverySiteHasRepo(history);
      assert parentPath in CurrentSites().sites;
      var site := siteByFolders[parentPath];
      if site !in repoPathBySite {
        return Failure(RepoPathNotFound);
      }
      r := Success(repoPathBySite[site]);
    }
  }

  /** The `i`-th repository excludes the name and the `j`-th includes it. */
  ghost predicate Clash(inclusions: seq<set<string>>, exclusions: seq<set<string>>, f: string, i: nat, j: nat)
  {
    i < |exclusions| && j < |inclusions| && f in exclusions[i] && f in inclusions[j]
  }

  lemma ClashInUnions(inclusions: seq<set<string>>, exclusions: seq<set<string>>, f: string)
    ensures f in UnionOf(inclusions, |inclusions|) && f in UnionOf(exclusions, |exclusions|) <==>
              exists i, j :: Clash(inclusions, exclusions, f, i, j)
  {
    InUnion(inclusions, |inclusions|, f);
    InUnion(exclusions, |exclusions|, f);
    if f in UnionOf(inclusions, |inclusions|) && f in UnionOf(exclusions, |exclusions|) {
      var j :| 0 <= j < |inclusions| && f in inclusions[j];
      var i :| 0 <= i < |exclusions| && f in exclusions[i];
      assert Clash(inclusions, exclusions, f, i, j);
    }
  }

  /** A configuration both includes and excludes a name exactly when one of its
      repositories excludes it and one includes it: as a shared path, or as a folder
      topmost among those listed so far and not among its own exclusions. */
  lemma IncludedAndExcluded(known: set<Path>, repos: seq<RepoFolder>, f: string)
    returns (inclusions: seq<set<string>>, exclusions: seq<set<string>>)
    ensures inclusions == Inclusions(known, repos) && exclusions == Exclusions(repos)
    ensures f in UnionOf(inclusions, |repos|) && f in UnionOf(exclusions, |repos|) <==>
              exists i, j :: Clash(inclusions, exclusions, f, i, j)
  {
    inclusions, exclusions := Inclusions(known, repos), Exclusions(repos);
    ClashInUnions(inclusions, exclusions, f);
  }

  lemma ClashMeaning(known: set<Path>, repos: seq<RepoFolder>, f: string, i: nat, j: nat)
    requires i < |repos| && j < |repos|
    ensures Clash(Inclusions(known, repos), Exclusions(repos), f, i, j)
       <==> f in ExcludedBy(repos[i]) && f in IncludedBy(repos[j], known + ListedBy(repos, j + 1))
  {
    var inclusions, exclusions := Inclusions(known, repos), Exclusions(repos);
    assert inclusions[j] == IncludedBy(repos[j], known + ListedBy(repos, j + 1));
  }

  /** What one repository includes and excludes never clash when it is a SharePoint
      one whose folders have different names. */
  lemma OwnExclusionsLeftOut(r: RepoFolder, listed: set<Path>, f: string)
    requires r.SharePointRepo?
    requires forall p, q :: p in listed && q in KeysOf(r.excludes) && FolderName(p) == FolderName(q) ==> p == q
    ensures !(f in ExcludedBy(r) && f in IncludedBy(r, listed))
  {}

  /** So for the sets of a profile newly copied. */
  method CopyNew(repos: seq<RepoFolder>) returns (profile: WatcherProfile)
    ensures fresh(profile) && profile.Valid() && profile.ParentsExcluded()
    ensures forall f :: f in profile.includedFolders && f in profile.excludedFolders <==>
                        exists i, j :: Clash(Inclusions({}, repos), Exclusions(repos), f, i, j)
  {
    profile := new WatcherProfile();
    NoSitesYet(profile);
    profile.Copy(repos);
    forall f {
      ClashInUnions(Inclusions({}, repos), Exclusions(repos), f);
    }
  }

  lemma NoSitesYet(profile: WatcherProfile)
    requires profile.Valid() && profile.history == Initial
    ensures profile.siteByFolders.Keys == {}
  {
    assert profile.CurrentSites() == SiteMaps(map[], map[]);
  }

  /** An input that does both: two SharePoint repositories with a library each, of
      which the first excludes its own; the second includes it. */
  lemma SecondRepositoryIncludes(a: Path, b: Path, site: string) returns (repos: seq<RepoFolder>)
    requires !StartsWith(a, b)
    ensures |repos| == 2 && Clash(Inclusions({}, repos), Exclusions(repos), FolderName(a), 0, 1)
  {
    var first: map<Path, string>, second: map<Path, string> := map[a := site], map[b := site];
    repos := [SharePointRepo("A", Some(first), [Some(first)]), SharePointRepo("B", Some(second), [])];
    OneExclude(first);
    StillTopmost(a, b);
    assert ListedBy(repos, 0) == {} && ListedBy(repos, 1) == {a} && ListedBy(repos, 2) == {a, b};
    assert {} + ListedBy(repos, 2) == {a, b};
  }

  lemma OneExclude(m: map<Path, string>)
    ensures KeysOf([Some(m)]) == m.Keys
  {
    var excludes: seq<SharePointListing> := [Some(m)];
    assert excludes[0] == Some(m);
  }

  lemma StillTopmost(a: Path, b: Path)
    requires !StartsWith(a, b)
    ensures a in TopmostOf({a, b}) - KeysOf([])
  {
    assert Topmost({a, b}, a);
  }

  lemma KeysStep(excludes: seq<SharePointListing>, i: nat)
    requires i < |excludes| && excludes[i].Some?
    ensures KeysOf(excludes[..i + 1]) == KeysOf(excludes[..i]) + excludes[i].value.Keys
  {
    assert excludes[..i + 1] == excludes[..i] + [excludes[i]];
  }

  lemma VfsNamesStep(paths: seq<string>, i: nat)
    requires i < |paths|
    ensures VfsNamesOf(paths[..i + 1]) == VfsNamesOf(paths[..i]) + {ConvertToVfs(paths[i])}
  {
    assert paths[..i + 1] == paths[..i] + [paths[i]];
  }

  lemma LinkedAreExcluded(parents: map<string, string>, linked: map<string, string>, excluded: set<Path>, included: set<Path>)
    requires Linked(parents, linked, excluded, included)
    ensures linked.Keys <= parents.Keys + NamesOf(excluded)
  {
    forall k | k in linked && k !in parents
      ensures k in NamesOf(excluded)
    {
      assert Links(k, linked[k], excluded, included);
    }
  }
}
