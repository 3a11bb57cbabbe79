/** The watcher's reload of its folders from the latest profile. */
module WatcherReload {
  import opened Wrappers
  import opened StringOrder
  import opened SetSizes
  import opened SharePointMaps
  import opened WatcherProfiles
  import opened Reconciliation
  import FileTrees

  /** What the reload meets outside: the names that have a path, those that the file
      system manager refuses, and the new folders that can be crawled,
      each with the monitor it is put on unless it is excluded. */
  datatype Surroundings = Surroundings(paths: map<string, Path>, refused: set<string>, crawled: map<string, Option<nat>>)

  /*** Merging maps ***/

  /** Keys in both are overwritten, new ones added, others left. */
  method MergeInto<K(==), V>(current: map<K, V>, latest: map<K, V>) returns (merged: map<K, V>)
    ensures merged == current + latest
  {
    merged := current;
    var rest := latest.Keys;
    ghost var done: set<K> := {};
    while rest != {}
      invariant rest + done == latest.Keys
      invariant merged == current + RestrictTo(latest, done)
    {
      var key :| key in rest;
      RestrictStep(current, latest, done, key);
      merged := merged[key := latest[key]];
      rest := rest - {key};
      done := done + {key};
    }
    assert done == latest.Keys;
    RestrictAll(latest);
  }

  function RestrictTo<K(==), V>(m: map<K, V>, keys: set<K>): map<K, V>
  {
    map k | k in m && k in keys :: m[k]
  }

  lemma RestrictStep<K, V>(current: map<K, V>, latest: map<K, V>, done: set<K>, key: K)
    requires key in latest
    ensures current + RestrictTo(latest, done + {key}) == (current + RestrictTo(latest, done))[key := latest[key]]
  {}

  lemma RestrictAll<K, V>(m: map<K, V>)
    ensures RestrictTo(m, m.Keys) == m
  {}

  /*** Steps of the removal loops ***/

  /** Those of the first `i` names that are dropped. */
  function DroppedAmong(b: Basis, names: seq<string>, i: nat): set<string>
    requires i <= |names|
  {
    set j | 0 <= j < i && !Retained(b.paths, b.sites, b.status, names[j]) :: names[j]
  }

  lemma DroppedStep(b: Basis, names: seq<string>, i: nat)
    requires i < |names|
    ensures DroppedAmong(b, names, i + 1)
            == DroppedAmong(b, names, i) + if Retained(b.paths, b.sites, b.status, names[i]) then {} else {names[i]}
  {}

  lemma DroppedAmongIs(b: Basis, names: seq<string>, folders: set<string>) returns (d: set<string>)
    requires forall f :: f in names <==> f in folders
    ensures d == DroppedAmong(b, names, |names|)
    ensures d == set f | f in folders && !Retained(b.paths, b.sites, b.status, f)
  {
    d := DroppedAmong(b, names, |names|);
  }

  lemma KeptBesideDropped(b: Basis, was: set<string>, latest: set<string>)
    ensures was + latest - Dropped(b, was, latest) == Reconciled(b, was, latest)
    ensures Dropped(b, was, latest) == set f | f in was + latest - latest && !Retained(b.paths, b.sites, b.status, f)
  {}

  /** All names gone through: what is left is the reconciled set. */
  lemma DroppedAll(b: Basis, names: seq<string>, was: set<string>, latest: set<string>)
    requires names == Listing(was + latest - latest)
    ensures was + latest - DroppedAmong(b, names, |names|) == Reconciled(b, was, latest)
    ensures DroppedAmong(b, names, |names|) == Dropped(b, was, latest)
  {
    var d := DroppedAmongIs(b, names, was + latest - latest);
    KeptBesideDropped(b, was, latest);
  }

  lemma NothingChanged(b: Basis, folders: set<string>)
    ensures Reconciled(b, folders, folders) == folders && Dropped(b, folders, folders) == {}
    ensures Listing(folders - folders) == []
  {}

  /** The folders dropped from the exclusions that the reload wants to crawl again. */
  predicate Recrawled(b: Basis, included: set<string>, latestIncluded: set<string>, f: string)
  {
    !Retained(b.paths, b.sites, b.status, f) && FileTrees.InFolders(included, f) && FileTrees.InFolders(latestIncluded, f)
  }

  /** The folders that the latest profile lacks, in order. */
  ghost function Lacking(was: set<string>, now: set<string>): seq<string>
  {
    Listing(was + now - now)
  }

  /** The removal loop has ended at its `stopped`-th name, which was refused. */
  ghost predicate StoppedAt(b: Basis, s: Surroundings, included: set<string>, latestIncluded: set<string>,
                            names: seq<string>, stopped: nat)
  {
    0 < stopped <= |names| && names[stopped - 1] in s.refused && Recrawled(b, included, latestIncluded, names[stopped - 1])
  }

  /** What monitor `k` is told of newly excluded folders. */
  ghost function ExclusionNotices(parents: map<string, string>, monitors: map<string, nat>, folders: set<string>, k: nat): seq<string>
  {
    var names := Listing(folders);
    Told(ExclusionRoutes(parents, monitors, Elements(names)), names, |names|, k)
  }

  /** What monitor `k` is told of included folders that the latest profile lacks. */
  ghost function DropNotices(b: Basis, monitors: map<string, nat>, folders: set<string>, k: nat): seq<string>
  {
    var names := Listing(folders);
    Told(DropRoutes(b, monitors, Elements(names)), names, |names|, k)
  }

  /** A new folder that was crawled is no longer pending, and its monitor is remembered; of
      a dropped one neither is kept; of the others both are as they were. */
  ghost predicate BookkeepingFollows(s: Surroundings, was: set<string>, left: set<string>, latest: set<string>,
                          pendingBefore: set<string>, pending: set<string>, before: map<string, nat>, monitors: map<string, nat>)
  {
    && (forall f :: f in latest && f !in was && f in s.crawled ==>
          f !in pending && (s.crawled[f].Some? ==> f in monitors && monitors[f] == s.crawled[f].value))
    && (forall f :: f in was && f !in left ==> f !in pending && f !in monitors)
    && (forall f :: f in was && f in left ==>
          && (f in pending <==> f in pendingBefore)
          && (f in monitors <==> f in before) && (f in monitors ==> monitors[f] == before[f]))
  }

  lemma ReconciledMoves(b: Basis, s: Surroundings, was: set<string>, now: set<string>, pending: set<string>, monitors: map<string, nat>)
    ensures BookkeepingFollows(s, was, Reconciled(b, was, now), now,
                    pending, pending - ((now - was) * s.crawled.Keys) - Dropped(b, was, now),
                    monitors, monitors + Placed(s, now - was) - Dropped(b, was, now))
  {}

  class Watcher {
    const profile: WatcherProfile
    const removeLists: array<seq<string>>
    var includePaths: set<string>
    var fileMonitorByFolderName: map<string, nat>

    constructor (profile: WatcherProfile, n: nat)
      requires profile.Valid()
      ensures Valid() && this.profile == profile && fresh(removeLists) && removeLists.Length == n
      ensures removeLists[..] == seq(n, _ => []) && includePaths == {} && fileMonitorByFolderName == map[]
    {
      this.profile := profile;
      removeLists := new seq<string>[n](_ => []);
      includePaths, fileMonitorByFolderName := {}, map[];
    }

    ghost predicate Valid()
      reads this, profile
    {
      profile.Valid() && forall f :: f in fileMonitorByFolderName ==> fileMonitorByFolderName[f] < removeLists.Length
    }

    function BasisOf(paths: map<string, Path>, status: map<string, bool>): Basis
      reads profile
    {
      Basis(paths, profile.CurrentSites(), status)
    }

    /** The three site and repository maps only grow or are overwritten. */
    method ReloadSites(latest: WatcherProfile)
      requires profile.Valid() && latest.Valid() && latest != profile
      modifies profile`siteByFolders, profile`repoPathBySite, profile`history
      ensures profile.Valid()
      ensures profile.CurrentSites() == WithMerged(old(profile.CurrentSites()), latest.CurrentSites())
    {
      profile.siteByFolders := MergeInto(profile.siteByFolders, latest.siteByFolders);
      profile.repoPathBySite := MergeInto(profile.repoPathBySite, latest.repoPathBySite);
      profile.history := Merged(profile.history, latest.history);
    }

    /** Folder, site, repository, loading status. */
    method IsRetained(paths: map<string, Path>, status: map<string, bool>, f: string) returns (retained: bool)
      ensures retained == Retained(paths, profile.CurrentSites(), status, f)
    {
      if f !in paths {
        return true;
      }
      var p := paths[f];
      if p !in profile.siteByFolders {
        return false;
      }
      var site := profile.siteByFolders[p];
      if site !in profile.repoPathBySite {
        return false;
      }
      var repo := profile.repoPathBySite[site];
      retained := repo in status && !status[repo];
    }

    /** queueAddRemovePath on the monitors concerned. */
    method Announce(d: Destination, f: string)
      requires d.One? ==> d.monitor < removeLists.Length
      modifies removeLists
      ensures forall k :: 0 <= k < removeLists.Length ==>
                removeLists[k] == old(removeLists[k]) + if Reaches(d, k) then [f] else []
    {
      match d
      case One(k) =>
        removeLists[k] := removeLists[k] + [f];
      case All =>
        for k := 0 to removeLists.Length
          invariant forall j :: 0 <= j < k ==> removeLists[j] == old(removeLists[j]) + [f]
          invariant forall j :: k <= j < removeLists.Length ==> removeLists[j] == old(removeLists[j])
        {
          removeLists[k] := removeLists[k] + [f];
        }
      case Nobody =>
    }

    /*** Excluded folders ***/

    method AddExclusions(names: seq<string>, parents: map<string, string>, ghost routes: Routes)
      requires Valid()
      requires forall f :: f in names ==> f in routes && routes[f] == ExclusionRoute(parents, fileMonitorByFolderName, f)
      modifies profile`excludedFolders, removeLists
      ensures profile.excludedFolders == old(profile.excludedFolders) + Elements(names)
      ensures forall k :: 0 <= k < removeLists.Length ==>
                removeLists[k] == old(removeLists[k]) + Told(routes, names, |names|, k)
    {
      for i := 0 to |names|
        invariant profile.excludedFolders == old(profile.excludedFolders) + Elements(names[..i])
        invariant forall k :: 0 <= k < removeLists.Length ==>
                    removeLists[k] == old(removeLists[k]) + Told(routes, names, i, k)
      {
        ElementsStep(names, i);
        profile.excludedFolders := profile.excludedFolders + {names[i]};
        Announce(ExclusionRoute(parents, fileMonitorByFolderName, names[i]), names[i]);
      }
      assert names[..|names|] == names;
    }

    /** Stops where a folder that is to be crawled again is refused. */
    method DropExclusions(names: seq<string>, s: Surroundings, latestIncluded: set<string>, status: map<string, bool>, ghost b: Basis)
      returns (stopped: nat, ok: bool)
      requires b == BasisOf(s.paths, status)
      modifies profile`excludedFolders
      ensures ok <==> Stops(b, s, profile.includedFolders, latestIncluded, Elements(names)) == {}
      ensures stopped <= |names| && (ok ==> stopped == |names|)
      ensures !ok ==> stopped > 0 && names[stopped - 1] in s.refused
                      && Recrawled(b, profile.includedFolders, latestIncluded, names[stopped - 1])
      ensures profile.excludedFolders == old(profile.excludedFolders) - DroppedAmong(b, names, stopped)
    {
      for i := 0 to |names|
        invariant Stops(b, s, profile.includedFolders, latestIncluded, Elements(names[..i])) == {}
        invariant profile.excludedFolders == old(profile.excludedFolders) - DroppedAmong(b, names, i)
      {
        DroppedStep(b, names, i);
        ElementsStep(names, i);
        var retained := IsRetained(s.paths, status, names[i]);
        if !retained {
          profile.excludedFolders := profile.excludedFolders - {names[i]};
          var before := FileTrees.IsWithinFolders(profile.includedFolders, names[i]);
          var after := FileTrees.IsWithinFolders(latestIncluded, names[i]);
          if before && after && names[i] in s.refused {
            assert names[i] in Stops(b, s, profile.includedFolders, latestIncluded, Elements(names));
            return i + 1, false;
          }
        }
      }
      assert names[..|names|] == names;
      stopped, ok := |names|, true;
    }

    method DropOldExclusions(was: set<string>, now: set<string>, s: Surroundings, latestIncluded: set<string>,
                             status: map<string, bool>, ghost b: Basis)
      returns (ok: bool, ghost stopped: nat)
      requires profile.excludedFolders == was + now && b == BasisOf(s.paths, status)
      modifies profile`excludedFolders
      ensures ok <==> forall f :: f in Dropped(b, was, now) ==> !Blocked(s, profile.includedFolders, latestIncluded, f)
      ensures ok ==> profile.excludedFolders == Reconciled(b, was, now)
      ensures stopped <= |Listing(was + now - now)|
      ensures profile.excludedFolders == was + now - DroppedAmong(b, Listing(was + now - now), stopped)
      ensures !ok ==> StoppedAt(b, s, profile.includedFolders, latestIncluded, Listing(was + now - now), stopped)
    {
      var gone := Enumerate(was + now - now);
      DroppedAll(b, gone, was, now);
      stopped, ok := DropExclusions(gone, s, latestIncluded, status, b);
      assert Elements(gone) == was + now - now;
      StopsAmong(b, s, profile.includedFolders, latestIncluded, was, now);
    }

    /** `stopped` is how many of the folders that the latest profile lacks were gone through. */
    method ReloadExcludedFolders(latest: WatcherProfile, s: Surroundings, ghost b: Basis) returns (ok: bool, ghost stopped: nat)
      requires Valid() && latest != profile && b == BasisOf(s.paths, latest.repoFolderLoadingStatus)
      modifies profile`excludedFolders, removeLists
      ensures
        var was, now := old(profile.excludedFolders), latest.excludedFolders;
        && (ok <==> forall f :: f in Dropped(b, was, now) ==> !Blocked(s, profile.includedFolders, latest.includedFolders, f))
        && (ok ==> profile.excludedFolders == Reconciled(b, was, now))
        && stopped <= |Listing(was + now - now)|
        && profile.excludedFolders == was + now - DroppedAmong(b, Listing(was + now - now), stopped)
        && (!ok ==> StoppedAt(b, s, profile.includedFolders, latest.includedFolders, Listing(was + now - now), stopped))
      ensures forall k :: 0 <= k < removeLists.Length ==>
                removeLists[k] == old(removeLists[k])
                                  + ExclusionNotices(latest.parentByExcludedFolder, fileMonitorByFolderName,
                                                     latest.excludedFolders - old(profile.excludedFolders), k)
    {
      var was, now := profile.excludedFolders, latest.excludedFolders;
      if was == now {
        NothingExcluded(b, now);
        return true, 0;
      }
      AddNewExclusions(now - was, latest.parentByExcludedFolder);
      assert was + (now - was) == was + now;
      ok, stopped := DropOldExclusions(was, now, s, latest.includedFolders, latest.repoFolderLoadingStatus, b);
    }

    method AddNewExclusions(folders: set<string>, parents: map<string, string>)
      requires Valid()
      modifies profile`excludedFolders, removeLists
      ensures profile.excludedFolders == old(profile.excludedFolders) + folders
      ensures forall k :: 0 <= k < removeLists.Length ==>
                removeLists[k] == old(removeLists[k]) + ExclusionNotices(parents, fileMonitorByFolderName, folders, k)
    {
      var names := Enumerate(folders);
      assert forall f :: f in names ==> f in Elements(names);
      AddExclusions(names, parents, ExclusionRoutes(parents, fileMonitorByFolderName, Elements(names)));
      assert Elements(names) == folders;
    }

    /*** Included folders ***/

    method AddInclusions(names: seq<string>, s: Surroundings)
      requires Valid() && forall f :: f in s.crawled && s.crawled[f].Some? ==> s.crawled[f].value < removeLists.Length
      modifies profile`includedFolders, this`includePaths, this`fileMonitorByFolderName
      ensures Valid()
      ensures profile.includedFolders == old(profile.includedFolders) + Elements(names)
      ensures fileMonitorByFolderName == old(fileMonitorByFolderName) + Placed(s, Elements(names))
      ensures includePaths == old(includePaths) - (Elements(names) * s.crawled.Keys)
    {
      ghost var monitors, done := fileMonitorByFolderName, Elements([]);
      assert monitors + Placed(s, done) == monitors;
      for i := 0 to |names|
        invariant Valid() && done == Elements(names[..i])
        invariant profile.includedFolders == old(profile.includedFolders) + done
        invariant fileMonitorByFolderName == monitors + Placed(s, done)
        invariant includePaths == old(includePaths) - (done * s.crawled.Keys)
      {
        ElementsStep(names, i);
        PlacedStep(monitors, s, done, names[i]);
        AddInclusion(names[i], s);
        done := done + {names[i]};
      }
      assert names[..|names|] == names;
    }

    /** A new included folder is noted and crawled. */
    method AddInclusion(f: string, s: Surroundings)
      requires Valid() && forall f :: f in s.crawled && s.crawled[f].Some? ==> s.crawled[f].value < removeLists.Length
      modifies profile`includedFolders, this`includePaths, this`fileMonitorByFolderName
      ensures Valid() && profile.includedFolders == old(profile.includedFolders) + {f}
      ensures fileMonitorByFolderName == if f in s.crawled && s.crawled[f].Some?
                                         then old(fileMonitorByFolderName)[f := s.crawled[f].value]
                                         else old(fileMonitorByFolderName)
      ensures includePaths == old(includePaths) - ({f} * s.crawled.Keys)
    {
      profile.includedFolders := profile.includedFolders + {f};
      if f in s.crawled {
        if s.crawled[f].Some? {
          fileMonitorByFolderName := fileMonitorByFolderName[f := s.crawled[f].value];
        }
        includePaths := includePaths - {f};
      }
    }

    method DropInclusion(f: string, paths: map<string, Path>, status: map<string, bool>, ghost b: Basis) returns (retained: bool)
      requires Valid() && b == BasisOf(paths, status)
      modifies profile`includedFolders, this`includePaths, this`fileMonitorByFolderName, removeLists
      ensures Valid() && retained == Retained(b.paths, b.sites, b.status, f)
      ensures retained ==> unchanged(this) && unchanged(removeLists) && unchanged(profile)
      ensures !retained ==>
                && profile.includedFolders == old(profile.includedFolders) - {f}
                && includePaths == old(includePaths) - {f}
                && fileMonitorByFolderName == old(fileMonitorByFolderName) - {f}
      ensures forall k :: 0 <= k < removeLists.Length ==>
                removeLists[k] == old(removeLists[k])
                                  + if !retained && Reaches(DropRoute(old(fileMonitorByFolderName), f), k) then [f] else []
    {
      retained := IsRetained(paths, status, f);
      if !retained {
        profile.includedFolders := profile.includedFolders - {f};
        includePaths := includePaths - {f};
        Announce(DropRoute(fileMonitorByFolderName, f), f);
        fileMonitorByFolderName := fileMonitorByFolderName - {f};
      }
    }

    method DropInclusions(names: seq<string>, paths: map<string, Path>, status: map<string, bool>, ghost b: Basis, ghost routes: Routes)
      requires Valid() && Sorted(names) && b == BasisOf(paths, status)
      requires routes == DropRoutes(b, fileMonitorByFolderName, Elements(names))
      modifies profile`includedFolders, this`includePaths, this`fileMonitorByFolderName, removeLists
      ensures Valid()
      ensures profile.includedFolders == old(profile.includedFolders) - DroppedAmong(b, names, |names|)
      ensures includePaths == old(includePaths) - DroppedAmong(b, names, |names|)
      ensures fileMonitorByFolderName == old(fileMonitorByFolderName) - DroppedAmong(b, names, |names|)
      ensures forall k :: 0 <= k < removeLists.Length ==>
                removeLists[k] == old(removeLists[k]) + Told(routes, names, |names|, k)
    {
      ghost var gone: set<string> := {};
      assert fileMonitorByFolderName - {} == fileMonitorByFolderName;
      for i := 0 to |names|
        invariant Valid() && gone == DroppedAmong(b, names, i)
        invariant profile.includedFolders == old(profile.includedFolders) - gone
        invariant includePaths == old(includePaths) - gone
        invariant fileMonitorByFolderName == old(fileMonitorByFolderName) - gone
        invariant forall k :: 0 <= k < removeLists.Length ==>
                    removeLists[k] == old(removeLists[k]) + Told(routes, names, i, k)
      {
        DroppedStep(b, names, i);
        NotDroppedYet(b, names, i);
        NextTold(b, old(fileMonitorByFolderName), names, i, gone);
        var retained := DropInclusion(names[i], paths, status, b);
        gone := gone + if retained then {} else {names[i]};
      }
    }

    method ReloadIncludedFolders(latest: WatcherProfile, s: Surroundings)
      requires Valid() && latest != profile
      requires forall f :: f in s.crawled && s.crawled[f].Some? ==> s.crawled[f].value < removeLists.Length
      modifies profile`includedFolders, this`includePaths, this`fileMonitorByFolderName, removeLists
      ensures Valid()
      ensures
        var b := BasisOf(s.paths, latest.repoFolderLoadingStatus);
        var was, now := old(profile.includedFolders), latest.includedFolders;
        var dropped := Dropped(b, was, now);
        var monitors := old(fileMonitorByFolderName) + Placed(s, now - was);
        && profile.includedFolders == Reconciled(b, was, now)
        && includePaths == old(includePaths) - ((now - was) * s.crawled.Keys) - dropped
        && fileMonitorByFolderName == monitors - dropped
        && forall k :: 0 <= k < removeLists.Length ==>
             removeLists[k] == old(removeLists[k]) + DropNotices(b, monitors, was + now - now, k)
      ensures BookkeepingFollows(s, old(profile.includedFolders), profile.includedFolders, latest.includedFolders, old(includePaths), includePaths,
                      old(fileMonitorByFolderName), fileMonitorByFolderName)
    {
      ghost var b := BasisOf(s.paths, latest.repoFolderLoadingStatus);
      var was, now := profile.includedFolders, latest.includedFolders;
      if was == now {
        NothingChanged(b, now);
        assert now + now - now == {};
        assert fileMonitorByFolderName + Placed(s, {}) - {} == fileMonitorByFolderName;
        return;
      }
      ReconcileInclusions(was, now, s, latest.repoFolderLoadingStatus, b);
      ReconciledMoves(b, s, was, now, old(includePaths), old(fileMonitorByFolderName));
    }

    method ReconcileInclusions(was: set<string>, now: set<string>, s: Surroundings, status: map<string, bool>, ghost b: Basis)
      requires Valid() && b == BasisOf(s.paths, status) && profile.includedFolders == was
      requires forall f :: f in s.crawled && s.crawled[f].Some? ==> s.crawled[f].value < removeLists.Length
      modifies profile`includedFolders, this`includePaths, this`fileMonitorByFolderName, removeLists
      ensures Valid() && profile.includedFolders == Reconciled(b, was, now)
      ensures includePaths == old(includePaths) - ((now - was) * s.crawled.Keys) - Dropped(b, was, now)
      ensures fileMonitorByFolderName == old(fileMonitorByFolderName) + Placed(s, now - was) - Dropped(b, was, now)
      ensures forall k :: 0 <= k < removeLists.Length ==>
                removeLists[k] == old(removeLists[k])
                                  + DropNotices(b, old(fileMonitorByFolderName) + Placed(s, now - was), was + now - now, k)
    {
      var added := Enumerate(now - was);
      AddInclusions(added, s);
      assert Elements(added) == now - was;
      assert profile.includedFolders == was + now;
      var gone := Enumerate(was + now - now);
      DroppedAll(b, gone, was, now);
      DropInclusions(gone, s.paths, status, b, DropRoutes(b, fileMonitorByFolderName, Elements(gone)));
    }

    /*** Parents of excluded folders ***/

    method ReloadParentByExcludedFolder(latest: WatcherProfile, s: Surroundings)
      requires latest != profile
      modifies profile`parentByExcludedFolder
      ensures profile.parentByExcludedFolder
              == ReconciledParents(BasisOf(s.paths, latest.repoFolderLoadingStatus), old(profile.parentByExcludedFolder),
                                   latest.parentByExcludedFolder)
    {
      ghost var b := BasisOf(s.paths, latest.repoFolderLoadingStatus);
      var was, now := profile.parentByExcludedFolder, latest.parentByExcludedFolder;
      if was == now {
        assert Dropped(b, was.Keys, now.Keys) == {};
        return;
      }
      profile.parentByExcludedFolder := MergeInto(was, now);
      ghost var merged := profile.parentByExcludedFolder;
      var rest := was.Keys - now.Keys;
      ghost var done: set<string> := {};
      assert merged - {} == merged;
      while rest != {}
        invariant rest + done == was.Keys - now.Keys
        invariant profile.parentByExcludedFolder == merged - Dropped(b, done, {})
      {
        var key :| key in rest;
        DroppedMore(b, done, key);
        DropParent(key, s.paths, latest.repoFolderLoadingStatus, b);
        rest := rest - {key};
        done := done + {key};
      }
      assert Dropped(b, done, {}) == Dropped(b, was.Keys, now.Keys);
    }

    method DropParent(key: string, paths: map<string, Path>, status: map<string, bool>, ghost b: Basis)
      requires b == BasisOf(paths, status)
      modifies profile`parentByExcludedFolder
      ensures profile.parentByExcludedFolder
              == old(profile.parentByExcludedFolder) - if Retained(b.paths, b.sites, b.status, key) then {} else {key}
    {
      var retained := IsRetained(paths, status, key);
      if !retained {
        profile.parentByExcludedFolder := profile.parentByExcludedFolder - {key};
      } else {
        assert profile.parentByExcludedFolder - {} == profile.parentByExcludedFolder;
      }
    }

    /*** The whole reload ***/

    method ReloadRepoTypes(latest: WatcherProfile)
      requires latest != profile
      modifies profile`sharePointRepos
      ensures profile.sharePointRepos == latest.sharePointRepos
    {
      var left := profile.sharePointRepos - (profile.sharePointRepos.Keys - latest.sharePointRepos.Keys);
      profile.sharePointRepos := MergeInto(left, latest.sharePointRepos);
    }

    /** Once the exclusions have been reloaded without a refusal all sets and maps are
        reconciled with the latest profile; after one, the included folders and the
        parents are as they were, the new exclusions are there and announced, and the
        old ones are gone up to the refused folder. `stopped` is how many of the
        folders that the latest profile does not exclude were gone through. */
    method ReloadRepoFolderConfig(latest: WatcherProfile, s: Surroundings) returns (ok: bool, ghost b: Basis, ghost stopped: nat)
      requires Valid() && latest.Valid() && latest != profile
      requires forall f :: f in s.crawled && s.crawled[f].Some? ==> s.crawled[f].value < removeLists.Length
      modifies this, profile, removeLists
      ensures Valid() && profile.CurrentSites() == WithMerged(old(profile.CurrentSites()), latest.CurrentSites())
      ensures b == BasisOf(s.paths, latest.repoFolderLoadingStatus)
      ensures ok <==> forall f :: f in Dropped(b, old(profile.excludedFolders), latest.excludedFolders) ==>
                                    !Blocked(s, old(profile.includedFolders), latest.includedFolders, f)
      ensures ok ==>
                && profile.excludedFolders == Reconciled(b, old(profile.excludedFolders), latest.excludedFolders)
                && profile.includedFolders == Reconciled(b, old(profile.includedFolders), latest.includedFolders)
                && profile.parentByExcludedFolder
                   == ReconciledParents(b, old(profile.parentByExcludedFolder), latest.parentByExcludedFolder)
      ensures !ok ==> unchanged(profile`includedFolders) && unchanged(profile`parentByExcludedFolder) && unchanged(this)
      ensures !ok ==>
                && StoppedAt(b, s, profile.includedFolders, latest.includedFolders,
                             Lacking(old(profile.excludedFolders), latest.excludedFolders), stopped)
                && profile.excludedFolders
                   == old(profile.excludedFolders) + latest.excludedFolders
                      - DroppedAmong(b, Lacking(old(profile.excludedFolders), latest.excludedFolders), stopped)
      ensures forall k :: 0 <= k < removeLists.Length ==>
                removeLists[k]
                == old(removeLists[k])
                   + ExclusionNotices(latest.parentByExcludedFolder, old(fileMonitorByFolderName),
                                      latest.excludedFolders - old(profile.excludedFolders), k)
                   + if ok then
                       DropNotices(b, old(fileMonitorByFolderName) + Placed(s, latest.includedFolders - old(profile.includedFolders)),
                                   old(profile.includedFolders) + latest.includedFolders - latest.includedFolders, k)
                     else []
    {
      ok, b, stopped := ReloadExclusions(latest, s);
      if ok {
        ReloadInclusions(latest, s, b);
      }
    }

    method ReloadExclusions(latest: WatcherProfile, s: Surroundings) returns (ok: bool, ghost b: Basis, ghost stopped: nat)
      requires Valid() && latest.Valid() && latest != profile
      modifies profile`sharePointRepos, profile`siteByFolders, profile`repoPathBySite, profile`history,
               profile`excludedFolders, removeLists
      ensures Valid() && profile.CurrentSites() == WithMerged(old(profile.CurrentSites()), latest.CurrentSites())
      ensures profile.sharePointRepos == latest.sharePointRepos
      ensures b == BasisOf(s.paths, latest.repoFolderLoadingStatus)
      ensures ok <==> forall f :: f in Dropped(b, old(profile.excludedFolders), latest.excludedFolders) ==>
                                    !Blocked(s, profile.includedFolders, latest.includedFolders, f)
      ensures ok ==> profile.excludedFolders == Reconciled(b, old(profile.excludedFolders), latest.excludedFolders)
      ensures !ok ==>
                && StoppedAt(b, s, profile.includedFolders, latest.includedFolders,
                             Lacking(old(profile.excludedFolders), latest.excludedFolders), stopped)
                && profile.excludedFolders
                   == old(profile.excludedFolders) + latest.excludedFolders
                      - DroppedAmong(b, Lacking(old(profile.excludedFolders), latest.excludedFolders), stopped)
      ensures forall k :: 0 <= k < removeLists.Length ==>
                removeLists[k] == old(removeLists[k])
                                  + ExclusionNotices(latest.parentByExcludedFolder, fileMonitorByFolderName,
                                                     latest.excludedFolders - old(profile.excludedFolders), k)
    {
      ReloadRepoTypes(latest);
      ReloadSites(latest);
      b := BasisOf(s.paths, latest.repoFolderLoadingStatus);
      ok, stopped := ReloadExcludedFolders(latest, s, b);
    }

    method ReloadInclusions(latest: WatcherProfile, s: Surroundings, ghost b: Basis)
      requires Valid() && latest != profile && b == BasisOf(s.paths, latest.repoFolderLoadingStatus)
      requires forall f :: f in s.crawled && s.crawled[f].Some? ==> s.crawled[f].value < removeLists.Length
      modifies this`includePaths, this`fileMonitorByFolderName, profile`includedFolders, profile`parentByExcludedFolder,
               removeLists
      ensures Valid()
      ensures profile.includedFolders == Reconciled(b, old(profile.includedFolders), latest.includedFolders)
      ensures profile.parentByExcludedFolder
              == ReconciledParents(b, old(profile.parentByExcludedFolder), latest.parentByExcludedFolder)
      ensures forall k :: 0 <= k < removeLists.Length ==>
                removeLists[k]
                == old(removeLists[k])
                   + DropNotices(b, old(fileMonitorByFolderName) + Placed(s, latest.includedFolders - old(profile.includedFolders)),
                                 old(profile.includedFolders) + latest.includedFolders - latest.includedFolders, k)
    {
      ReloadIncludedFolders(latest, s);
      ReloadParentByExcludedFolder(latest, s);
    }
  }

  /** A dropped included folder is announced to its own monitor, or to all when none is
      recorded, and to no one else; a retained one to none. */
  lemma DropIsAnnounced(b: Basis, monitors: map<string, nat>, was: set<string>, now: set<string>, k: nat, f: string)
    ensures f in DropNotices(b, monitors, was + now - now, k) <==>
              f in Dropped(b, was, now) && (f in monitors ==> monitors[f] == k)
  {
    var names := Listing(was + now - now);
    ToldExactly(DropRoutes(b, monitors, Elements(names)), names, |names|, k, f);
    assert names[..|names|] == names;
  }

  /** A new exclusion is announced to the monitor of the included folder around it, if
      that is monitored, and to all when there is no such folder. */
  lemma ExclusionIsAnnounced(parents: map<string, string>, monitors: map<string, nat>, folders: set<string>, k: nat, f: string)
    ensures f in ExclusionNotices(parents, monitors, folders, k) <==>
              f in folders && (f in parents ==> parents[f] in monitors && monitors[parents[f]] == k)
  {
    var names := Listing(folders);
    ToldExactly(ExclusionRoutes(parents, monitors, Elements(names)), names, |names|, k, f);
    assert names[..|names|] == names;
  }

  lemma NothingAnnounced(b: Basis, parents: map<string, string>, monitors: map<string, nat>, was: set<string>, now: set<string>, k: nat)
    requires forall f :: f in was && f !in now ==> Retained(b.paths, b.sites, b.status, f)
    requires now <= was
    ensures ExclusionNotices(parents, monitors, now - was, k) == []
    ensures DropNotices(b, monitors, was + now - now, k) == []
  {
    assert now - was == {};
    var names := Listing(was + now - now);
    forall f | f in names
      ensures f !in DropRoutes(b, monitors, Elements(names))
    {}
    ToldNothing(DropRoutes(b, monitors, Elements(names)), names, |names|, k);
  }

  lemma {:induction false} ToldNothing(routes: Routes, names: seq<string>, i: nat, k: nat)
    requires i <= |names| && forall f :: f in names ==> f !in routes
    ensures Told(routes, names, i, k) == []
  {
    if i > 0 {
      ToldNothing(routes, names, i - 1, k);
    }
  }

  /** Two reloads from the same profile come to the same as one: the second announces
      nothing. The excluded folders with a parent stay excluded. */
  method ReloadTwice(watcher: Watcher, latest: WatcherProfile, s: Surroundings) returns (ok: bool, again: bool, ghost b: Basis)
    requires watcher.Valid() && latest.Valid() && latest != watcher.profile
    requires watcher.profile.ParentsExcluded() && latest.ParentsExcluded()
    requires forall f :: f in s.crawled && s.crawled[f].Some? ==> s.crawled[f].value < watcher.removeLists.Length
    modifies watcher, watcher.profile, watcher.removeLists
    ensures ok ==> again && watcher.profile.ParentsExcluded()
    ensures ok ==>
              && b == watcher.BasisOf(s.paths, latest.repoFolderLoadingStatus)
              && watcher.profile.excludedFolders == Reconciled(b, old(watcher.profile.excludedFolders), latest.excludedFolders)
              && watcher.profile.includedFolders == Reconciled(b, old(watcher.profile.includedFolders), latest.includedFolders)
              && watcher.profile.parentByExcludedFolder
                 == ReconciledParents(b, old(watcher.profile.parentByExcludedFolder), latest.parentByExcludedFolder)
  {
    ghost var stopped;
    ok, b, stopped := watcher.ReloadRepoFolderConfig(latest, s);
    again := false;
    if ok {
      ReconciledTwice(b, old(watcher.profile.excludedFolders), latest.excludedFolders);
      ParentsTwice(b, old(watcher.profile.parentByExcludedFolder), latest.parentByExcludedFolder);
      MergedTwice(old(watcher.profile.CurrentSites()), latest.CurrentSites());
      ParentsStayExcluded(b, old(watcher.profile.parentByExcludedFolder), old(watcher.profile.excludedFolders),
                          latest.parentByExcludedFolder, latest.excludedFolders);
      ReconciledTwice(b, old(watcher.profile.includedFolders), latest.includedFolders);
      again := ReloadSettled(watcher, latest, s, b);
    }
  }

  /** A reload from a profile whose folders are all there already, and which lacks only
      retained ones, leaves the sets, the parents and the announcements alone. */
  method ReloadSettled(watcher: Watcher, latest: WatcherProfile, s: Surroundings, ghost b: Basis) returns (ok: bool)
    requires watcher.Valid() && latest.Valid() && latest != watcher.profile
    requires forall f :: f in s.crawled && s.crawled[f].Some? ==> s.crawled[f].value < watcher.removeLists.Length
    requires b == watcher.BasisOf(s.paths, latest.repoFolderLoadingStatus)
    requires WithMerged(b.sites, latest.CurrentSites()) == b.sites
    requires Reconciled(b, watcher.profile.excludedFolders, latest.excludedFolders) == watcher.profile.excludedFolders
    requires Reconciled(b, watcher.profile.includedFolders, latest.includedFolders) == watcher.profile.includedFolders
    requires ReconciledParents(b, watcher.profile.parentByExcludedFolder, latest.parentByExcludedFolder)
             == watcher.profile.parentByExcludedFolder
    modifies watcher, watcher.profile, watcher.removeLists
    ensures ok && watcher.profile.CurrentSites() == old(watcher.profile.CurrentSites())
    ensures watcher.profile.excludedFolders == old(watcher.profile.excludedFolders)
    ensures watcher.profile.includedFolders == old(watcher.profile.includedFolders)
    ensures watcher.profile.parentByExcludedFolder == old(watcher.profile.parentByExcludedFolder)
    ensures forall k :: 0 <= k < watcher.removeLists.Length ==> watcher.removeLists[k] == old(watcher.removeLists[k])
  {
    ghost var excluded, included := watcher.profile.excludedFolders, watcher.profile.includedFolders;
    ghost var monitors := watcher.fileMonitorByFolderName;
    ghost var b', stopped;
    ok, b', stopped := watcher.ReloadRepoFolderConfig(latest, s);
    assert b' == b;
    SettledDrops(b, excluded, latest.excludedFolders);
    SettledDrops(b, included, latest.includedFolders);
    forall k: nat
      ensures ExclusionNotices(latest.parentByExcludedFolder, monitors, latest.excludedFolders - excluded, k) == []
      ensures DropNotices(b, monitors + Placed(s, latest.includedFolders - included),
                          included + latest.includedFolders - latest.includedFolders, k) == []
    {
      NothingAnnounced(b, latest.parentByExcludedFolder, monitors, excluded, latest.excludedFolders, k);
      NothingAnnounced(b, latest.parentByExcludedFolder, monitors + Placed(s, latest.includedFolders - included),
                       included, latest.includedFolders, k);
    }
  }

  lemma SettledDrops(b: Basis, was: set<string>, now: set<string>)
    requires Reconciled(b, was, now) == was
    ensures now <= was && Dropped(b, was, now) == {}
    ensures forall f :: f in was && f !in now ==> Retained(b.paths, b.sites, b.status, f)
  {
    forall f | f in was && f !in now
      ensures Retained(b.paths, b.sites, b.status, f)
    {
      assert f in Reconciled(b, was, now);
    }
  }

  /*** Reloads after a refused one ***/

  /** The refused folders that a reload would want to crawl again. */
  function Obstacles(b: Basis, s: Surroundings, included: set<string>, latestIncluded: set<string>, was: set<string>, now: set<string>): set<string>
  {
    set f | f in Dropped(b, was, now) && Blocked(s, included, latestIncluded, f)
  }

  /** A refused reload has got over one of them at least, and kept what is to be kept. */
  lemma OneObstacleLess(b: Basis, s: Surroundings, included: set<string>, latestIncluded: set<string>,
                        was: set<string>, now: set<string>, stopped: nat, left: set<string>)
    requires StoppedAt(b, s, included, latestIncluded, Lacking(was, now), stopped)
    requires left == was + now - DroppedAmong(b, Lacking(was, now), stopped)
    ensures Obstacles(b, s, included, latestIncluded, left, now) < Obstacles(b, s, included, latestIncluded, was, now)
    ensures Reconciled(b, left, now) == Reconciled(b, was, now)
  {
    var names := Lacking(was, now);
    var f := names[stopped - 1];
    assert f in names;
    assert f in DroppedAmong(b, names, stopped);
    assert f in Obstacles(b, s, included, latestIncluded, was, now);
    assert f !in Obstacles(b, s, included, latestIncluded, left, now);
    forall g | g in DroppedAmong(b, names, stopped)
      ensures g !in now && !Retained(b.paths, b.sites, b.status, g)
    {
      var j :| 0 <= j < stopped && !Retained(b.paths, b.sites, b.status, names[j]) && names[j] == g;
      assert names[j] in names;
    }
  }

  /** The configuration is reloaded again and again until a reload runs through: at most
      as many times fail as there are refused folders, and in the end all sets and the
      parents are what one reload without refusals would have made of them. */
  method ReloadUntilDone(watcher: Watcher, latest: WatcherProfile, s: Surroundings) returns (failures: nat, ghost b: Basis)
    requires watcher.Valid() && latest.Valid() && latest != watcher.profile
    requires forall f :: f in s.crawled && s.crawled[f].Some? ==> s.crawled[f].value < watcher.removeLists.Length
    modifies watcher, watcher.profile, watcher.removeLists
    ensures watcher.Valid() && failures <= |s.refused|
    ensures b == watcher.BasisOf(s.paths, latest.repoFolderLoadingStatus)
    ensures watcher.profile.CurrentSites() == WithMerged(old(watcher.profile.CurrentSites()), latest.CurrentSites())
    ensures watcher.profile.excludedFolders == Reconciled(b, old(watcher.profile.excludedFolders), latest.excludedFolders)
    ensures watcher.profile.includedFolders == Reconciled(b, old(watcher.profile.includedFolders), latest.includedFolders)
    ensures watcher.profile.parentByExcludedFolder
            == ReconciledParents(b, old(watcher.profile.parentByExcludedFolder), latest.parentByExcludedFolder)
  {
    failures := 0;
    ghost var included, excluded, parents := watcher.profile.includedFolders, watcher.profile.excludedFolders,
                                             watcher.profile.parentByExcludedFolder;
    ghost var sites := WithMerged(watcher.profile.CurrentSites(), latest.CurrentSites());
    MergedTwice(watcher.profile.CurrentSites(), latest.CurrentSites());
    b := Basis(s.paths, sites, latest.repoFolderLoadingStatus);
    ghost var obstacles := Obstacles(b, s, included, latest.includedFolders, excluded, latest.excludedFolders);
    SubsetSize(obstacles, s.refused);
    var ok := false;
    while !ok
      invariant watcher.Valid() && latest.Valid()
      invariant b == Basis(s.paths, sites, latest.repoFolderLoadingStatus)
      invariant WithMerged(watcher.profile.CurrentSites(), latest.CurrentSites()) == sites
      invariant failures + |Obstacles(b, s, included, latest.includedFolders, watcher.profile.excludedFolders, latest.excludedFolders)|
                <= |s.refused|
      invariant Reconciled(b, watcher.profile.excludedFolders, latest.excludedFolders) == Reconciled(b, excluded, latest.excludedFolders)
      invariant !ok ==> watcher.profile.includedFolders == included && watcher.profile.parentByExcludedFolder == parents
      invariant ok ==> watcher.profile.CurrentSites() == sites
      invariant ok ==>
                  && watcher.profile.excludedFolders == Reconciled(b, excluded, latest.excludedFolders)
                  && watcher.profile.includedFolders == Reconciled(b, included, latest.includedFolders)
                  && watcher.profile.parentByExcludedFolder == ReconciledParents(b, parents, latest.parentByExcludedFolder)
      decreases if ok then 0 else 1,
                |Obstacles(b, s, included, latest.includedFolders, watcher.profile.excludedFolders, latest.excludedFolders)|
    {
      ghost var was := watcher.profile.excludedFolders;
      ghost var b', stopped;
      ok, b', stopped := watcher.ReloadRepoFolderConfig(latest, s);
      assert b' == b;
      if ok {
        ReconciledTwice(b, was, latest.excludedFolders);
      } else {
        failures := failures + 1;
        OneObstacleLess(b, s, included, latest.includedFolders, was, latest.excludedFolders, stopped, watcher.profile.excludedFolders);
        SubsetSize(
          Obstacles(b, s, included, latest.includedFolders, watcher.profile.excludedFolders, latest.excludedFolders),
          Obstacles(b, s, included, latest.includedFolders, was, latest.excludedFolders));
      }
    }
  }

  /** An input that fails: a folder that is no longer excluded inside a folder still
      included, and that the file system manager refuses. A folder newly included by
      the latest profile is then left out. */
  method RefusedFolderEndsReload(folder: string, sub: string, other: string, p: Path) returns (watcher: Watcher, ok: bool)
    requires FileTrees.FILE_PREFIX <= folder <= sub && FileTrees.FILE_PREFIX <= other && folder != other
    ensures !ok && watcher.profile.includedFolders == {folder}
  {
    var profile := SharedFolders([folder], [sub]);
    var latest := SharedFolders([folder, other], []);
    watcher := new Watcher(profile, 1);
    var s := Surroundings(map[sub := p], {sub}, map[]);
    ghost var b, stopped;
    ok, b, stopped := watcher.ReloadRepoFolderConfig(latest, s);
    assert sub in [sub] && sub in Elements([sub]) && Elements([]) == {};
    assert Elements([folder]) == {folder} && Elements([folder, other]) == {folder, other};
    assert b.sites.sites == map[] && sub in Dropped(b, Elements([sub]), {});
    assert Blocked(s, {folder}, {folder, other}, sub);
  }

  /** A profile of shared folders, the excluded ones all inside the first. */
  method SharedFolders(included: seq<string>, excluded: seq<string>) returns (profile: WatcherProfile)
    requires included != [] && forall f :: f in included + excluded ==> FileTrees.FILE_PREFIX <= f
    ensures fresh(profile) && profile.Valid() && profile.siteByFolders == map[]
    ensures profile.includedFolders == Elements(included) && profile.excludedFolders == Elements(excluded)
  {
    profile := new WatcherProfile();
    assert profile.CurrentSites() == SiteMaps(map[], map[]);
    for i := 0 to |included|
      invariant profile.Valid() && profile.CurrentSites() == SiteMaps(map[], map[])
      invariant profile.includedFolders == Elements(included[..i])
      invariant profile.excludedFolders == if i == 0 then {} else Elements(excluded)
    {
      ElementsStep(included, i);
      assert included[i] in included + excluded && forall f :: f in excluded ==> f in included + excluded;
      profile.CopySharedRepo(included[i], if i == 0 then excluded else []);
      AlreadyConverted(excluded);
    }
    assert included[..|included|] == included;
  }

  lemma AlreadyConverted(names: seq<string>)
    requires forall f :: f in names ==> FileTrees.FILE_PREFIX <= f
    ensures VfsNamesOf(names) == Elements(names)
  {}

  /** The folders at which the removal loop stops. */
  function Stops(b: Basis, s: Surroundings, included: set<string>, latestIncluded: set<string>, folders: set<string>): set<string>
  {
    set f | f in folders && Recrawled(b, included, latestIncluded, f) && f in s.refused
  }

  lemma StopsAmong(b: Basis, s: Surroundings, included: set<string>, latestIncluded: set<string>, was: set<string>, now: set<string>)
    ensures Stops(b, s, included, latestIncluded, was + now - now) == {} <==>
              forall f :: f in Dropped(b, was, now) ==> !Blocked(s, included, latestIncluded, f)
  {
    var stops := Stops(b, s, included, latestIncluded, was + now - now);
    forall f
      ensures f in stops <==> f in Dropped(b, was, now) && Blocked(s, included, latestIncluded, f)
    {}
  }

  /** An unchanged set is reconciled as it is. */
  lemma NothingExcluded(b: Basis, now: set<string>)
    ensures Reconciled(b, now, now) == now && Dropped(b, now, now) == {}
    ensures Listing(now - now) == [] && Listing(now + now - now) == []
    ensures now + now - DroppedAmong(b, [], 0) == now
  {
    assert now + now - now == {};
  }

  /** Crawling it again is refused by the file system manager. */
  predicate Blocked(s: Surroundings, included: set<string>, latestIncluded: set<string>, f: string)
  {
    FileTrees.InFolders(included, f) && FileTrees.InFolders(latestIncluded, f) && f in s.refused
  }

  function ExclusionRoutes(parents: map<string, string>, monitors: map<string, nat>, names: set<string>): Routes
  {
    map f | f in names :: ExclusionRoute(parents, monitors, f)
  }

  function DropRoutes(b: Basis, monitors: map<string, nat>, names: set<string>): Routes
  {
    map f | f in names && !Retained(b.paths, b.sites, b.status, f) :: DropRoute(monitors, f)
  }

  /** The monitors on which a crawl of these folders puts them. */
  function Placed(s: Surroundings, names: set<string>): map<string, nat>
  {
    map f | f in names && f in s.crawled && s.crawled[f].Some? :: s.crawled[f].value
  }

  lemma PlacedStep(monitors: map<string, nat>, s: Surroundings, names: set<string>, f: string)
    ensures monitors + Placed(s, names + {f})
            == if f in s.crawled && s.crawled[f].Some? then (monitors + Placed(s, names))[f := s.crawled[f].value]
               else monitors + Placed(s, names)
  {}

  lemma DroppedMore(b: Basis, done: set<string>, key: string)
    ensures Dropped(b, done + {key}, {})
            == Dropped(b, done, {}) + if Retained(b.paths, b.sites, b.status, key) then {} else {key}
  {}

  /** The monitor of a folder is not forgotten with other folders. */
  lemma RouteOf(b: Basis, monitors: map<string, nat>, names: seq<string>, i: nat, gone: set<string>)
    requires i < |names| && names[i] !in gone
    ensures
      var routes := DropRoutes(b, monitors, Elements(names));
      if Retained(b.paths, b.sites, b.status, names[i]) then names[i] !in routes
      else names[i] in routes && routes[names[i]] == DropRoute(monitors - gone, names[i])
  {
    assert names[i] in Elements(names);
  }

  /** What the turn of name `i` tells the monitors. */
  lemma NextTold(b: Basis, monitors: map<string, nat>, names: seq<string>, i: nat, gone: set<string>)
    requires i < |names| && names[i] !in gone
    ensures
      var routes := DropRoutes(b, monitors, Elements(names));
      forall k: nat ::
        Told(routes, names, i + 1, k)
        == Told(routes, names, i, k)
           + if !Retained(b.paths, b.sites, b.status, names[i]) && Reaches(DropRoute(monitors - gone, names[i]), k)
             then [names[i]] else []
  {
    RouteOf(b, monitors, names, i, gone);
  }

  lemma NotDroppedYet(b: Basis, names: seq<string>, i: nat)
    requires Sorted(names) && i < |names|
    ensures names[i] !in DroppedAmong(b, names, i)
  {
    forall j | 0 <= j < i
      ensures names[j] != names[i]
    {
      BeforeAsymmetric(names[j], names[i]);
    }
  }

  lemma ElementsStep(names: seq<string>, i: nat)
    requires i < |names|
    ensures Elements(names[..i + 1]) == Elements(names[..i]) + {names[i]}
  {
    assert names[..i + 1] == names[..i] + [names[i]];
  }
}
