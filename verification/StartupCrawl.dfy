/** The crawl at startup: every included folder goes whole to one monitor. */
module StartupCrawl {
  import opened Wrappers
  import opened StringOrder
  import opened LoadBalance
  import opened FileTrees
  import opened MonitorModel
  import opened Crawling
  import opened FileMonitors

  /** Which of the configured names stand for something that is there. `resolved` holds
      the names that the file system manager can make a path of. */
  predicate Present(w: World, resolved: map<string, Path>, folder: string)
  {
    folder in resolved && resolved[folder] in w.files
  }

  function TreeOf(env: Env, resolved: map<string, Path>, folder: string): Option<Placement>
  {
    if Present(env.world, resolved, folder) then Some(Placement(env, resolved[folder])) else None
  }

  function TreesOf(env: Env, resolved: map<string, Path>, names: seq<string>): (r: seq<Option<Placement>>)
    ensures |r| == |names|
    ensures forall i :: 0 <= i < |names| ==> r[i] == TreeOf(env, resolved, names[i])
  {
    seq(|names|, i requires 0 <= i < |names| => TreeOf(env, resolved, names[i]))
  }

  /** The present ones among the first `i` names. */
  function Found(w: World, resolved: map<string, Path>, names: seq<string>, i: nat): set<string>
    requires i <= |names|
  {
    set j | 0 <= j < i && Present(w, resolved, names[j]) :: names[j]
  }

  /** The part of the watcher that hands folders to monitors. */
  class Crawler {
    const watcher: Watcher
    const split: int
    var fileMonitors: seq<FileMonitor>
    var fileMonitorByFolderName: map<string, FileMonitor>
    var includePaths: set<string>

    /** initFileMonitor: `n` idle monitors with the configured split time. */
    constructor (watcher: Watcher, n: nat, split: int)
      ensures Valid() && fresh(fileMonitors) && this.watcher == watcher && this.split == split
      ensures |fileMonitors| == n && forall m :: m in fileMonitors ==> m.fileMap == map[]
      ensures fileMonitorByFolderName == map[] && includePaths == {}
    {
      this.watcher, this.split := watcher, split;
      fileMonitors, fileMonitorByFolderName, includePaths := [], map[], {};
      new;
      for i := 0 to n
        invariant |fileMonitors| == i && Valid() && fresh(fileMonitors)
        invariant fileMonitorByFolderName == map[] && includePaths == {}
        invariant forall m :: m in fileMonitors ==> m.fileMap == map[]
      {
        var m := new FileMonitor(watcher, split);
        fileMonitors := fileMonitors + [m];
      }
    }

    ghost predicate Valid()
      reads this`fileMonitors, fileMonitors
    {
      && (forall i, j :: 0 <= i < j < |fileMonitors| ==> fileMonitors[i] != fileMonitors[j])
      && (forall m :: m in fileMonitors ==> m.watcher == watcher && m.split == split)
    }

    /** What the monitors hold and the watcher has counted. */
    ghost predicate Holds(l: Load)
      reads this`fileMonitors, fileMonitors, watcher
    {
      && |l.maps| == |fileMonitors| && (forall i :: 0 <= i < |l.maps| ==> l.maps[i] == fileMonitors[i].fileMap)
      && l.counts == watcher.CurrentCounts()
    }

    ghost function Here(w: World): Env
      reads watcher
    {
      Env(watcher.CurrentProfile(), w, split)
    }

    method SelectFileMonitor(ghost maps: seq<Files>) returns (k: nat)
      requires fileMonitors != []
      requires |maps| == |fileMonitors| && forall i :: 0 <= i < |maps| ==> maps[i] == fileMonitors[i].fileMap
      ensures k == LeastLoaded(maps)
    {
      k := 0;
      for i := 0 to |fileMonitors|
        invariant k < |fileMonitors|
        invariant forall j :: 0 <= j < i ==> |fileMonitors[k].fileMap| <= |fileMonitors[j].fileMap|
        invariant forall j :: 0 <= j < k ==> |fileMonitors[k].fileMap| < |fileMonitors[j].fileMap|
      {
        if |fileMonitors[i].fileMap| < |fileMonitors[k].fileMap| {
          k := i;
        }
      }
      LeastIs(maps, k);
    }

    /** processFile for an included folder. */
    method ProcessRoot(w: World, p: Path, ghost env: Env, ghost now: Load)
      requires Valid() && WellFormed(w) && fileMonitors != [] && p in w.files
      requires env == Here(w) && Holds(now)
      modifies this`fileMonitorByFolderName, fileMonitors`fileMap, watcher`registeredFolderCount, watcher`registeredFileCount,
               watcher`encounteredFileCount
      ensures Valid() && Holds(Place(env, now, p))
      ensures fileMonitorByFolderName == if IsExcluded(env, p) then old(fileMonitorByFolderName)
                                         else Remembered(old(fileMonitorByFolderName), w, p, LeastLoaded(now.maps))
      ensures IsFolder(w, p) && !IsExcluded(env, p) ==>
                && FolderText(p) in fileMonitorByFolderName && fileMonitorByFolderName[FolderText(p)] in fileMonitors
                && (forall q :: q in Visited(env, p) && Monitorable(env.profile.extensions, w, q) ==>
                      q in fileMonitorByFolderName[FolderText(p)].fileMap)
                && forall f :: f != FolderText(p) ==>
                     (f in fileMonitorByFolderName <==> f in old(fileMonitorByFolderName))
                     && (f in fileMonitorByFolderName ==> fileMonitorByFolderName[f] == old(fileMonitorByFolderName[f]))
    {
      var excluded := IsWithinFolders(watcher.excludedFolders, TestedText(w, p));
      if !excluded {
        var k := SelectFileMonitor(now.maps);
        AssignRoot(w, p, k, env, now);
      }
    }

    method AssignRoot(w: World, p: Path, k: nat, ghost env: Env, ghost now: Load)
      requires Valid() && WellFormed(w) && k < |fileMonitors| && p in w.files
      requires env == Here(w) && Holds(now)
      modifies this`fileMonitorByFolderName, fileMonitors`fileMap, watcher`registeredFolderCount, watcher`registeredFileCount,
               watcher`encounteredFileCount
      ensures Valid() && Holds(Assigned(env, now, p, k))
      ensures fileMonitorByFolderName == Remembered(old(fileMonitorByFolderName), w, p, k)
    {
      fileMonitorByFolderName := Remembered(fileMonitorByFolderName, w, p, k);
      Register(w, p, k, env, now);
    }

    /** Which monitor watches an included folder is remembered. */
    function Remembered(m: map<string, FileMonitor>, w: World, p: Path, k: nat): map<string, FileMonitor>
      requires k < |fileMonitors|
      reads this`fileMonitors
    {
      if IsFolder(w, p) then m[FolderText(p) := fileMonitors[k]] else m
    }

    method Register(w: World, p: Path, k: nat, ghost env: Env, ghost now: Load)
      requires Valid() && WellFormed(w) && k < |fileMonitors| && p in w.files
      requires env == Here(w) && Holds(now)
      modifies fileMonitors`fileMap, watcher`registeredFolderCount, watcher`registeredFileCount, watcher`encounteredFileCount
      ensures Valid() && Holds(Assigned(env, now, p, k))
    {
      watcher.ProcessFile(fileMonitors[k], w, p, ADD, true);
    }

    /** Folders that cannot be found stay pending. */
    method CrawlFolder(w: World, resolved: map<string, Path>, folder: string, ghost env: Env, ghost now: Load)
      returns (ghost next: Load)
      requires Valid() && WellFormed(w) && fileMonitors != []
      requires env == Here(w) && Holds(now)
      modifies this`fileMonitorByFolderName, this`includePaths, fileMonitors`fileMap, watcher`registeredFolderCount,
               watcher`registeredFileCount, watcher`encounteredFileCount
      ensures Valid() && Holds(next)
      ensures next == if Present(w, resolved, folder) then Place(env, now, resolved[folder]) else now
      ensures includePaths == old(includePaths) - if Present(w, resolved, folder) then {folder} else {}
    {
      next := now;
      if folder in resolved && resolved[folder] in w.files {
        ProcessRoot(w, resolved[folder], env, now);
        next := Place(env, now, resolved[folder]);
        includePaths := includePaths - {folder};
      }
    }

    /** Each included folder in turn; `loads` records what the monitors hold in between. */
    method Crawl(w: World, resolved: map<string, Path>, ghost start: Load) returns (ghost loads: seq<Load>)
      requires Valid() && WellFormed(w) && fileMonitors != [] && Holds(start)
      modifies this`fileMonitorByFolderName, this`includePaths, fileMonitors`fileMap, watcher`registeredFolderCount,
               watcher`registeredFileCount, watcher`encounteredFileCount
      ensures Valid()
      ensures
        var names := Listing(watcher.includedFolders);
        && CrawlRun(loads, TreesOf(old(Here(w)), resolved, names))
        && loads[0] == start && Holds(loads[|names|])
      ensures includePaths == old(includePaths) + watcher.includedFolders
                              - set f | f in watcher.includedFolders && Present(w, resolved, f)
    {
      includePaths := includePaths + watcher.includedFolders;
      var names := Enumerate(watcher.includedFolders);
      ghost var env := Here(w);
      loads := CrawlNames(w, resolved, names, env, start);
      FoundAll(w, resolved, names, watcher.includedFolders);
    }

    method CrawlNames(w: World, resolved: map<string, Path>, names: seq<string>, ghost env: Env, ghost start: Load)
      returns (ghost loads: seq<Load>)
      requires Valid() && WellFormed(w) && fileMonitors != [] && env == Here(w) && Holds(start)
      modifies this`fileMonitorByFolderName, this`includePaths, fileMonitors`fileMap, watcher`registeredFolderCount,
               watcher`registeredFileCount, watcher`encounteredFileCount
      ensures Valid() && CrawlRun(loads, TreesOf(env, resolved, names))
      ensures loads[0] == start && Holds(loads[|names|])
      ensures includePaths == old(includePaths) - Found(w, resolved, names, |names|)
    {
      ghost var trees := TreesOf(env, resolved, names);
      loads := [start];
      for i := 0 to |names|
        invariant Valid() && CrawlRun(loads, trees[..i]) && loads[0] == start && Holds(loads[i])
        invariant includePaths == old(includePaths) - Found(w, resolved, names, i)
      {
        FoundStep(w, resolved, names, i, old(includePaths));
        ghost var next := CrawlFolder(w, resolved, names[i], env, loads[i]);
        RunStep(loads, env, resolved, names, i, next);
        loads := loads + [next];
      }
      assert trees[..|names|] == trees;
    }
  }

  lemma RunStep(loads: seq<Load>, env: Env, resolved: map<string, Path>, names: seq<string>, i: nat, next: Load)
    requires i < |names| && CrawlRun(loads, TreesOf(env, resolved, names)[..i]) && next.maps != []
    requires next == if Present(env.world, resolved, names[i]) then Place(env, loads[i], resolved[names[i]]) else loads[i]
    ensures CrawlRun(loads + [next], TreesOf(env, resolved, names)[..i + 1])
  {
    var trees, more := TreesOf(env, resolved, names), loads + [next];
    forall k | 0 <= k < i + 1
      ensures more[k + 1] == match trees[..i + 1][k] case None => more[k] case Some(t) => Place(t.env, more[k], t.path)
    {
      if k < i {
        assert trees[..i + 1][k] == trees[..i][k] && more[k + 1] == loads[k + 1];
      }
    }
  }

  lemma FoundAll(w: World, resolved: map<string, Path>, names: seq<string>, folders: set<string>)
    requires names == Listing(folders)
    ensures Found(w, resolved, names, |names|) == set f | f in folders && Present(w, resolved, f)
  {
    assert forall f :: f in folders <==> f in names;
  }

  lemma FoundStep(w: World, resolved: map<string, Path>, names: seq<string>, i: nat, all: set<string>)
    requires i < |names|
    ensures all - Found(w, resolved, names, i + 1)
            == all - Found(w, resolved, names, i) - if Present(w, resolved, names[i]) then {names[i]} else {}
  {}

  /** A crawl into idle monitors leaves them balanced up to the largest tree. */
  lemma CrawlBalances(loads: seq<Load>, env: Env, resolved: map<string, Path>, names: seq<string>, d: nat)
    requires CrawlRun(loads, TreesOf(env, resolved, names)) && forall k :: 0 <= k < |loads[0].maps| ==> loads[0].maps[k] == map[]
    requires forall f :: f in names && Present(env.world, resolved, f) ==> TreeSize(env, resolved[f]) <= d
    ensures Balanced(loads[|names|].maps, d)
  {
    LoadBound(loads, TreesOf(env, resolved, names), d, |names|);
  }

  /*** What a crawl leaves monitored ***/

  /** The files that some monitor holds. */
  ghost predicate Held(l: Load, q: Path)
  {
    exists k :: 0 <= k < |l.maps| && q in l.maps[k]
  }

  lemma PlacedHeld(env: Env, folders: set<Path>, l: Load, p: Path, q: Path)
    requires WellFormed(env.world) && AllPlain(env, folders) && p in env.world.files && l.maps != []
    requires forall x :: IsFolder(env.world, x) ==> x in env.world.listings
    ensures Held(Place(env, l, p), q) <==> Held(l, q) || ToBeFound(env, folders, p, q)
  {
    FoundIsVisited(env, folders, p, q);
    if IsExcluded(env, p) {
      VisitedExcluded(env, p);
    } else {
      var k := LeastLoaded(l.maps);
      var placed := Place(env, l, p);
      RegisteredKeys(env, l.maps[k], Visited(env, p));
      assert placed.maps[k].Keys == Registered(env, l.maps[k], Visited(env, p)).Keys;
      if Held(l, q) {
        var j :| 0 <= j < |l.maps| && q in l.maps[j];
        assert q in placed.maps[j];
      }
      if Held(placed, q) {
        var j :| 0 <= j < |placed.maps| && q in placed.maps[j];
        assert j != k ==> q in l.maps[j];
      }
    }
  }

  lemma LoadNext(loads: seq<Load>, env: Env, resolved: map<string, Path>, names: seq<string>, i: nat)
    requires CrawlRun(loads, TreesOf(env, resolved, names)) && i < |names|
    ensures loads[i].maps != []
    ensures loads[i + 1] == if Present(env.world, resolved, names[i]) then Place(env, loads[i], resolved[names[i]]) else loads[i]
  {
    assert TreesOf(env, resolved, names)[i] == TreeOf(env, resolved, names[i]);
  }

  /** The included folder `name` is there, and the crawl is to find `q` in it. */
  predicate FoundIn(env: Env, folders: set<Path>, resolved: map<string, Path>, name: string, q: Path)
  {
    name in resolved && resolved[name] in env.world.files && ToBeFound(env, folders, resolved[name], q)
  }

  ghost predicate FoundAmong(env: Env, folders: set<Path>, resolved: map<string, Path>, names: seq<string>, n: nat, q: Path)
    requires n <= |names|
  {
    exists i :: 0 <= i < n && FoundIn(env, folders, resolved, names[i], q)
  }

  lemma FoundAmongNext(env: Env, folders: set<Path>, resolved: map<string, Path>, names: seq<string>, n: nat, q: Path)
    requires n < |names|
    ensures FoundAmong(env, folders, resolved, names, n + 1, q)
       <==> FoundAmong(env, folders, resolved, names, n, q) || FoundIn(env, folders, resolved, names[n], q)
  {}

  /** After a crawl over folders that can all be listed the monitors hold what they held
      before and, of every included folder that is there, exactly the folders and eligible
      files with no excluded folder at or above them. */
  lemma {:induction false} CrawlCovers(loads: seq<Load>, env: Env, folders: set<Path>, resolved: map<string, Path>,
                                       names: seq<string>, n: nat, q: Path)
    requires CrawlRun(loads, TreesOf(env, resolved, names)) && n <= |names|
    requires WellFormed(env.world) && AllPlain(env, folders)
    requires forall x :: IsFolder(env.world, x) ==> x in env.world.listings
    ensures Held(loads[n], q) <==> Held(loads[0], q) || FoundAmong(env, folders, resolved, names, n, q)
  {
    if n > 0 {
      var last := n - 1;
      CrawlCovers(loads, env, folders, resolved, names, last, q);
      LoadNext(loads, env, resolved, names, last);
      HeldNext(env, folders, resolved, names[last], loads[last], loads[n], q);
      FoundAmongNext(env, folders, resolved, names, last, q);
    }
  }

  lemma HeldNext(env: Env, folders: set<Path>, resolved: map<string, Path>, name: string, l: Load, next: Load, q: Path)
    requires WellFormed(env.world) && AllPlain(env, folders) && l.maps != []
    requires forall x :: IsFolder(env.world, x) ==> x in env.world.listings
    requires next == if Present(env.world, resolved, name) then Place(env, l, resolved[name]) else l
    ensures Held(next, q) <==> Held(l, q) || FoundIn(env, folders, resolved, name, q)
  {
    if Present(env.world, resolved, name) {
      PlacedHeld(env, folders, l, resolved[name], q);
    }
  }
}
