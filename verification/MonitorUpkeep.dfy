/** What keeps passes coming to their end: recovery, crawl and passes leave every
    monitored folder of a monitored file with a children set. */
module MonitorUpkeep {
  import opened Wrappers
  import opened FileTrees
  import opened MonitorModel
  import opened Crawling
  import opened MonitorCompletion

  /** Every folder can be listed. */
  ghost predicate Open(w: World)
  {
    && WellFormed(w)
    && (forall q :: IsFolder(w, q) ==> q in w.listings)
  }

  /** Every monitored folder of a monitored file has a children set. */
  ghost predicate Tended(m: Files)
  {
    forall c {:trigger InBare(m, c)} :: c in m ==> !InBare(m, c)
  }

  /** Nothing that the folder lists is to be monitored. */
  predicate Barren(env: Env, x: Path)
    requires x in env.world.listings
  {
    forall c :: c in env.world.listings[x] ==> !Monitorable(env.profile.extensions, env.world, c)
  }

  /** Folder `x` has its children set, or is barren, or late. */
  predicate FurnishedAt(env: Env, m: Files, late: set<Path>, x: Path)
  {
    x in m && x in env.world.listings && m[x].children == None ==> x in late || Barren(env, x)
  }

  ghost predicate Furnished(env: Env, m: Files, late: set<Path>)
  {
    forall x {:trigger FurnishedAt(env, m, late, x)} :: FurnishedAt(env, m, late, x)
  }

  /** What contains the file, if it exists, can be listed. */
  predicate SitedAt(env: Env, c: Path)
  {
    c != [] && c[..|c| - 1] in env.world.files ==> c[..|c| - 1] in env.world.listings
  }

  /** What contains a monitored file is still a folder, if it exists. */
  ghost predicate Sited(env: Env, m: Files)
  {
    forall c {:trigger SitedAt(env, c)} :: c in m ==> SitedAt(env, c)
  }

  /** No new child stands at or above one of the `late` folders. */
  ghost predicate Sheltered(env: Env, m: Files, late: set<Path>)
  {
    forall a, d {:trigger FoundNew(env, m, a, d)} :: FoundNew(env, m, a, d) ==> Apart(d, late)
  }

  predicate Apart(d: Path, late: set<Path>)
  {
    forall x :: x in late ==> !(d <= x)
  }

  /** No folder that can be listed comes to lack its children set. */
  ghost predicate NoNewBare(env: Env, m: Files, n: Files)
  {
    forall x :: x in n && n[x].children == None ==> (x in m && m[x].children == None) || x !in env.world.listings
  }

  ghost predicate FitMap(env: Env, m: Files, late: set<Path>)
  {
    Tended(m) && Furnished(env, m, late) && Sited(env, m) && Sheltered(env, m, late)
  }

  /*** Steps ***/

  lemma FurnishedStill(env: Env, m: Files, n: Files, late: set<Path>)
    requires Furnished(env, m, late) && NoNewBare(env, m, n)
    ensures Furnished(env, n, late)
  {
    forall x
      ensures FurnishedAt(env, n, late, x)
    {
      assert FurnishedAt(env, m, late, x);
    }
  }

  lemma SitedStill(env: Env, m: Files, n: Files)
    requires Sited(env, m) && n.Keys <= m.Keys
    ensures Sited(env, n)
  {
    forall c | c in n
      ensures SitedAt(env, c)
    {
      assert c in m;
    }
  }

  lemma RemovedTended(m: Files, n: Files, q: Path, removable: bool)
    requires Tended(m) && Removed(m, n, q, removable)
    ensures Tended(n)
  {
    forall c | c in n
      ensures !InBare(n, c)
    {
      assert !InBare(m, c);
    }
  }

  lemma RemovedSheltered(env: Env, m: Files, n: Files, q: Path, removable: bool, late: set<Path>)
    requires Sheltered(env, m, late) && Removed(m, n, q, removable)
    requires WellFormed(env.world) && (late == {} || q !in env.world.files)
    ensures Sheltered(env, n, late)
  {
    if late != {} {
      RemovedMilder(env, m, n, q, removable);
      assert forall a, d :: FoundNew(env, n, a, d) ==> FoundNew(env, m, a, d);
    }
  }

  lemma RemovedFit(env: Env, m: Files, n: Files, q: Path, removable: bool, late: set<Path>)
    requires FitMap(env, m, late) && Removed(m, n, q, removable)
    requires WellFormed(env.world) && (late == {} || q !in env.world.files)
    ensures FitMap(env, n, late) && NoNewBare(env, m, n)
  {
    RemovedTended(m, n, q, removable);
    FurnishedStill(env, m, n, late);
    SitedStill(env, m, n);
    RemovedSheltered(env, m, n, q, removable, late);
  }

  lemma SetFit(env: Env, m: Files, p: Path, e: Entry, late: set<Path>) returns (n: Files)
    requires FitMap(env, m, late) && p in m && e.children == m[p].children
    ensures n == m[p := e] && FitMap(env, n, late) && NoNewBare(env, m, n)
  {
    n := m[p := e];
    FurnishedStill(env, m, n, late);
    SitedStill(env, m, n);
    forall c | c in n
      ensures !InBare(n, c)
    {
      assert !InBare(m, c);
    }
    forall a, d | FoundNew(env, n, a, d)
      ensures Apart(d, late)
    {
      assert FoundNew(env, m, a, d);
    }
  }

  lemma ChildrenFit(env: Env, m: Files, p: Path, children: Option<set<Path>>, late: set<Path>) returns (n: Files)
    requires FitMap(env, m, late) && p in m && p in env.world.listings
    requires children == if m[p].children == None && env.world.listings[p] == [] then None else Some(Current(env, p))
    ensures n == m[p := m[p].(children := children)] && FitMap(env, n, late) && NoNewBare(env, m, n)
  {
    n := m[p := m[p].(children := children)];
    FurnishedStill(env, m, n, late);
    SitedStill(env, m, n);
    forall c | c in n
      ensures !InBare(n, c)
    {
      assert !InBare(m, c);
    }
    forall a, d | FoundNew(env, n, a, d)
      ensures Apart(d, late)
    {
      assert FoundNew(env, m, a, d);
    }
  }

  /** Its folder, if monitored, has a children set, and it brings none of `late`. */
  ghost predicate Welcome(env: Env, m: Files, d: Path, late: set<Path>)
  {
    d in env.world.files && !InBare(m, d) && Apart(d, late)
  }

  /** A file that a crawl of `d` reaches below `d` stands in a folder that can be listed. */
  lemma VisitedBelow(env: Env, d: Path, c: Path)
    requires WellFormed(env.world) && d in env.world.files && c in Visited(env, d) && c != d
    ensures c != [] && d <= c[..|c| - 1] && c[..|c| - 1] in env.world.listings
    ensures c in env.world.listings[c[..|c| - 1]]
  {
    var p := c[..|c| - 1];
    assert c[..|c| - 1] in env.world.listings;
    assert IsChild(p, c);
    assert c in env.world.listings[p];
  }

  lemma ArrivalTended(env: Env, m: Files, d: Path, late: set<Path>, c: Path)
    requires Open(env.world) && FitMap(env, m, late) && Welcome(env, m, d, late)
    requires c in Visited(env, d) && Monitorable(env.profile.extensions, env.world, c)
    ensures !InBare(Registered(env, m, Visited(env, d)), c)
  {
    if c == d {
      assert !InBare(m, d);
    } else {
      VisitedBelow(env, d, c);
      assert FurnishedAt(env, m, late, c[..|c| - 1]);
    }
  }

  lemma RegisteredFit(env: Env, m: Files, d: Path, late: set<Path>) returns (n: Files)
    requires Open(env.world) && FitMap(env, m, late) && Welcome(env, m, d, late)
    ensures n == Registered(env, m, Visited(env, d)) && FitMap(env, n, late) && NoNewBare(env, m, n)
  {
    n := Registered(env, m, Visited(env, d));
    FurnishedStill(env, m, n, late);
    forall c | c in n
      ensures !InBare(n, c) && SitedAt(env, c)
    {
      if c in m {
        assert !InBare(m, c) && SitedAt(env, c);
      } else {
        ArrivalTended(env, m, d, late, c);
        assert c != [] ==> Cuts(c, |c| - 1);
      }
    }
    forall a, x | FoundNew(env, n, a, x)
      ensures Apart(x, late)
    {
      assert FoundNew(env, m, a, x);
    }
  }

  /*** States ***/

  /** What waits to be added stands in folders that can be listed and have their set. */
  ghost predicate FitQueue(env: Env, m: Files, queue: seq<Path>)
  {
    forall q :: q in queue ==> !InBare(m, q) && (q != [] ==> q[..|q| - 1] in env.world.listings)
  }

  /** With `late` folders only vanished files may be dropped. */
  ghost predicate Fit(env: Env, s: State, late: set<Path>)
  {
    && FitMap(env, s.fileMap, late) && FitQueue(env, s.fileMap, s.addStack)
    && (late == {} || (s.removePaths == [] && AllGone(env, s.deleteStack)))
  }

  lemma FitStill(env: Env, s: State, t: State, late: set<Path>)
    requires Fit(env, s, late) && FitMap(env, t.fileMap, late) && NoNewBare(env, s.fileMap, t.fileMap)
    requires t.addStack == s.addStack && t.removePaths == s.removePaths
    requires forall q :: q in t.deleteStack ==> q in s.deleteStack || late == {} || q !in env.world.files
    ensures Fit(env, t, late)
  {
    forall q | q in t.addStack
      ensures !InBare(t.fileMap, q)
    {
      assert !InBare(s.fileMap, q);
    }
  }

  lemma CreatedFit(env: Env, s: State, d: Path, late: set<Path>) returns (t: State)
    requires Open(env.world) && Fit(env, s, late) && Welcome(env, s.fileMap, d, late)
    ensures t == FireCreated(env, s, d) && Fit(env, t, late) && Grown(env, s.fileMap, t.fileMap)
    ensures t.addStack == s.addStack && NoNewBare(env, s.fileMap, t.fileMap)
  {
    var n := RegisteredFit(env, s.fileMap, d, late);
    var u := CreatedGrows(env, s, d);
    t := FireCreated(env, s, d);
    FitStill(env, s, t, late);
  }

  /** A child that a check of folder `a` may announce. */
  ghost predicate Announceable(env: Env, a: Path, d: Path, late: set<Path>)
  {
    IsChild(a, d) && d in env.world.files && Apart(d, late)
  }

  lemma FireOneFit(env: Env, s: State, a: Path, d: Path, late: set<Path>) returns (t: State)
    requires Open(env.world) && Fit(env, s, late) && Announceable(env, a, d, late)
    requires a in s.fileMap && a in env.world.listings && s.fileMap[a].children.Some?
    ensures t == FireCreated(env, s, d).(addStack := s.addStack + [d]) && FireCreated(env, s, d).addStack == s.addStack
    ensures Fit(env, t, late) && a in t.fileMap && t.fileMap[a].children.Some?
  {
    assert d[..|d| - 1] == a;
    var u := CreatedFit(env, s, d, late);
    t := u.(addStack := u.addStack + [d]);
  }

  lemma {:induction false} FireAllFit(env: Env, s: State, a: Path, ds: seq<Path>, late: set<Path>) returns (t: State)
    requires Open(env.world) && Fit(env, s, late) && a in s.fileMap && a in env.world.listings
    requires ds != [] ==> s.fileMap[a].children.Some?
    requires forall d :: d in ds ==> Announceable(env, a, d, late)
    ensures t == FireAll(env, s, ds) && Fit(env, t, late)
    decreases |ds|
  {
    t := s;
    if ds != [] {
      assert ds[0] in ds && forall x :: x in ds[1..] ==> x in ds;
      t := FireOneFit(env, s, a, ds[0], late);
      t := FireAllFit(env, t, a, ds[1..], late);
    }
  }

  lemma NewChildrenFit(env: Env, s: State, a: Path, late: set<Path>) returns (t: State)
    requires Open(env.world) && Fit(env, s, late) && a in s.fileMap
    ensures t == CheckForNewChildren(env, s, a) && Fit(env, t, late)
  {
    t := s;
    if a in env.world.listings {
      var e := s.fileMap[a];
      var children := if e.children == None && env.world.listings[a] == [] then None else Some(Current(env, a));
      var n := ChildrenFit(env, s.fileMap, a, children, late);
      var u := s.(fileMap := n);
      FitStill(env, s, u, late);
      var ds := Missing(env, e.children, a);
      forall d | d in ds
        ensures Announceable(env, a, d, late)
      {
        assert d in env.world.listings[a];
        assert FoundNew(env, s.fileMap, a, d);
      }
      t := FireAllFit(env, u, a, ds, late);
    }
  }

  /** The flag is taken back, and the file leaves the map or waits to. */
  lemma DropLeaves(env: Env, s: State, p: Path) returns (t: State, n: Files)
    requires p in s.fileMap
    ensures t == Drop(env, s, p) && n == s.fileMap[p := s.fileMap[p].(present := false)]
    ensures t.fileMap == n || t.fileMap == RemoveFile(env, n, p).0
    ensures t.deleteStack == s.deleteStack + [p] && t.removePaths == s.removePaths && t.addStack == s.addStack
  {
    n := s.fileMap[p := s.fileMap[p].(present := false)];
    t := Drop(env, s, p);
  }

  lemma DropFit(env: Env, s: State, p: Path, late: set<Path>) returns (t: State)
    requires WellFormed(env.world) && Fit(env, s, late) && p in s.fileMap
    requires late == {} || p !in env.world.files
    ensures t == Drop(env, s, p) && Fit(env, t, late)
  {
    var n;
    t, n := DropLeaves(env, s, p);
    var o := SetFit(env, s.fileMap, p, s.fileMap[p].(present := false), late);
    if t.fileMap != n {
      RemovalFails(env, n, p);
      RemovedFit(env, n, t.fileMap, p, Removable(env, p), late);
    }
    FitStill(env, s, t, late);
  }

  lemma ReappearFit(env: Env, s: State, p: Path, late: set<Path>) returns (t: State)
    requires WellFormed(env.world) && Fit(env, s, late) && p in s.fileMap && p in env.world.files
    ensures t == Reappear(env, s, p) && Fit(env, t, late) && p in t.fileMap
  {
    var n := SetFit(env, s.fileMap, p, s.fileMap[p].(present := true, timestamp := env.world.files[p].modified), late);
    if !IsFolder(env.world, p) {
      AloneRegistered(env, n, p);
    }
    t := Reappear(env, s, p);
    FitStill(env, s, t, late);
  }

  lemma RefreshFit(env: Env, now: int, s: State, p: Path, late: set<Path>) returns (t: State)
    requires Fit(env, s, late) && p in s.fileMap && p in env.world.files
    ensures t == Refresh(env, now, s, p) && Fit(env, t, late)
  {
    var n := SetFit(env, s.fileMap, p, s.fileMap[p].(timestamp := env.world.files[p].modified), late);
    t := Refresh(env, now, s, p);
    FitStill(env, s, t, late);
  }

  lemma SelfFit(env: Env, now: int, s: State, p: Path, late: set<Path>) returns (t: State)
    requires WellFormed(env.world) && Fit(env, s, late) && p in s.fileMap && p in env.world.files
    ensures t == CheckSelf(env, now, s, p) && Fit(env, t, late)
  {
    if !s.fileMap[p].present {
      t := ReappearFit(env, s, p, late);
    } else if InRemovePaths(env, s, p) {
      t := DropFit(env, s, p, late);
    } else {
      t := RefreshFit(env, now, s, p, late);
    }
  }

  lemma CheckFit(env: Env, now: int, s: State, p: Path, late: set<Path>) returns (t: State)
    requires Open(env.world) && Fit(env, s, late) && p in s.fileMap
    ensures t == Check(env, now, s, p) && Fit(env, t, late)
  {
    t := s;
    if p !in env.world.broken {
      if p in env.world.files {
        t := SelfFit(env, now, s, p, late);
        if IsFolder(env.world, p) && p in t.fileMap && !InRemovePaths(env, t, p) {
          t := NewChildrenFit(env, t, p, late);
        }
      } else if s.fileMap[p].present && Accessible(env.profile.included, env.world, p) {
        t := DropFit(env, s, p, late);
      }
    }
  }

  /*** Whole passes ***/

  lemma {:induction false} DrainFit(env: Env, s: State, late: set<Path>) returns (t: State)
    requires WellFormed(env.world) && Fit(env, s, late)
    ensures Drain(env, s) == Run(t, true) && Fit(env, t, late)
    decreases |s.deleteStack|
  {
    t := s;
    if s.deleteStack != [] {
      var u, q, ok := DrainOne(env, s);
      RemovalFails(env, s.fileMap, q);
      assert q in s.fileMap ==> !InBare(s.fileMap, q);
      RemovedFit(env, s.fileMap, u.fileMap, q, Removable(env, q), late);
      assert forall x :: x in u.deleteStack ==> x in s.deleteStack;
      FitStill(env, s, u, late);
      t := DrainFit(env, u, late);
    }
  }

  lemma {:induction false} CheckAllFit(env: Env, s: State, visits: seq<Visit>, late: set<Path>) returns (t: State)
    requires Open(env.world) && Fit(env, s, late)
    ensures CheckAll(env, s, visits) == Run(t, true) && Fit(env, t, late)
    decreases |visits|
  {
    t := s;
    if visits != [] {
      var u := DrainFit(env, s, late);
      if visits[0].path in u.fileMap {
        u := CheckFit(env, visits[0].time, u, visits[0].path, late);
      }
      t := CheckAllFit(env, u, visits[1..], late);
    }
  }

  lemma AddFileFit(env: Env, m: Files, q: Path, late: set<Path>) returns (n: Files)
    requires Open(env.world) && FitMap(env, m, late) && FitQueue(env, m, [q])
    ensures n == AddFile(env, m, q) && FitMap(env, n, late) && NoNewBare(env, m, n)
  {
    n := AddFile(env, m, q);
    assert q in [q];
    FurnishedStill(env, m, n, late);
    forall c | c in n
      ensures !InBare(n, c) && SitedAt(env, c)
    {
      if c in m {
        assert !InBare(m, c) && SitedAt(env, c);
      }
    }
    forall a, d | FoundNew(env, n, a, d)
      ensures Apart(d, late)
    {
      assert FoundNew(env, m, a, d);
    }
  }

  lemma AddOneFit(env: Env, s: State, late: set<Path>) returns (t: State)
    requires Open(env.world) && Fit(env, s, late) && s.addStack != []
    ensures t.addStack == s.addStack[..|s.addStack| - 1] && Fit(env, t, late) && AddQueued(env, s) == AddQueued(env, t)
  {
    var last := |s.addStack| - 1;
    var q := s.addStack[last];
    var u := s.(addStack := s.addStack[..last]);
    assert q in s.addStack && forall x :: x in u.addStack ==> x in s.addStack;
    t := u;
    if Eligible(env.profile.extensions, q) {
      var n := AddFileFit(env, s.fileMap, q, late);
      t := u.(fileMap := n);
      FitStill(env, u, t, late);
    }
  }

  lemma {:induction false} AddQueuedFit(env: Env, s: State, late: set<Path>) returns (t: State)
    requires Open(env.world) && Fit(env, s, late)
    ensures t == AddQueued(env, s) && Fit(env, t, late) && t.addStack == []
    decreases |s.addStack|
  {
    t := s;
    if s.addStack != [] {
      t := AddOneFit(env, s, late);
      t := AddQueuedFit(env, t, late);
    }
  }

  /** Where every folder can be listed, a pass from a fit state comes to its end and
      leaves a fit state, whatever removals are queued; while some folders are late,
      if none are. */
  lemma PassFit(env: Env, s: State, visits: seq<Visit>, late: set<Path>) returns (t: State)
    requires Open(env.world) && Fit(env, s, late) && (late == {} || s.removeListStack == [])
    ensures Pass(env, s, visits) == Run(t, true) && Fit(env, t, late) && t.addStack == []
  {
    var d := DrainFit(env, s, late);
    DrainLeavesQueue(env, s);
    var u := CheckAllFit(env, TakeRemovePaths(d), visits, late);
    t := AddQueuedFit(env, u, late);
  }

  /** So the condition for passes to come to their end holds. */
  lemma FitIsPassable(env: Env, s: State, late: set<Path>)
    requires Open(env.world) && Fit(env, s, late) && s.removeListStack == []
    ensures Passable(env, s)
  {
    forall visits
      ensures Pass(env, s, visits).completed
    {
      var t := PassFit(env, s, visits, late);
    }
    PassCompletes(env, s);
  }
}
