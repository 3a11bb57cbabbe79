/** What a queued removal comes to: the entries of a folder that has been excluded, or is
    no longer included, are gone once a pass and the removals after it have been made. */
module MonitorRemoval {
  import opened Wrappers
  import opened FileTrees
  import opened MonitorModel
  import opened FileMonitors
  import opened Crawling
  import opened MonitorCompletion
  import opened MonitorAgreement
  import opened MonitorUpkeep
  import opened MonitorOutage
  import opened MonitorReturn

  /** `q` lies in or is the removed folder `a`, and is neither a root entry, nor under an
      unreachable root, nor fails to be probed. A folder is not named like a document. */
  ghost predicate Doomed(env: Env, a: Path, q: Path)
  {
    && a <= q
    && (q in env.world.files && q == a ==> IsFolder(env.world, q))
    && Removable(env, q) && q !in env.world.broken
    && (IsFolder(env.world, q) ==> !Eligible(env.profile.extensions, q))
  }

  /** Folder `a` is excluded, or nothing above it is monitored that could bring it back. */
  ghost predicate Barred(env: Env, s: State, a: Path)
  {
    FolderText(a) in env.profile.excluded || Topmost(a, s)
  }

  /** The create event of `d` brings `q`. */
  ghost predicate Brought(env: Env, d: Path, q: Path)
  {
    d <= q && q in env.world.files && !IsExcluded(env, q)
  }

  /** The entry of `q`, if there is one, waits to be removed, or is still to be visited. */
  ghost predicate Going(env: Env, s: State, q: Path, yet: bool)
  {
    && (q in s.fileMap ==> q in s.deleteStack || (yet && s.fileMap[q].present))
    && (q in s.addStack ==> q !in env.world.files || !Eligible(env.profile.extensions, q))
  }

  predicate Asked(s: State, a: Path)
  {
    exists i :: 0 <= i < |s.removePaths| && s.removePaths[i] == FolderText(a)
  }

  /** The entry of `q` has not come, and its flag is the same. */
  ghost predicate NotBack(q: Path, m: Files, n: Files)
  {
    q in n ==> q in m && n[q].present == m[q].present
  }

  lemma DoomedText(env: Env, a: Path, q: Path)
    requires Doomed(env, a, q) && q in env.world.files
    ensures FolderText(a) <= TestedText(env.world, q)
  {
    if a < q {
      TextInside(a, q);
      assert Text(q) <= TestedText(env.world, q);
      assert FolderText(a) <= TestedText(env.world, q);
    } else {
      assert a == q;
    }
  }

  lemma DoomedExcluded(env: Env, a: Path, q: Path)
    requires Doomed(env, a, q) && q in env.world.files && FolderText(a) in env.profile.excluded
    ensures IsExcluded(env, q)
  {
    DoomedText(env, a, q);
  }

  /** The folder of `q` is itself in the removed path, unless `q` is the excluded folder. */
  lemma FolderAsked(env: Env, s: State, a: Path, p: Path, q: Path)
    requires Asked(s, a) && a < q && IsChild(p, q) && IsFolder(env.world, p)
    ensures InRemovePaths(env, s, p)
  {
    assert a <= p;
    TextGrows(a, p);
  }

  lemma SelfAsked(env: Env, s: State, a: Path, q: Path)
    requires Asked(s, a) && Doomed(env, a, q) && q in env.world.files
    ensures InRemovePaths(env, s, q)
  {
    DoomedText(env, a, q);
  }

  /*** Steps for other files ***/

  lemma CreatedNotBack(env: Env, s: State, d: Path, q: Path) returns (t: State)
    requires !Brought(env, d, q)
    ensures t == FireCreated(env, s, d) && NotBack(q, s.fileMap, t.fileMap)
    ensures t.deleteStack == s.deleteStack && t.addStack == s.addStack && t.removePaths == s.removePaths
  {
    t := FireCreated(env, s, d);
  }

  lemma {:induction false} FireAllGoing(env: Env, s: State, ds: seq<Path>, q: Path, yet: bool) returns (t: State)
    requires Going(env, s, q, yet) && forall d :: d in ds ==> !Brought(env, d, q)
    requires q in ds ==> q !in env.world.files || !Eligible(env.profile.extensions, q)
    ensures t == FireAll(env, s, ds) && Going(env, t, q, yet) && t.removePaths == s.removePaths
    decreases |ds|
  {
    t := s;
    if ds != [] {
      assert ds[0] in ds && forall x :: x in ds[1..] ==> x in ds;
      t := CreatedNotBack(env, s, ds[0], q);
      t := FireAllGoing(env, t.(addStack := t.addStack + [ds[0]]), ds[1..], q, yet);
    }
  }

  /** A folder that is not in the removed path itself announces nothing that brings `q`. */
  lemma NotBrought(env: Env, s: State, a: Path, p: Path, d: Path, q: Path)
    requires Asked(s, a) && Barred(env, s, a) && Doomed(env, a, q) && IsChild(p, d)
    requires p in s.fileMap && IsFolder(env.world, p) && !InRemovePaths(env, s, p)
    ensures !Brought(env, d, q)
  {
    if q in env.world.files && d <= q {
      if FolderText(a) in env.profile.excluded {
        DoomedExcluded(env, a, q);
      } else if a <= p {
        TextGrows(a, p);
      } else {
        Comparable(p, a, q);
      }
    }
  }

  /** Of two paths to the same file one leads through the other. */
  lemma Comparable(p: Path, a: Path, q: Path)
    requires p <= q && a <= q
    ensures a <= p || p < a
  {
    assert forall i :: 0 <= i < |p| ==> p[i] == q[i];
    assert forall i :: 0 <= i < |a| ==> a[i] == q[i];
  }

  lemma NewChildrenGoing(env: Env, s: State, p: Path, a: Path, q: Path, yet: bool) returns (t: State)
    requires WellFormed(env.world) && Doomed(env, a, q) && Going(env, s, q, yet) && Asked(s, a) && Barred(env, s, a)
    requires p in s.fileMap && IsFolder(env.world, p) && !InRemovePaths(env, s, p)
    ensures t == CheckForNewChildren(env, s, p) && Going(env, t, q, yet) && t.removePaths == s.removePaths
  {
    t := s;
    if p in env.world.listings {
      var e := s.fileMap[p];
      var children := if e.children == None && env.world.listings[p] == [] then None else Some(Current(env, p));
      var ds := Missing(env, e.children, p);
      forall d | d in ds
        ensures !Brought(env, d, q) && (d == q ==> a == q)
      {
        assert d in env.world.listings[p];
        NotBrought(env, s, a, p, d, q);
        if d == q && a != q {
          FolderAsked(env, s, a, p, q);
        }
      }
      t := FireAllGoing(env, SetEntry(s, p, e.(children := children)), ds, q, yet);
    }
  }

  lemma DropGoing(env: Env, s: State, p: Path, q: Path, yet: bool) returns (t: State)
    requires p in s.fileMap && (p == q || Going(env, s, q, yet))
    requires q in s.addStack ==> q !in env.world.files || !Eligible(env.profile.extensions, q)
    ensures t == Drop(env, s, p) && Going(env, t, q, yet && p != q) && t.removePaths == s.removePaths
  {
    var n;
    t, n := DropLeaves(env, s, p);
    RemovalFails(env, n, p);
    assert q in t.deleteStack <==> q in s.deleteStack || q == p;
  }

  lemma OtherSelfGoing(env: Env, now: int, s: State, p: Path, q: Path, yet: bool) returns (t: State)
    requires WellFormed(env.world) && Going(env, s, q, yet) && p != q && p in s.fileMap && p in env.world.files
    ensures t == CheckSelf(env, now, s, p) && Going(env, t, q, yet) && t.removePaths == s.removePaths
  {
    if !s.fileMap[p].present {
      var u := SetEntry(s, p, s.fileMap[p].(present := true, timestamp := env.world.files[p].modified));
      if !IsFolder(env.world, p) {
        AloneRegistered(env, u.fileMap, p);
      }
      t := Reappear(env, s, p);
    } else if InRemovePaths(env, s, p) {
      t := DropGoing(env, s, p, q, yet);
    } else {
      t := Refresh(env, now, s, p);
    }
  }

  lemma SelfBarred(env: Env, now: int, s: State, p: Path, a: Path)
    requires Barred(env, s, a) && p in s.fileMap && p in env.world.files
    ensures Barred(env, CheckSelf(env, now, s, p), a)
  {
    if Topmost(a, s) {
      var t := SelfTopmost(env, a, now, s, p);
    }
  }

  lemma OtherCheckGoing(env: Env, now: int, s: State, p: Path, a: Path, q: Path, yet: bool) returns (t: State)
    requires WellFormed(env.world) && Doomed(env, a, q) && Going(env, s, q, yet) && Asked(s, a) && Barred(env, s, a)
    requires p != q && p in s.fileMap
    ensures t == Check(env, now, s, p) && Going(env, t, q, yet) && t.removePaths == s.removePaths
  {
    t := s;
    if p !in env.world.broken {
      if p in env.world.files {
        t := OtherSelfGoing(env, now, s, p, q, yet);
        SelfBarred(env, now, s, p, a);
        if IsFolder(env.world, p) && p in t.fileMap && !InRemovePaths(env, t, p) {
          t := NewChildrenGoing(env, t, p, a, q, yet);
        }
      } else if s.fileMap[p].present && Accessible(env.profile.included, env.world, p) {
        t := DropGoing(env, s, p, q, yet);
      }
    }
  }

  /** Its own check has it dropped. */
  lemma OwnCheckGoing(env: Env, now: int, s: State, a: Path, q: Path) returns (t: State)
    requires Doomed(env, a, q) && Going(env, s, q, true) && Asked(s, a) && q in s.fileMap && s.deleteStack == []
    ensures t == Check(env, now, s, q) && Going(env, t, q, false) && t.removePaths == s.removePaths
  {
    if q in env.world.files {
      SelfAsked(env, s, a, q);
    }
    t := DropGoing(env, s, q, q, true);
  }

  /*** A whole pass ***/

  lemma TurnBarred(env: Env, s: State, v: Visit, a: Path)
    requires WellFormed(env.world) && Barred(env, s, a)
    ensures Barred(env, Turn(env, s, v).s, a)
  {
    if Topmost(a, s) {
      assert Queue(s, []) == s;
      var t := TurnTopmost(a, s, Moment(env, [], v));
    }
  }

  lemma DrainBarred(env: Env, s: State, a: Path)
    requires Barred(env, s, a)
    ensures Barred(env, Drain(env, s).s, a)
  {
    if Topmost(a, s) {
      var t := DrainTopmost(env, a, s);
    }
  }

  lemma {:induction false} DrainGoing(env: Env, s: State, a: Path, q: Path, yet: bool) returns (t: State)
    requires Doomed(env, a, q) && Going(env, s, q, yet) && Drain(env, s).completed
    ensures t == Drain(env, s).s && Going(env, t, q, yet) && t.deleteStack == [] && t.removePaths == s.removePaths
    ensures q in t.fileMap ==> yet
    decreases |s.deleteStack|
  {
    t := s;
    if s.deleteStack != [] {
      var u, x, ok := DrainOne(env, s);
      RemovalFails(env, s.fileMap, x);
      assert s.deleteStack == u.deleteStack + [x];
      t := DrainGoing(env, u, a, q, yet);
    }
  }

  lemma TurnGoing(env: Env, s: State, v: Visit, a: Path, q: Path, yet: bool) returns (t: State)
    requires WellFormed(env.world) && Doomed(env, a, q) && Going(env, s, q, yet) && Asked(s, a) && Barred(env, s, a)
    requires Turn(env, s, v).completed
    ensures t == Turn(env, s, v).s && Going(env, t, q, yet && v.path != q) && t.removePaths == s.removePaths
  {
    t := DrainGoing(env, s, a, q, yet);
    DrainBarred(env, s, a);
    if v.path in t.fileMap {
      if v.path == q {
        t := OwnCheckGoing(env, v.time, t, a, q);
      } else {
        t := OtherCheckGoing(env, v.time, t, v.path, a, q, yet);
      }
    }
  }

  lemma {:induction false} CheckAllGoing(env: Env, s: State, visits: seq<Visit>, a: Path, q: Path, yet: bool) returns (t: State)
    requires WellFormed(env.world) && Doomed(env, a, q) && Going(env, s, q, yet) && Asked(s, a) && Barred(env, s, a)
    requires CheckAll(env, s, visits).completed && (yet ==> q in Names(visits))
    ensures t == CheckAll(env, s, visits).s && Going(env, t, q, false)
    decreases |visits|
  {
    t := s;
    if visits != [] {
      t := TurnGoing(env, s, visits[0], a, q, yet);
      TurnBarred(env, s, visits[0], a);
      assert visits == [visits[0]] + visits[1..];
      t := CheckAllGoing(env, t, visits[1..], a, q, yet && visits[0].path != q);
    }
  }

  lemma {:induction false} AddQueuedGoing(env: Env, s: State, q: Path) returns (t: State)
    requires Going(env, s, q, false)
    ensures t == AddQueued(env, s) && Going(env, t, q, false)
    decreases |s.addStack|
  {
    t := s;
    if s.addStack != [] {
      var last := |s.addStack| - 1;
      var p := s.addStack[last];
      var m := if Eligible(env.profile.extensions, p) then AddFile(env, s.fileMap, p) else s.fileMap;
      assert s.addStack == s.addStack[..last] + [p];
      t := AddQueuedGoing(env, s.(addStack := s.addStack[..last], fileMap := m), q);
    }
  }

  /** After a pass that goes by all names, and the removals it leaves, no entry is left
      of a folder whose removal had been queued, be it because it is excluded or
      because it is no longer included and nothing above it is, and no crawl of the
      pass has brought one back. */
  lemma RemovalTakesEffect(env: Env, s: State, visits: seq<Visit>, a: Path, q: Path) returns (t: State, u: State)
    requires Open(env.world) && Fit(env, s, {}) && FolderText(a) in s.removeListStack && Doomed(env, a, q)
    requires Barred(env, s, a)
    requires q !in s.addStack && (q in s.fileMap ==> q in Names(visits) && s.fileMap[q].present)
    ensures Pass(env, s, visits) == Run(t, true) && Drain(env, t) == Run(u, true)
    ensures q !in u.fileMap
  {
    t := PassFit(env, s, visits, {});
    u := DrainFit(env, t, {});
    var yet := q in s.fileMap;
    var d := DrainGoing(env, s, a, q, yet);
    DrainLeavesQueue(env, s);
    DrainBarred(env, s, a);
    var e := TakeRemovePaths(d);
    AskedOnceTaken(s.removeListStack, a);
    var c := CheckAllGoing(env, e, visits, a, q, yet);
    var b := AddQueuedGoing(env, c, q);
    var z := DrainGoing(env, t, a, q, false);
  }

  lemma AskedOnceTaken(queued: seq<string>, a: Path)
    requires FolderText(a) in queued
    ensures exists i :: 0 <= i < |Reversed(queued)| && Reversed(queued)[i] == FolderText(a)
  {
    var i :| 0 <= i < |queued| && queued[i] == FolderText(a);
    assert Reversed(queued)[|queued| - 1 - i] == FolderText(a);
  }

  /** The folder is announced to the monitor, whose next turn then takes place. */
  method RemoveFolder(m: FileMonitor, w: World, a: Path, visits: seq<Visit>)
    requires Open(w) && Fit(m.Here(w), m.State(), {}) && Barred(m.Here(w), m.State(), a)
    modifies m`fired, m`fileMap, m`deleteStack, m`addStack, m`removeListStack, m`removePaths,
             m.watcher`registeredFolderCount, m.watcher`registeredFileCount, m.watcher`encounteredFileCount
    ensures forall q :: Doomed(old(m.Here(w)), a, q) && q !in old(m.addStack)
                        && (q in old(m.fileMap) ==> q in Names(visits) && old(m.fileMap)[q].present) ==>
                          q !in m.fileMap
  {
    m.QueueAddRemovePath(FolderText(a));
    ghost var env, s := m.Here(w), m.State();
    var completed := m.RunOnce(w, visits);
    var drained := m.DrainDeleteStack(w);
    assert FolderText(a) in s.removeListStack;
    forall q | Doomed(env, a, q) && q !in s.addStack && (q in s.fileMap ==> q in Names(visits) && s.fileMap[q].present)
      ensures q !in m.fileMap
    {
      var t, u := RemovalTakesEffect(env, s, visits, a, q);
    }
  }
}
