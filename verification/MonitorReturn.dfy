/** A monitor in agreement with the files stays quiet; so it does when an unreachable
    root comes back with the files it had. */
module MonitorReturn {
  import opened Wrappers
  import opened FileTrees
  import opened MonitorModel
  import opened MonitorOutage
  import opened MonitorCompletion
  import opened MonitorAgreement

  /** The folder of `p` records `p` if `p` is one of its current children. */
  predicate Recorded(env: Env, p: Path, m: Files)
  {
    p != [] && p[..|p| - 1] in m && p[..|p| - 1] in env.world.listings && p in Current(env, p[..|p| - 1]) ==>
      m[p[..|p| - 1]].children.Some? && p in m[p[..|p| - 1]].children.value
  }

  /** As far as `p` is concerned the map agrees with the files. */
  predicate Steady(env: Env, p: Path, m: Files)
  {
    && (p in m && p !in env.world.broken ==> (m[p].present <==> p in env.world.files))
    && Recorded(env, p, m)
  }

  /** No create or delete event for `p`. */
  ghost predicate Quiet(p: Path, before: seq<Event>, after: seq<Event>)
  {
    before <= after && forall i :: |before| <= i < |after| ==> after[i] != Created(p) && after[i] != Deleted(p)
  }

  ghost predicate Calm(env: Env, p: Path, s: State, t: State)
  {
    && Steady(env, p, t.fileMap)
    && Quiet(p, s.events, t.events)
    && (p in t.deleteStack ==> p in s.deleteStack)
    && (p in s.fileMap && p in env.world.files ==> p in t.fileMap)
    && t.removePaths == s.removePaths
  }

  lemma QuietTransitive(p: Path, a: seq<Event>, b: seq<Event>, c: seq<Event>)
    requires Quiet(p, a, b) && Quiet(p, b, c)
    ensures Quiet(p, a, c)
  {}

  lemma CalmTransitive(env: Env, p: Path, s: State, t: State, u: State)
    requires Calm(env, p, s, t) && Calm(env, p, t, u)
    ensures Calm(env, p, s, u)
  {
    QuietTransitive(p, s.events, t.events, u.events);
  }

  lemma OneQuiet(p: Path, events: seq<Event>, e: Event)
    requires e != Created(p) && e != Deleted(p)
    ensures Quiet(p, events, events + [e])
  {}

  lemma CurrentExist(env: Env, p: Path, q: Path)
    requires WellFormed(env.world) && p in env.world.listings && q in Current(env, p)
    ensures q in env.world.files && IsChild(p, q)
  {
    assert q in env.world.listings[p];
  }

  lemma AddSteady(env: Env, p: Path, g: Registry, q: Path) returns (h: Registry)
    requires Steady(env, p, g.files)
    ensures h == Add(env, g, q) && Steady(env, p, h.files)
  {
    h := Add(env, g, q);
  }

  /** Removing another file, or one that is gone, hides no current child. */
  lemma RemoveSteady(env: Env, p: Path, m: Files, q: Path) returns (n: Files)
    requires WellFormed(env.world) && Steady(env, p, m) && (q == p ==> p !in env.world.files)
    ensures n == RemoveFile(env, m, q).0 && Steady(env, p, n)
    ensures p in m && p in env.world.files ==> p in n
  {
    n := RemoveFile(env, m, q).0;
    if FolderText(q) !in env.profile.included && q in m && Accessible(env.profile.included, env.world, q) {
      n := DetachSteady(env, p, m - {q}, q);
    }
  }

  lemma DetachSteady(env: Env, p: Path, m: Files, q: Path) returns (n: Files)
    requires WellFormed(env.world) && Steady(env, p, m) && (q == p ==> p !in env.world.files)
    ensures n == Detach(m, q).0 && Steady(env, p, n) && n.Keys == m.Keys
  {
    n := Detach(m, q).0;
    if p != [] && p[..|p| - 1] in env.world.listings && p in Current(env, p[..|p| - 1]) {
      CurrentExist(env, p[..|p| - 1], p);
    }
  }

  lemma CreatedCalm(env: Env, p: Path, s: State, q: Path) returns (t: State)
    requires Steady(env, p, s.fileMap) && q != p
    ensures t == FireCreated(env, s, q) && Calm(env, p, s, t)
    ensures forall x :: x in s.fileMap ==> x in t.fileMap && t.fileMap[x] == s.fileMap[x]
  {
    OneQuiet(p, s.events, Created(q));
    var h := AddSteady(env, p, RegistryOf(s), q);
    t := FireCreated(env, s, q);
  }

  lemma DeleteSteady(env: Env, p: Path, g: Registry, q: Path) returns (h: Registry)
    requires WellFormed(env.world) && Steady(env, p, g.files) && q != p
    ensures h == Delete(env, g, q) && Steady(env, p, h.files)
    ensures p in g.files && p in env.world.files ==> p in h.files
  {
    var n := RemoveSteady(env, p, g.files, q);
    h := Delete(env, g, q);
  }

  lemma DeletedCalm(env: Env, p: Path, s: State, q: Path) returns (t: State)
    requires WellFormed(env.world) && Steady(env, p, s.fileMap) && q != p
    ensures t == FireDeleted(env, s, q) && Calm(env, p, s, t)
  {
    OneQuiet(p, s.events, Deleted(q));
    var h := DeleteSteady(env, p, RegistryOf(s), q);
    t := FireDeleted(env, s, q);
  }

  lemma ChangedCalm(env: Env, p: Path, s: State, q: Path) returns (t: State)
    requires Steady(env, p, s.fileMap)
    ensures t == FireChanged(env, s, q) && Calm(env, p, s, t)
  {
    OneQuiet(p, s.events, Changed(q));
    t := FireChanged(env, s, q);
  }

  /** A new flag or time for another file, or a new time for `p`. */
  lemma SetCalm(env: Env, p: Path, s: State, q: Path, e: Entry) returns (t: State)
    requires Steady(env, p, s.fileMap) && q in s.fileMap && e.children == s.fileMap[q].children
    requires q == p ==> e.present == s.fileMap[p].present
    ensures t == SetEntry(s, q, e) && Calm(env, p, s, t)
  {
    t := SetEntry(s, q, e);
  }

  lemma DropCalm(env: Env, p: Path, s: State, q: Path) returns (u: State)
    requires WellFormed(env.world) && Steady(env, p, s.fileMap) && q in s.fileMap && q != p
    ensures u == Drop(env, s, q) && Calm(env, p, s, u)
  {
    var t := SetCalm(env, p, s, q, s.fileMap[q].(present := false));
    u := DeletedCalm(env, p, t, q);
    CalmTransitive(env, p, s, t, u);
    u := u.(deleteStack := u.deleteStack + [q]);
  }

  lemma ReappearCalm(env: Env, p: Path, s: State, q: Path) returns (u: State)
    requires WellFormed(env.world) && Steady(env, p, s.fileMap) && q in s.fileMap && q in env.world.files
    requires !s.fileMap[q].present
    ensures u == Reappear(env, s, q) && Calm(env, p, s, u)
  {
    u := SetCalm(env, p, s, q, s.fileMap[q].(present := true, timestamp := env.world.files[q].modified));
    if !IsFolder(env.world, q) {
      var t := u;
      u := CreatedCalm(env, p, t, q);
      CalmTransitive(env, p, s, t, u);
    }
  }

  lemma RefreshCalm(env: Env, p: Path, now: int, s: State, q: Path) returns (u: State)
    requires Steady(env, p, s.fileMap) && q in s.fileMap && q in env.world.files
    ensures u == Refresh(env, now, s, q) && Calm(env, p, s, u)
  {
    var modified := env.world.files[q].modified;
    u := s;
    if s.fileMap[q].timestamp != modified && now - modified >= env.split {
      u := SetCalm(env, p, s, q, s.fileMap[q].(timestamp := modified));
      if !IsFolder(env.world, q) {
        var t := u;
        u := ChangedCalm(env, p, t, q);
        CalmTransitive(env, p, s, t, u);
      }
    }
  }

  /** None of these paths is to take away the file of that name. */
  predicate Spares(text: string, paths: seq<string>)
  {
    forall i :: 0 <= i < |paths| ==> !(paths[i] <= text)
  }

  lemma SelfCalm(env: Env, p: Path, now: int, s: State, q: Path) returns (u: State)
    requires WellFormed(env.world) && Steady(env, p, s.fileMap) && q in s.fileMap && q in env.world.files
    requires Spares(TestedText(env.world, p), s.removePaths)
    ensures u == CheckSelf(env, now, s, q) && Calm(env, p, s, u)
  {
    if s.fileMap[q].present && InRemovePaths(env, s, q) {
      u := DropCalm(env, p, s, q);
    } else if s.fileMap[q].present {
      u := RefreshCalm(env, p, now, s, q);
    } else {
      u := ReappearCalm(env, p, s, q);
    }
  }

  lemma {:induction false} FireAllCalm(env: Env, p: Path, s: State, qs: seq<Path>) returns (u: State)
    requires Steady(env, p, s.fileMap) && p !in qs
    ensures u == FireAll(env, s, qs) && Calm(env, p, s, u)
    decreases |qs|
  {
    if qs == [] {
      u := s;
    } else {
      var t := CreatedCalm(env, p, s, qs[0]);
      t := t.(addStack := t.addStack + [qs[0]]);
      u := FireAllCalm(env, p, t, qs[1..]);
      CalmTransitive(env, p, s, t, u);
    }
  }

  /** A folder that records `p`, or is not its folder, does not find `p` missing. */
  lemma NotMissing(env: Env, p: Path, m: Files, q: Path)
    requires WellFormed(env.world) && Recorded(env, p, m) && q in m && q in env.world.listings
    ensures p !in Missing(env, m[q].children, q)
  {
    if p in Current(env, q) {
      CurrentExist(env, q, p);
      assert q == p[..|p| - 1];
    }
  }

  lemma ChildrenCalm(env: Env, p: Path, s: State, q: Path) returns (u: State)
    requires WellFormed(env.world) && Steady(env, p, s.fileMap) && q in s.fileMap
    ensures u == CheckForNewChildren(env, s, q) && Calm(env, p, s, u)
  {
    u := s;
    if q in env.world.listings {
      var e := s.fileMap[q];
      NotMissing(env, p, s.fileMap, q);
      var t := ChildrenSet(env, p, s, q);
      u := FireAllCalm(env, p, t, Missing(env, e.children, q));
      CalmTransitive(env, p, s, t, u);
    }
  }

  lemma ChildrenSet(env: Env, p: Path, s: State, q: Path) returns (t: State)
    requires Steady(env, p, s.fileMap) && q in s.fileMap && q in env.world.listings
    ensures
      var children := if s.fileMap[q].children == None && env.world.listings[q] == [] then None else Some(Current(env, q));
      t == SetEntry(s, q, s.fileMap[q].(children := children))
    ensures Calm(env, p, s, t)
  {
    var children := if s.fileMap[q].children == None && env.world.listings[q] == [] then None else Some(Current(env, q));
    t := SetEntry(s, q, s.fileMap[q].(children := children));
  }

  lemma CheckCalm(env: Env, p: Path, now: int, s: State, q: Path) returns (u: State)
    requires WellFormed(env.world) && Steady(env, p, s.fileMap) && q in s.fileMap
    requires Spares(TestedText(env.world, p), s.removePaths)
    ensures u == Check(env, now, s, q) && Calm(env, p, s, u)
  {
    u := Check(env, now, s, q);
    if q !in env.world.broken {
      if q in env.world.files {
        var t := SelfCalm(env, p, now, s, q);
        if IsFolder(env.world, q) && q in t.fileMap && !InRemovePaths(env, t, q) {
          u := ChildrenCalm(env, p, t, q);
          CalmTransitive(env, p, s, t, u);
        } else {
          u := t;
        }
      } else if s.fileMap[q].present && Accessible(env.profile.included, env.world, q) {
        u := DropCalm(env, p, s, q);
      }
    }
  }

  /*** A whole pass ***/

  lemma {:induction false} DrainCalm(env: Env, p: Path, s: State) returns (t: State)
    requires WellFormed(env.world) && Steady(env, p, s.fileMap)
    requires p in s.deleteStack ==> p !in env.world.files
    ensures t == Drain(env, s).s && Calm(env, p, s, t) && t.removeListStack == s.removeListStack
    decreases |s.deleteStack|
  {
    t := s;
    if s.deleteStack != [] {
      var last := |s.deleteStack| - 1;
      var m := RemoveSteady(env, p, s.fileMap, s.deleteStack[last]);
      t := s.(deleteStack := s.deleteStack[..last], fileMap := m);
      if RemoveFile(env, s.fileMap, s.deleteStack[last]).1 {
        t := DrainCalm(env, p, t);
      }
    }
  }

  lemma TurnCalm(env: Env, p: Path, s: State, v: Visit) returns (u: State)
    requires WellFormed(env.world) && Steady(env, p, s.fileMap) && Spares(TestedText(env.world, p), s.removePaths)
    requires p in s.deleteStack ==> p !in env.world.files
    ensures u == Turn(env, s, v).s && Calm(env, p, s, u)
  {
    var t := DrainCalm(env, p, s);
    u := t;
    if Drain(env, s).completed && v.path in t.fileMap {
      u := CheckCalm(env, p, v.time, t, v.path);
      CalmTransitive(env, p, s, t, u);
    }
  }

  lemma {:induction false} CheckAllCalm(env: Env, p: Path, s: State, visits: seq<Visit>) returns (u: State)
    requires WellFormed(env.world) && Steady(env, p, s.fileMap) && Spares(TestedText(env.world, p), s.removePaths)
    requires p in s.deleteStack ==> p !in env.world.files
    ensures u == CheckAll(env, s, visits).s && Calm(env, p, s, u)
    decreases |visits|
  {
    u := s;
    if visits != [] {
      var t := TurnCalm(env, p, s, visits[0]);
      u := t;
      if Turn(env, s, visits[0]).completed {
        u := CheckAllCalm(env, p, t, visits[1..]);
        CalmTransitive(env, p, s, t, u);
      }
    }
  }

  lemma {:induction false} AddQueuedCalm(env: Env, p: Path, s: State) returns (u: State)
    requires Steady(env, p, s.fileMap)
    ensures u == AddQueued(env, s) && Calm(env, p, s, u)
    decreases |s.addStack|
  {
    u := s;
    if s.addStack != [] {
      var last := |s.addStack| - 1;
      var q := s.addStack[last];
      var m := if Eligible(env.profile.extensions, q) then AddFile(env, s.fileMap, q) else s.fileMap;
      u := AddQueuedCalm(env, p, s.(addStack := s.addStack[..last], fileMap := m));
    }
  }

  /** Where the map agrees with the files about `p`, a pass with no removal queued that
      concerns `p` fires neither a create nor a delete event for it. */
  lemma PassCalm(env: Env, p: Path, s: State, visits: seq<Visit>) returns (u: State)
    requires WellFormed(env.world) && Steady(env, p, s.fileMap) && Spares(TestedText(env.world, p), s.removeListStack)
    requires p in s.deleteStack ==> p !in env.world.files
    ensures u == Pass(env, s, visits).s
    ensures Steady(env, p, u.fileMap) && Quiet(p, s.events, u.events)
    ensures p in s.fileMap && p in env.world.files ==> p in u.fileMap
  {
    u := DrainCalm(env, p, s);
    if Drain(env, s).completed {
      var t := TakeRemovePaths(u);
      var c := CheckAllCalm(env, p, t, visits);
      QuietTransitive(p, s.events, u.events, c.events);
      u := c;
      if CheckAll(env, t, visits).completed {
        u := AddQueuedCalm(env, p, c);
        QuietTransitive(p, s.events, c.events, u.events);
      }
    }
  }

  /*** Out and back ***/

  lemma AgreementIsSteady(env: Env, start: int, m: Files, p: Path)
    requires WellFormed(env.world) && !Excused(env, p)
    requires forall q :: q in m && !Excused(env, q) ==> Agrees(env, start, m[q], q)
    ensures Steady(env, p, m)
  {
    if p != [] && p[..|p| - 1] in m && p[..|p| - 1] in env.world.listings {
      assert !Excused(env, p[..|p| - 1]);
    }
  }

  /** Nothing above `p` is monitored or waits to be. */
  ghost predicate Topmost(p: Path, s: State)
  {
    forall a :: a in s.fileMap || a in s.addStack ==> !(a < p)
  }

  /** The folder of `p` is watched through the same root, or `p` is the root itself. */
  ghost predicate FolderToo(rounds: seq<Round>, r: string, p: Path, s: State)
    requires p != []
  {
    Outage(rounds, r, p[..|p| - 1]) || Topmost(p, s)
  }

  /** No removal that concerns the file of that name is queued meanwhile. */
  ghost predicate Undisturbed(text: string, rounds: seq<Round>)
  {
    forall k :: 0 <= k < |rounds| ==>
      Spares(text, rounds[k].queued) && UndisturbedMoments(text, rounds[k].moments)
  }

  ghost predicate UndisturbedMoments(text: string, moments: seq<Moment>)
  {
    forall i :: 0 <= i < |moments| ==> Spares(text, moments[i].queued)
  }

  /*** Nothing comes to be monitored above what is ***/

  lemma AddTopmost(env: Env, p: Path, g: Registry, q: Path) returns (h: Registry)
    requires (forall a :: a in g.files ==> !(a < p)) && !(q < p)
    ensures h == Add(env, g, q) && forall a :: a in h.files ==> !(a < p)
  {
    h := Add(env, g, q);
  }

  lemma CreatedTopmost(env: Env, p: Path, s: State, q: Path) returns (t: State)
    requires Topmost(p, s) && !(q < p)
    ensures t == FireCreated(env, s, q) && Topmost(p, t)
  {
    var h := AddTopmost(env, p, RegistryOf(s), q);
    t := FireCreated(env, s, q);
  }

  lemma {:induction false} FireAllTopmost(env: Env, p: Path, s: State, qs: seq<Path>) returns (t: State)
    requires Topmost(p, s) && forall q :: q in qs ==> !(q < p)
    ensures t == FireAll(env, s, qs) && Topmost(p, t)
    decreases |qs|
  {
    t := s;
    if qs != [] {
      assert qs[0] in qs && forall q :: q in qs[1..] ==> q in qs;
      t := CreatedTopmost(env, p, s, qs[0]);
      t := FireAllTopmost(env, p, t.(addStack := t.addStack + [qs[0]]), qs[1..]);
    }
  }

  lemma ChildrenTopmost(env: Env, p: Path, s: State, q: Path) returns (t: State)
    requires WellFormed(env.world) && Topmost(p, s) && q in s.fileMap
    ensures t == CheckForNewChildren(env, s, q) && Topmost(p, t)
  {
    t := s;
    if q in env.world.listings {
      var u := ChildrenSetTopmost(env, p, s, q);
      var missing := Missing(env, s.fileMap[q].children, q);
      forall c | c in missing
        ensures !(c < p)
      {
        CurrentExist(env, q, c);
      }
      t := FireAllTopmost(env, p, u, missing);
    }
  }

  lemma ChildrenSetTopmost(env: Env, p: Path, s: State, q: Path) returns (t: State)
    requires Topmost(p, s) && q in s.fileMap && q in env.world.listings
    ensures
      var children := if s.fileMap[q].children == None && env.world.listings[q] == [] then None else Some(Current(env, q));
      t == SetEntry(s, q, s.fileMap[q].(children := children))
    ensures Topmost(p, t)
  {
    var children := if s.fileMap[q].children == None && env.world.listings[q] == [] then None else Some(Current(env, q));
    t := SetEntry(s, q, s.fileMap[q].(children := children));
  }

  lemma RemoveTopmost(env: Env, p: Path, m: Files, q: Path) returns (n: Files)
    ensures n == RemoveFile(env, m, q).0 && n.Keys <= m.Keys
  {
    RemovalFails(env, m, q);
    n := RemoveFile(env, m, q).0;
  }

  lemma DropTopmost(env: Env, p: Path, s: State, q: Path) returns (t: State)
    requires Topmost(p, s) && q in s.fileMap
    ensures t == Drop(env, s, q) && Topmost(p, t)
  {
    var e := s.fileMap[q].(present := false);
    var n := RemoveTopmost(env, p, s.fileMap[q := e], q);
    t := Drop(env, s, q);
  }

  lemma SelfTopmost(env: Env, p: Path, now: int, s: State, q: Path) returns (t: State)
    requires Topmost(p, s) && q in s.fileMap && q in env.world.files
    ensures t == CheckSelf(env, now, s, q) && Topmost(p, t)
  {
    if !s.fileMap[q].present {
      var u := SetEntry(s, q, s.fileMap[q].(present := true, timestamp := env.world.files[q].modified));
      var v := CreatedTopmost(env, p, u, q);
      t := Reappear(env, s, q);
    } else if InRemovePaths(env, s, q) {
      t := DropTopmost(env, p, s, q);
    } else {
      t := Refresh(env, now, s, q);
    }
  }

  lemma CheckTopmost(env: Env, p: Path, now: int, s: State, q: Path) returns (t: State)
    requires WellFormed(env.world) && Topmost(p, s) && q in s.fileMap
    ensures t == Check(env, now, s, q) && Topmost(p, t)
  {
    t := s;
    if q !in env.world.broken {
      if q in env.world.files {
        t := SelfTopmost(env, p, now, s, q);
        if IsFolder(env.world, q) && q in t.fileMap && !InRemovePaths(env, t, q) {
          t := ChildrenTopmost(env, p, t, q);
        }
      } else if s.fileMap[q].present && Accessible(env.profile.included, env.world, q) {
        t := DropTopmost(env, p, s, q);
      }
    }
  }

  lemma {:induction false} DrainTopmost(env: Env, p: Path, s: State) returns (t: State)
    requires Topmost(p, s)
    ensures t == Drain(env, s).s && Topmost(p, t)
    decreases |s.deleteStack|
  {
    t := s;
    if s.deleteStack != [] {
      var u, q, ok := DrainOne(env, s);
      var n := RemoveTopmost(env, p, s.fileMap, q);
      t := u;
      if ok {
        t := DrainTopmost(env, p, u);
      }
    }
  }

  lemma TurnTopmost(p: Path, s: State, m: Moment) returns (t: State)
    requires WellFormed(m.env.world) && Topmost(p, s)
    ensures t == TurnAt(s, m).s && Topmost(p, t)
  {
    var d := DrainTopmost(m.env, p, Queue(s, m.queued));
    t := d;
    if Drain(m.env, Queue(s, m.queued)).completed && m.visit.path in d.fileMap {
      t := CheckTopmost(m.env, p, m.visit.time, d, m.visit.path);
    }
  }

  lemma {:induction false} CheckMomentsTopmost(p: Path, s: State, moments: seq<Moment>) returns (t: State)
    requires Topmost(p, s) && forall i :: 0 <= i < |moments| ==> WellFormed(moments[i].env.world)
    ensures t == CheckMoments(s, moments).s && Topmost(p, t)
    decreases |moments|
  {
    t := s;
    if moments != [] {
      t := TurnTopmost(p, s, moments[0]);
      if TurnAt(s, moments[0]).completed {
        t := CheckMomentsTopmost(p, t, moments[1..]);
      }
    }
  }

  lemma {:induction false} AddQueuedTopmost(env: Env, p: Path, s: State) returns (t: State)
    requires Topmost(p, s)
    ensures t == AddQueued(env, s) && Topmost(p, t)
    decreases |s.addStack|
  {
    t := s;
    if s.addStack != [] {
      var last := |s.addStack| - 1;
      var q := s.addStack[last];
      var m := if Eligible(env.profile.extensions, q) then AddFile(env, s.fileMap, q) else s.fileMap;
      assert q in s.addStack && forall x :: x in s.addStack[..last] ==> x in s.addStack;
      t := AddQueuedTopmost(env, p, s.(addStack := s.addStack[..last], fileMap := m));
    }
  }

  ghost predicate WellFormedRound(round: Round)
  {
    && WellFormed(round.first.world) && WellFormed(round.last.world)
    && forall i :: 0 <= i < |round.moments| ==> WellFormed(round.moments[i].env.world)
  }

  lemma RoundTopmost(p: Path, s: State, round: Round) returns (t: State)
    requires WellFormedRound(round) && Topmost(p, s)
    ensures t == RoundPass(s, round).s && Topmost(p, t)
  {
    t := DrainTopmost(round.first, p, Queue(s, round.queued));
    if Drain(round.first, Queue(s, round.queued)).completed {
      var u := TakeRemovePaths(t);
      t := CheckMomentsTopmost(p, u, round.moments);
      if CheckMoments(u, round.moments).completed {
        t := AddQueuedTopmost(round.last, p, t);
      }
    }
  }

  lemma {:induction false} RoundsTopmost(p: Path, s: State, rounds: seq<Round>)
    requires Topmost(p, s) && forall k :: 0 <= k < |rounds| ==> WellFormedRound(rounds[k])
    ensures Topmost(p, Rounds(s, rounds))
    decreases |rounds|
  {
    if rounds != [] {
      var t := RoundTopmost(p, s, rounds[0]);
      RoundsTopmost(p, t, rounds[1..]);
    }
  }

  /*** What is queued for the pass after the outage ***/

  lemma SparesMore(text: string, a: seq<string>, b: seq<string>)
    requires Spares(text, a) && Spares(text, b)
    ensures Spares(text, a + b)
  {}

  lemma {:induction false} CheckMomentsSpare(text: string, s: State, moments: seq<Moment>)
    requires Spares(text, s.removeListStack) && UndisturbedMoments(text, moments)
    ensures Spares(text, CheckMoments(s, moments).s.removeListStack)
    decreases |moments|
  {
    if moments != [] {
      SparesMore(text, s.removeListStack, moments[0].queued);
      TurnLeavesQueue(moments[0].env, Queue(s, moments[0].queued), moments[0].visit);
      CheckMomentsSpare(text, TurnAt(s, moments[0]).s, moments[1..]);
    }
  }

  lemma RoundSpares(text: string, s: State, round: Round) returns (t: State)
    requires Spares(text, s.removeListStack) && Spares(text, round.queued) && UndisturbedMoments(text, round.moments)
    ensures t == RoundPass(s, round).s && Spares(text, t.removeListStack)
  {
    SparesMore(text, s.removeListStack, round.queued);
    DrainLeavesQueue(round.first, Queue(s, round.queued));
    var d := Drain(round.first, Queue(s, round.queued)).s;
    CheckMomentsSpare(text, TakeRemovePaths(d), round.moments);
    AddQueuedLeavesQueue(round.last, CheckMoments(TakeRemovePaths(d), round.moments).s);
    t := RoundPass(s, round).s;
  }

  lemma {:induction false} RoundsSpare(text: string, s: State, rounds: seq<Round>)
    requires Spares(text, s.removeListStack) && Undisturbed(text, rounds)
    ensures Spares(text, Rounds(s, rounds).removeListStack)
    decreases |rounds|
  {
    if rounds != [] {
      var t := RoundSpares(text, s, rounds[0]);
      RoundsSpare(text, t, rounds[1..]);
    }
  }

  /*** Out and back ***/

  lemma AcrossOutage(env: Env, s: State, rounds: seq<Round>, r: string, p: Path) returns (t: State)
    requires Steady(env, p, s.fileMap) && OnlyGoneQueued(env, s) && p != [] && Outage(rounds, r, p)
    requires FolderToo(rounds, r, p, s)
    ensures t == Rounds(s, rounds) && Steady(env, p, t.fileMap) && SameEntry(p, s.fileMap, t.fileMap)
    ensures p in t.deleteStack ==> p !in env.world.files
    ensures Quiet(p, s.events, t.events)
  {
    t := OutageSafety(s, rounds, r, p);
    if Outage(rounds, r, p[..|p| - 1]) {
      var u := OutageSafety(s, rounds, r, p[..|p| - 1]);
    } else {
      RoundsTopmost(p, s, rounds);
      assert p[..|p| - 1] < p;
    }
  }

  /** The map agrees with the files; then for any number of passes the root of `p`
      cannot be reached; then it is back with the files as they were. When it is back
      the entry of `p` is the same. To the end of the pass that follows no create or
      delete event is fired for `p`, and if `p` exists its entry stays, flag and all.
      Any removals may be queued meanwhile but of `p`. */
  lemma OutageAndReturn(env: Env, start: int, s: State, rounds: seq<Round>, r: string, p: Path, last: seq<Visit>)
    returns (back: State, end: State)
    requires WellFormed(env.world) && InAgreement(env, start, s) && !Excused(env, p)
    requires p != [] && Outage(rounds, r, p) && FolderToo(rounds, r, p, s)
    requires Undisturbed(TestedText(env.world, p), rounds)
    ensures back == Rounds(s, rounds) && end == Pass(env, back, last).s
    ensures SameEntry(p, s.fileMap, back.fileMap) && Quiet(p, s.events, end.events)
    ensures p in s.fileMap && p in env.world.files ==> p in end.fileMap
    ensures p in end.fileMap ==> (end.fileMap[p].present <==> p in env.world.files)
  {
    AgreementIsSteady(env, start, s.fileMap, p);
    back := AcrossOutage(env, s, rounds, r, p);
    RoundsSpare(TestedText(env.world, p), s, rounds);
    end := PassCalm(env, p, back, last);
    QuietTransitive(p, s.events, back.events, end.events);
  }

  /** The same from any state from which a pass comes to its end. */
  lemma PollOutageReturn(env: Env, start: int, s: State, first: seq<Visit>, rounds: seq<Round>, r: string, p: Path, last: seq<Visit>)
    returns (agreed: State, back: State, end: State)
    requires WellFormed(env.world) && s.removeListStack == [] && Passable(env, s) && s.fileMap.Keys <= Names(first)
    requires (forall i :: 0 <= i < |first| ==> start <= first[i].time) && !Excused(env, p)
    requires p != [] && Outage(rounds, r, p) && FolderToo(rounds, r, p, s)
    requires Undisturbed(TestedText(env.world, p), rounds)
    ensures agreed == Pass(env, s, first).s && back == Rounds(agreed, rounds) && end == Pass(env, back, last).s
    ensures SameEntry(p, agreed.fileMap, back.fileMap) && Quiet(p, agreed.events, end.events)
    ensures p in agreed.fileMap && p in env.world.files ==> p in end.fileMap
    ensures p in end.fileMap ==> (end.fileMap[p].present <==> p in env.world.files)
  {
    PollAgreement(env, start, s, first);
    PassIsRound(env, s, first);
    agreed := Pass(env, s, first).s;
    if Topmost(p, s) {
      var t := RoundTopmost(p, s, Round([], env, Still(env, first), env));
    }
    back, end := OutageAndReturn(env, start, agreed, rounds, r, p, last);
  }
}
