/** While the root of a monitored file cannot be reached, nothing happens to its entry. */
module MonitorOutage {
  import opened Wrappers
  import opened FileTrees
  import opened MonitorModel

  /** Nothing at or under the root `r` can be seen. */
  ghost predicate Unreachable(w: World, r: string)
  {
    forall q :: q in w.files ==> !(r <= FolderText(q))
  }

  ghost predicate Under(env: Env, r: string, p: Path)
  {
    RootEntry(env.profile.included, p) == Some(r) && Unreachable(env.world, r)
  }

  /** Between two states the entry of `p` is the same, no event was fired for it and
      its removal was not queued. */
  ghost predicate Kept(p: Path, s: State, t: State)
  {
    && (p in s.fileMap <==> p in t.fileMap)
    && (p in s.fileMap ==> t.fileMap[p] == s.fileMap[p])
    && Silent(p, s.events, t.events)
    && (p in t.deleteStack ==> p in s.deleteStack)
  }

  ghost predicate Silent(p: Path, before: seq<Event>, after: seq<Event>)
  {
    before <= after && forall i :: |before| <= i < |after| ==> after[i].path != p
  }

  ghost predicate SameEntry(p: Path, m: Files, n: Files)
  {
    (p in m <==> p in n) && (p in m ==> n[p] == m[p])
  }

  lemma KeptTransitive(p: Path, s: State, t: State, u: State)
    requires Kept(p, s, t) && Kept(p, t, u)
    ensures Kept(p, s, u)
  {}

  /** Neither the file nor anything in it is there to be seen, and none of them
      counts as accessible. */
  lemma NothingUnder(env: Env, r: string, p: Path, q: Path)
    requires Under(env, r, p) && p <= q
    ensures q !in env.world.files && !Accessible(env.profile.included, env.world, q)
  {
    RootInherited(env.profile.included, p, q);
    assert r <= FolderText(q);
  }

  lemma OneEvent(p: Path, events: seq<Event>, e: Event)
    requires e.path != p
    ensures Silent(p, events, events + [e])
  {}

  lemma RemoveKeeps(env: Env, r: string, p: Path, m: Files, q: Path) returns (n: Files)
    requires Under(env, r, p)
    ensures n == RemoveFile(env, m, q).0 && SameEntry(p, m, n)
  {
    n := RemoveFile(env, m, q).0;
    if p <= q {
      NothingUnder(env, r, p, q);
    } else {
      DetachKeeps(p, m - {q}, q);
    }
  }

  lemma DetachKeeps(p: Path, m: Files, q: Path)
    requires !(p <= q)
    ensures SameEntry(p, m, Detach(m, q).0)
  {
    if q != [] {
      assert q[..|q| - 1] <= q;
    }
  }

  lemma AddKeeps(env: Env, r: string, p: Path, g: Registry, q: Path) returns (h: Registry)
    requires Under(env, r, p)
    ensures h == Add(env, g, q) && SameEntry(p, g.files, h.files)
  {
    h := Add(env, g, q);
    NothingUnder(env, r, p, p);
  }

  lemma CreatedKeeps(env: Env, r: string, p: Path, s: State, q: Path) returns (t: State)
    requires Under(env, r, p) && q in env.world.files
    ensures t == FireCreated(env, s, q) && Kept(p, s, t)
  {
    t := FireCreated(env, s, q);
    NothingUnder(env, r, p, p);
    OneEvent(p, s.events, Created(q));
    var h := AddKeeps(env, r, p, RegistryOf(s), q);
  }

  lemma DeleteKeeps(env: Env, r: string, p: Path, g: Registry, q: Path) returns (h: Registry)
    requires Under(env, r, p)
    ensures h == Delete(env, g, q) && SameEntry(p, g.files, h.files)
  {
    var n := RemoveKeeps(env, r, p, g.files, q);
    h := Delete(env, g, q);
  }

  lemma DeletedKeeps(env: Env, r: string, p: Path, s: State, q: Path) returns (t: State)
    requires Under(env, r, p) && q != p
    ensures t == FireDeleted(env, s, q) && Kept(p, s, t)
  {
    OneEvent(p, s.events, Deleted(q));
    var h := DeleteKeeps(env, r, p, RegistryOf(s), q);
    t := FireDeleted(env, s, q);
  }

  lemma SetKeeps(p: Path, s: State, q: Path, e: Entry) returns (t: State)
    requires q != p
    ensures t == SetEntry(s, q, e) && Kept(p, s, t)
  {
    t := SetEntry(s, q, e);
  }

  lemma DropKeeps(env: Env, r: string, p: Path, s: State, q: Path) returns (u: State)
    requires Under(env, r, p) && q in s.fileMap && q != p
    ensures u == Drop(env, s, q) && Kept(p, s, u)
  {
    var t := SetKeeps(p, s, q, s.fileMap[q].(present := false));
    u := DeletedKeeps(env, r, p, t, q);
    KeptTransitive(p, s, t, u);
    u := u.(deleteStack := u.deleteStack + [q]);
  }

  lemma ReappearKeeps(env: Env, r: string, p: Path, s: State, q: Path) returns (u: State)
    requires Under(env, r, p) && q in s.fileMap && q in env.world.files
    ensures u == Reappear(env, s, q) && Kept(p, s, u)
  {
    NothingUnder(env, r, p, p);
    var t := SetKeeps(p, s, q, s.fileMap[q].(present := true, timestamp := env.world.files[q].modified));
    var v := CreatedKeeps(env, r, p, t, q);
    KeptTransitive(p, s, t, v);
    u := Reappear(env, s, q);
  }

  lemma ChangedKeeps(env: Env, p: Path, s: State, q: Path) returns (t: State)
    requires q != p
    ensures t == FireChanged(env, s, q) && Kept(p, s, t)
  {
    OneEvent(p, s.events, Changed(q));
    t := FireChanged(env, s, q);
  }

  lemma RefreshKeeps(env: Env, r: string, p: Path, now: int, s: State, q: Path) returns (u: State)
    requires Under(env, r, p) && q in s.fileMap && q in env.world.files
    ensures u == Refresh(env, now, s, q) && Kept(p, s, u)
  {
    NothingUnder(env, r, p, p);
    var modified := env.world.files[q].modified;
    if s.fileMap[q].timestamp == modified || now - modified < env.split {
      u := s;
    } else {
      u := SetKeeps(p, s, q, s.fileMap[q].(timestamp := modified));
      if !IsFolder(env.world, q) {
        var t := u;
        u := ChangedKeeps(env, p, t, q);
        KeptTransitive(p, s, t, u);
      }
    }
  }

  lemma SelfKeeps(env: Env, r: string, p: Path, now: int, s: State, q: Path) returns (u: State)
    requires Under(env, r, p) && q in s.fileMap && q in env.world.files
    ensures u == CheckSelf(env, now, s, q) && Kept(p, s, u)
  {
    NothingUnder(env, r, p, p);
    if !s.fileMap[q].present {
      u := ReappearKeeps(env, r, p, s, q);
    } else if InRemovePaths(env, s, q) {
      u := DropKeeps(env, r, p, s, q);
    } else {
      u := RefreshKeeps(env, r, p, now, s, q);
    }
  }

  lemma {:induction false} FireAllKeeps(env: Env, r: string, p: Path, s: State, qs: seq<Path>)
    requires Under(env, r, p) && forall q :: q in qs ==> q in env.world.files
    ensures Kept(p, s, FireAll(env, s, qs))
    decreases |qs|
  {
    if qs != [] {
      var t := Fired(env, r, p, s, qs[0]);
      FireAllKeeps(env, r, p, t, qs[1..]);
      KeptTransitive(p, s, t, FireAll(env, t, qs[1..]));
    }
  }

  lemma Fired(env: Env, r: string, p: Path, s: State, q: Path) returns (t: State)
    requires Under(env, r, p) && q in env.world.files
    ensures t == FireCreated(env, s, q).(addStack := FireCreated(env, s, q).addStack + [q])
    ensures Kept(p, s, t)
  {
    t := CreatedKeeps(env, r, p, s, q);
    t := t.(addStack := t.addStack + [q]);
  }

  lemma ChildrenKeep(env: Env, r: string, p: Path, s: State, q: Path) returns (u: State)
    requires WellFormed(env.world) && Under(env, r, p) && q in s.fileMap && q in env.world.files
    ensures u == CheckForNewChildren(env, s, q) && Kept(p, s, u)
  {
    u := CheckForNewChildren(env, s, q);
    NothingUnder(env, r, p, p);
    if q in env.world.listings {
      var e := s.fileMap[q];
      var children := if e.children == None && env.world.listings[q] == [] then None else Some(Current(env, q));
      var t := SetEntry(s, q, e.(children := children));
      FireAllKeeps(env, r, p, t, Missing(env, e.children, q));
    }
  }

  lemma CheckKeeps(env: Env, r: string, p: Path, now: int, s: State, q: Path) returns (c: State)
    requires WellFormed(env.world) && Under(env, r, p) && q in s.fileMap
    ensures c == Check(env, now, s, q) && Kept(p, s, c)
  {
    c := Check(env, now, s, q);
    if q in env.world.files {
      var t := SelfKeeps(env, r, p, now, s, q);
      if q in t.fileMap {
        var u := ChildrenKeep(env, r, p, t, q);
        KeptTransitive(p, s, t, u);
      }
    } else if q == p {
      NothingUnder(env, r, p, p);
    } else {
      var u := DropKeeps(env, r, p, s, q);
    }
  }

  lemma {:induction false} DrainKeeps(env: Env, r: string, p: Path, s: State)
    requires Under(env, r, p)
    ensures Kept(p, s, Drain(env, s).s)
    decreases |s.deleteStack|
  {
    if s.deleteStack != [] {
      var last := |s.deleteStack| - 1;
      var n := RemoveKeeps(env, r, p, s.fileMap, s.deleteStack[last]);
      var (m, ok) := RemoveFile(env, s.fileMap, s.deleteStack[last]);
      var t := s.(deleteStack := s.deleteStack[..last], fileMap := m);
      if ok {
        DrainKeeps(env, r, p, t);
      }
    }
  }

  lemma TurnKeeps(env: Env, r: string, p: Path, s: State, v: Visit)
    requires WellFormed(env.world) && Under(env, r, p)
    ensures Kept(p, s, Turn(env, s, v).s)
  {
    DrainKeeps(env, r, p, s);
    var d := Drain(env, s).s;
    if v.path in d.fileMap {
      var c := CheckKeeps(env, r, p, v.time, d, v.path);
    }
  }

  lemma {:induction false} AddQueuedKeeps(env: Env, r: string, p: Path, s: State)
    requires Under(env, r, p)
    ensures Kept(p, s, AddQueued(env, s))
    decreases |s.addStack|
  {
    if s.addStack != [] {
      NothingUnder(env, r, p, p);
      var last := |s.addStack| - 1;
      var q := s.addStack[last];
      var m := if Eligible(env.profile.extensions, q) then AddFile(env, s.fileMap, q) else s.fileMap;
      AddQueuedKeeps(env, r, p, s.(addStack := s.addStack[..last], fileMap := m));
    }
  }

  /*** Passes during which the world goes on ***/

  /** What the loop meets at one name, and the removals queued by other threads just
      before. */
  datatype Moment = Moment(env: Env, queued: seq<string>, visit: Visit)

  /** A pass: the removals queued before it, the world at its start, at each name and
      at its end. */
  datatype Round = Round(queued: seq<string>, first: Env, moments: seq<Moment>, last: Env)

  function Queue(s: State, paths: seq<string>): State
  {
    s.(removeListStack := s.removeListStack + paths)
  }

  function TurnAt(s: State, m: Moment): Run
  {
    Turn(m.env, Queue(s, m.queued), m.visit)
  }

  function CheckMoments(s: State, moments: seq<Moment>): Run
    decreases |moments|
  {
    if moments == [] then Run(s, true)
    else
      var r := TurnAt(s, moments[0]);
      if r.completed then CheckMoments(r.s, moments[1..]) else r
  }

  function RoundPass(s: State, round: Round): Run
  {
    var d := Drain(round.first, Queue(s, round.queued));
    if !d.completed then d
    else
      var r := CheckMoments(TakeRemovePaths(d.s), round.moments);
      if r.completed then Run(AddQueued(round.last, r.s), true) else r
  }

  /** One pass after the other; one that ends early leaves its state to the next. */
  function Rounds(s: State, rounds: seq<Round>): State
    decreases |rounds|
  {
    if rounds == [] then s else Rounds(RoundPass(s, rounds[0]).s, rounds[1..])
  }

  function Still(env: Env, visits: seq<Visit>): (r: seq<Moment>)
    ensures |r| == |visits|
  {
    seq(|visits|, i requires 0 <= i < |visits| => Moment(env, [], visits[i]))
  }

  lemma {:induction false} CheckStill(env: Env, s: State, visits: seq<Visit>)
    ensures CheckMoments(s, Still(env, visits)) == CheckAll(env, s, visits)
    decreases |visits|
  {
    if visits != [] {
      assert Queue(s, []) == s;
      assert Still(env, visits)[1..] == Still(env, visits[1..]);
      CheckStill(env, Turn(env, s, visits[0]).s, visits[1..]);
    }
  }

  /** A pass over a file system that stands still is a special case. */
  lemma PassIsRound(env: Env, s: State, visits: seq<Visit>)
    ensures RoundPass(s, Round([], env, Still(env, visits), env)) == Pass(env, s, visits)
  {
    assert Queue(s, []) == s;
    var d := Drain(env, s);
    CheckStill(env, TakeRemovePaths(d.s), visits);
  }

  /*** Whole runs ***/

  ghost predicate Dark(env: Env, r: string, p: Path)
  {
    WellFormed(env.world) && Under(env, r, p)
  }

  /** The root of `p` cannot be reached throughout. */
  ghost predicate Outage(rounds: seq<Round>, r: string, p: Path)
  {
    forall k :: 0 <= k < |rounds| ==>
      && Dark(rounds[k].first, r, p) && Dark(rounds[k].last, r, p)
      && DarkMoments(rounds[k].moments, r, p)
  }

  ghost predicate DarkMoments(moments: seq<Moment>, r: string, p: Path)
  {
    forall i :: 0 <= i < |moments| ==> Dark(moments[i].env, r, p)
  }

  lemma {:induction false} CheckMomentsKeep(r: string, p: Path, s: State, moments: seq<Moment>)
    requires DarkMoments(moments, r, p)
    ensures Kept(p, s, CheckMoments(s, moments).s)
    decreases |moments|
  {
    if moments != [] {
      TurnKeeps(moments[0].env, r, p, Queue(s, moments[0].queued), moments[0].visit);
      var t := TurnAt(s, moments[0]).s;
      CheckMomentsKeep(r, p, t, moments[1..]);
    }
  }

  lemma RoundKeeps(r: string, p: Path, s: State, round: Round)
    requires Outage([round], r, p)
    ensures Kept(p, s, RoundPass(s, round).s)
  {
    assert [round][0] == round;
    DrainKeeps(round.first, r, p, Queue(s, round.queued));
    var d := Drain(round.first, Queue(s, round.queued)).s;
    CheckMomentsKeep(r, p, TakeRemovePaths(d), round.moments);
    var c := CheckMoments(TakeRemovePaths(d), round.moments).s;
    AddQueuedKeeps(round.last, r, p, c);
  }

  /** Over any number of passes through which the root of `p` stays unreachable, in a
      world that may be another at every name, with whatever removals are queued
      meanwhile, the entry of `p` keeps its flag, time and children, and no event is
      fired or removal queued for `p`. */
  lemma {:induction false} OutageSafety(s: State, rounds: seq<Round>, r: string, p: Path) returns (t: State)
    requires Outage(rounds, r, p)
    ensures t == Rounds(s, rounds) && Kept(p, s, t)
    decreases |rounds|
  {
    t := s;
    if rounds != [] {
      RoundKeeps(r, p, s, rounds[0]);
      t := OutageSafety(RoundPass(s, rounds[0]).s, rounds[1..], r, p);
    }
  }
}
