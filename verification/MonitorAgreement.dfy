/** A pass over a file system that stands still brings the monitor into agreement
    with it, and a monitor in agreement stays quiet. */
module MonitorAgreement {
  import opened Wrappers
  import opened FileTrees
  import opened MonitorModel
  import opened MonitorCompletion

  /*** What agreement means for one entry ***/

  /** No children set counts as an empty one. */
  predicate ChildrenAgree(env: Env, children: Option<set<Path>>, p: Path)
  {
    p in env.world.listings ==>
      match children
      case None => Current(env, p) == {}
      case Some(recorded) => recorded == Current(env, p)
  }

  /** Flag and time; the time may be behind while the file is younger than `split`. */
  predicate SelfAgrees(env: Env, start: int, e: Entry, p: Path)
  {
    && (e.present <==> p in env.world.files)
    && (p in env.world.files ==>
          e.timestamp == env.world.files[p].modified || start - env.world.files[p].modified < env.split)
  }

  predicate Agrees(env: Env, start: int, e: Entry, p: Path)
  {
    SelfAgrees(env, start, e, p) && ChildrenAgree(env, e.children, p)
  }

  /** Nothing can be said of files whose probe fails, nor of vanished ones whose root
      cannot be reached. */
  predicate Excused(env: Env, p: Path)
  {
    p in env.world.broken || (p !in env.world.files && !Accessible(env.profile.included, env.world, p))
  }

  /** All entries agree but for those still `pending`. */
  ghost predicate Settled(env: Env, start: int, m: Files, pending: set<Path>)
  {
    forall p :: p in m && p !in pending && !Excused(env, p) ==> Agrees(env, start, m[p], p)
  }

  /*** Steps that keep what agrees ***/

  lemma ListedExist(env: Env, p: Path)
    requires WellFormed(env.world) && p in env.world.listings
    ensures Current(env, p) <= env.world.files.Keys
  {
    forall c | c in Current(env, p)
      ensures c in env.world.files
    {
      assert c in env.world.listings[p];
    }
  }

  lemma FreshAgrees(env: Env, start: int, p: Path)
    requires WellFormed(env.world) && p in env.world.files
    ensures Agrees(env, start, Fresh(env, p), p)
  {}

  lemma AddSettled(env: Env, start: int, g: Registry, pending: set<Path>, q: Path) returns (h: Registry)
    requires WellFormed(env.world) && Settled(env, start, g.files, pending)
    ensures h == Add(env, g, q) && Settled(env, start, h.files, pending)
    ensures forall p :: p in g.files ==> p in h.files && h.files[p] == g.files[p]
  {
    h := Add(env, g, q);
    forall p | p in h.files && p !in g.files
      ensures Agrees(env, start, h.files[p], p)
    {
      FreshAgrees(env, start, p);
    }
  }

  lemma RemoveSettled(env: Env, start: int, m: Files, pending: set<Path>, q: Path) returns (n: Files)
    requires WellFormed(env.world) && Settled(env, start, m, pending) && q !in env.world.files
    ensures n == RemoveFile(env, m, q).0 && Settled(env, start, n, pending)
    ensures n.Keys <= m.Keys
  {
    n := RemoveFile(env, m, q).0;
    var without := DetachSettled(env, start, m - {q}, pending, q);
  }

  lemma DetachSettled(env: Env, start: int, m: Files, pending: set<Path>, q: Path) returns (n: Files)
    requires WellFormed(env.world) && Settled(env, start, m, pending) && q !in env.world.files
    ensures n == Detach(m, q).0 && Settled(env, start, n, pending) && n.Keys == m.Keys
  {
    n := Detach(m, q).0;
    if q != [] && q[..|q| - 1] in m && m[q[..|q| - 1]].children.Some? {
      var parent := q[..|q| - 1];
      if parent in env.world.listings {
        ListedExist(env, parent);
        assert Current(env, parent) - {q} == Current(env, parent);
      }
    }
  }

  lemma DeleteSettled(env: Env, start: int, g: Registry, pending: set<Path>, q: Path) returns (h: Registry)
    requires WellFormed(env.world) && Settled(env, start, g.files, pending) && q !in env.world.files
    ensures h == Delete(env, g, q) && Settled(env, start, h.files, pending)
    ensures h.files.Keys <= g.files.Keys
  {
    var n := RemoveSettled(env, start, g.files, pending, q);
    h := Delete(env, g, q);
  }

  lemma CreatedSettled(env: Env, start: int, s: State, pending: set<Path>, q: Path) returns (t: State)
    requires WellFormed(env.world) && Settled(env, start, s.fileMap, pending)
    ensures t == FireCreated(env, s, q) && Settled(env, start, t.fileMap, pending)
    ensures forall p :: p in s.fileMap ==> p in t.fileMap && t.fileMap[p] == s.fileMap[p]
  {
    var h := AddSettled(env, start, RegistryOf(s), pending, q);
    t := FireCreated(env, s, q);
  }

  lemma {:induction false} FireAllSettled(env: Env, start: int, s: State, pending: set<Path>, qs: seq<Path>) returns (t: State)
    requires WellFormed(env.world) && Settled(env, start, s.fileMap, pending)
    ensures t == FireAll(env, s, qs) && Settled(env, start, t.fileMap, pending)
    ensures forall p :: p in s.fileMap ==> p in t.fileMap && t.fileMap[p] == s.fileMap[p]
    decreases |qs|
  {
    if qs == [] {
      t := s;
    } else {
      var u := CreatedSettled(env, start, s, pending, qs[0]);
      t := FireAllSettled(env, start, u.(addStack := u.addStack + [qs[0]]), pending, qs[1..]);
    }
  }

  lemma SetPending(env: Env, start: int, s: State, pending: set<Path>, p: Path, e: Entry) returns (t: State)
    requires Settled(env, start, s.fileMap, pending)
    ensures t == SetEntry(s, p, e) && Settled(env, start, t.fileMap, pending + {p})
  {
    t := SetEntry(s, p, e);
  }

  lemma Finished(env: Env, start: int, m: Files, pending: set<Path>, p: Path)
    requires Settled(env, start, m, pending + {p})
    requires p in m && !Excused(env, p) ==> Agrees(env, start, m[p], p)
    ensures Settled(env, start, m, pending - {p})
  {}

  /*** Checking one file ***/

  lemma SelfSettled(env: Env, start: int, now: int, s: State, pending: set<Path>, p: Path) returns (t: State)
    requires WellFormed(env.world) && Settled(env, start, s.fileMap, pending) && s.removePaths == []
    requires p in s.fileMap && p in env.world.files && start <= now
    ensures t == CheckSelf(env, now, s, p) && Settled(env, start, t.fileMap, pending + {p})
    ensures p in t.fileMap && SelfAgrees(env, start, t.fileMap[p], p)
    ensures t.fileMap[p].children == s.fileMap[p].children
  {
    t := CheckSelf(env, now, s, p);
    if !s.fileMap[p].present {
      var e := s.fileMap[p].(present := true, timestamp := env.world.files[p].modified);
      var u := SetPending(env, start, s, pending, p, e);
      var v := CreatedSettled(env, start, u, pending + {p}, p);
    } else {
      assert !InRemovePaths(env, s, p);
    }
  }

  lemma ChildrenSettled(env: Env, start: int, s: State, pending: set<Path>, p: Path) returns (t: State)
    requires WellFormed(env.world) && Settled(env, start, s.fileMap, pending + {p})
    requires p in s.fileMap && SelfAgrees(env, start, s.fileMap[p], p)
    ensures t == CheckForNewChildren(env, s, p) && Settled(env, start, t.fileMap, pending - {p})
  {
    if p in env.world.listings {
      var e := s.fileMap[p];
      var children := if e.children == None && env.world.listings[p] == [] then None else Some(Current(env, p));
      var u := SetPending(env, start, s, pending + {p}, p, e.(children := children));
      assert pending + {p} + {p} == pending + {p};
      t := FireAllSettled(env, start, u, pending + {p}, Missing(env, e.children, p));
    } else {
      t := s;
    }
    Finished(env, start, t.fileMap, pending, p);
  }

  lemma DropSettled(env: Env, start: int, s: State, pending: set<Path>, p: Path) returns (t: State)
    requires WellFormed(env.world) && Settled(env, start, s.fileMap, pending)
    requires p in s.fileMap && p !in env.world.files && AllGone(env, s.deleteStack)
    ensures t == Drop(env, s, p) && Settled(env, start, t.fileMap, pending - {p})
    ensures AllGone(env, t.deleteStack)
  {
    var e := s.fileMap[p].(present := false);
    var u := SetPending(env, start, s, pending, p, e);
    Finished(env, start, u.fileMap, pending, p);
    var h := DeleteSettled(env, start, RegistryOf(u), pending - {p}, p);
    t := Drop(env, s, p);
  }

  lemma CheckSettled(env: Env, start: int, now: int, s: State, pending: set<Path>, p: Path) returns (t: State)
    requires WellFormed(env.world) && Settled(env, start, s.fileMap, pending) && s.removePaths == []
    requires p in s.fileMap && start <= now && AllGone(env, s.deleteStack)
    ensures t == Check(env, now, s, p) && Settled(env, start, t.fileMap, pending - {p})
    ensures t.removePaths == [] && AllGone(env, t.deleteStack)
  {
    t := Check(env, now, s, p);
    if p in env.world.broken {
      assert Excused(env, p);
    } else if p !in env.world.files {
      if s.fileMap[p].present && Accessible(env.profile.included, env.world, p) {
        t := DropSettled(env, start, s, pending, p);
      }
    } else {
      var u := SelfSettled(env, start, now, s, pending, p);
      StacksAfterSelf(env, now, s, p);
      if IsFolder(env.world, p) {
        var v := ChildrenSettled(env, start, u, pending, p);
        StacksAfterChildren(env, u, p);
      } else {
        assert p !in env.world.listings;
        Finished(env, start, u.fileMap, pending, p);
      }
    }
  }

  lemma StacksAfterSelf(env: Env, now: int, s: State, p: Path)
    requires p in s.fileMap && p in env.world.files && s.removePaths == []
    ensures
      var t := CheckSelf(env, now, s, p);
      t.removePaths == [] && t.deleteStack == s.deleteStack && p in t.fileMap
  {
    assert !InRemovePaths(env, s, p);
  }

  lemma {:induction false} StacksAfterFireAll(env: Env, s: State, qs: seq<Path>)
    ensures
      var t := FireAll(env, s, qs);
      t.removePaths == s.removePaths && t.deleteStack == s.deleteStack
    decreases |qs|
  {
    if qs != [] {
      var t := FireCreated(env, s, qs[0]);
      StacksAfterFireAll(env, t.(addStack := t.addStack + [qs[0]]), qs[1..]);
    }
  }

  lemma StacksAfterChildren(env: Env, s: State, p: Path)
    requires p in s.fileMap
    ensures
      var t := CheckForNewChildren(env, s, p);
      t.removePaths == s.removePaths && t.deleteStack == s.deleteStack
  {
    if p in env.world.listings {
      var e := s.fileMap[p];
      var children := if e.children == None && env.world.listings[p] == [] then None else Some(Current(env, p));
      StacksAfterFireAll(env, SetEntry(s, p, e.(children := children)), Missing(env, e.children, p));
    }
  }

  /*** A whole pass ***/

  lemma {:induction false} DrainSettled(env: Env, start: int, s: State, pending: set<Path>) returns (t: State)
    requires WellFormed(env.world) && Settled(env, start, s.fileMap, pending)
    requires s.removePaths == [] && AllGone(env, s.deleteStack)
    ensures t == Drain(env, s).s && Settled(env, start, t.fileMap, pending)
    ensures t.removePaths == [] && AllGone(env, t.deleteStack) && t.fileMap.Keys <= s.fileMap.Keys
    decreases |s.deleteStack|
  {
    t := s;
    if s.deleteStack != [] {
      var last := |s.deleteStack| - 1;
      var m := RemoveSettled(env, start, s.fileMap, pending, s.deleteStack[last]);
      t := s.(deleteStack := s.deleteStack[..last], fileMap := m);
      if RemoveFile(env, s.fileMap, s.deleteStack[last]).1 {
        t := DrainSettled(env, start, t, pending);
      }
    }
  }

  function Names(visits: seq<Visit>): set<Path>
  {
    set v | v in visits :: v.path
  }

  lemma TurnSettled(env: Env, start: int, s: State, pending: set<Path>, v: Visit) returns (t: State)
    requires WellFormed(env.world) && Settled(env, start, s.fileMap, pending)
    requires s.removePaths == [] && AllGone(env, s.deleteStack) && start <= v.time
    ensures t == Turn(env, s, v).s
    ensures Turn(env, s, v).completed ==> Settled(env, start, t.fileMap, pending - {v.path})
    ensures t.removePaths == [] && AllGone(env, t.deleteStack)
  {
    t := DrainSettled(env, start, s, pending);
    if Drain(env, s).completed && v.path in t.fileMap {
      t := CheckSettled(env, start, v.time, t, pending, v.path);
    }
  }

  lemma {:induction false} CheckAllSettled(env: Env, start: int, s: State, visits: seq<Visit>) returns (t: State)
    requires WellFormed(env.world) && Settled(env, start, s.fileMap, Names(visits))
    requires s.removePaths == [] && AllGone(env, s.deleteStack)
    requires forall i :: 0 <= i < |visits| ==> start <= visits[i].time
    requires CheckAll(env, s, visits).completed
    ensures t == CheckAll(env, s, visits).s && Settled(env, start, t.fileMap, {})
    ensures AllGone(env, t.deleteStack)
    decreases |visits|
  {
    if visits == [] {
      t := s;
    } else {
      var u := TurnSettled(env, start, s, Names(visits), visits[0]);
      assert visits == [visits[0]] + visits[1..];
      assert Names(visits) - {visits[0].path} <= Names(visits[1..]);
      t := CheckAllSettled(env, start, u, visits[1..]);
    }
  }

  lemma {:induction false} AddQueuedSettled(env: Env, start: int, s: State)
    requires WellFormed(env.world) && Settled(env, start, s.fileMap, {})
    ensures Settled(env, start, AddQueued(env, s).fileMap, {})
    ensures AddQueued(env, s).deleteStack == s.deleteStack
    decreases |s.addStack|
  {
    if s.addStack != [] {
      var last := |s.addStack| - 1;
      var p := s.addStack[last];
      var m := if Eligible(env.profile.extensions, p) then AddFile(env, s.fileMap, p) else s.fileMap;
      if p in env.world.files {
        FreshAgrees(env, start, p);
      }
      AddQueuedSettled(env, start, s.(addStack := s.addStack[..last], fileMap := m));
    }
  }

  lemma {:induction false} DrainShrinks(env: Env, s: State) returns (t: State)
    requires Drain(env, s).completed
    ensures t == Drain(env, s).s && t.fileMap.Keys <= s.fileMap.Keys
    ensures t.deleteStack == [] && t.removeListStack == s.removeListStack
    decreases |s.deleteStack|
  {
    t := s;
    if s.deleteStack != [] {
      var last := |s.deleteStack| - 1;
      var (m, ok) := RemoveFile(env, s.fileMap, s.deleteStack[last]);
      t := DrainShrinks(env, s.(deleteStack := s.deleteStack[..last], fileMap := m));
    }
  }

  lemma PassAgrees(env: Env, start: int, s: State, visits: seq<Visit>) returns (t: State)
    requires WellFormed(env.world) && s.removeListStack == []
    requires s.fileMap.Keys <= Names(visits)
    requires forall i :: 0 <= i < |visits| ==> start <= visits[i].time
    requires Pass(env, s, visits).completed
    ensures t == Pass(env, s, visits).s && InAgreement(env, start, t)
  {
    var d := DrainShrinks(env, s);
    var u := TakeRemovePaths(d);
    CheckAllLeavesQueue(env, u, visits);
    var r := CheckAllSettled(env, start, u, visits);
    AddQueuedSettled(env, start, r);
    AddQueuedLeavesQueue(env, r);
    t := AddQueued(env, r);
  }

  /** Every entry, unless its probe fails or it is gone with its root, exists exactly
      when the file does, has the file's time unless that is younger than `split`, and
      records exactly the children of a folder that can be listed. What is left to be
      removed is gone. */
  ghost predicate InAgreement(env: Env, start: int, s: State)
  {
    && (forall p :: p in s.fileMap && !Excused(env, p) ==> Agrees(env, start, s.fileMap[p], p))
    && OnlyGoneQueued(env, s)
  }

  /** A pass over a file system that stands still, with no removal queued, brings the
      map into agreement, whatever else it meets, if no leftover stands in a bare folder. */
  lemma PollAgreement(env: Env, start: int, s: State, visits: seq<Visit>)
    requires WellFormed(env.world) && s.removeListStack == [] && Passable(env, s)
    requires s.fileMap.Keys <= Names(visits)
    requires forall i :: 0 <= i < |visits| ==> start <= visits[i].time
    ensures Pass(env, s, visits).completed && InAgreement(env, start, Pass(env, s, visits).s)
  {
    PassCompletes(env, s);
    var t := PassAgrees(env, start, s, visits);
  }

  /** Without that condition it takes at most as many more passes as there are vanished
      files in the map. */
  lemma EventualAgreement(env: Env, start: int, s: State, tries: seq<seq<Visit>>) returns (k: nat)
    requires WellFormed(env.world) && OnlyGoneQueued(env, s) && |tries| > |Gone(env, s.fileMap)|
    requires forall j :: 0 <= j < |tries| ==> Repeated(env, s, tries[..j]).fileMap.Keys <= Names(tries[j])
    requires forall j, i :: 0 <= j < |tries| && 0 <= i < |tries[j]| ==> start <= tries[j][i].time
    ensures k <= |Gone(env, s.fileMap)| && InAgreement(env, start, Repeated(env, s, tries[..k + 1]))
  {
    k := SomePassCompletes(env, s, tries);
    var t := PassAgrees(env, start, Repeated(env, s, tries[..k]), tries[k]);
    RepeatedOnce(env, s, tries[..k], tries[k]);
    assert tries[..k + 1] == tries[..k] + [tries[k]];
  }

  lemma {:induction false} RepeatedOnce(env: Env, s: State, tries: seq<seq<Visit>>, last: seq<Visit>)
    ensures Repeated(env, s, tries + [last]) == Pass(env, Repeated(env, s, tries), last).s
    decreases |tries|
  {
    if tries == [] {
      assert [last][1..] == [];
    } else {
      RepeatedOnce(env, Pass(env, s, tries[0]).s, tries[1..], last);
      assert (tries + [last])[1..] == tries[1..] + [last];
    }
  }

  /*** Create events ***/

  predicate Distinct(s: seq<Path>)
  {
    forall i, j :: 0 <= i < j < |s| ==> s[i] != s[j]
  }

  lemma {:induction false} WorthyDistinct(env: Env, s: seq<Path>)
    requires Distinct(s)
    ensures Distinct(Worthy(env, s))
  {
    if s != [] {
      WorthyDistinct(env, s[1..]);
      assert s[0] !in s[1..];
    }
  }

  lemma {:induction false} UnknownDistinct(s: seq<Path>, known: set<Path>)
    requires Distinct(s)
    ensures Distinct(Unknown(s, known))
  {
    if s != [] {
      UnknownDistinct(s[1..], known);
      assert s[0] !in s[1..];
    }
  }

  lemma MissingDistinct(env: Env, recorded: Option<set<Path>>, p: Path)
    requires WellFormed(env.world) && p in env.world.listings
    ensures Distinct(Missing(env, recorded, p))
  {
    WorthyDistinct(env, env.world.listings[p]);
    if recorded.Some? {
      UnknownDistinct(Worthy(env, env.world.listings[p]), recorded.value);
    }
  }

  /** In the listing `x` comes before `y`. */
  predicate ListedBefore(listing: seq<Path>, x: Path, y: Path)
  {
    exists a, b :: 0 <= a < b < |listing| && listing[a] == x && listing[b] == y
  }

  /** The elements come in the order of the listing. */
  predicate InOrder(s: seq<Path>, listing: seq<Path>)
  {
    forall i, j :: 0 <= i < j < |s| ==> ListedBefore(listing, s[i], s[j])
  }

  lemma OneMoreInOrder(x: Path, s: seq<Path>, listing: seq<Path>)
    requires InOrder(s, listing) && forall y :: y in s ==> y in listing
    ensures InOrder(s, [x] + listing) && InOrder([x] + s, [x] + listing)
  {
    var more := [x] + listing;
    forall i, j | 0 <= i < j < |s|
      ensures ListedBefore(more, s[i], s[j])
    {
      assert ListedBefore(listing, s[i], s[j]);
      var a, b :| 0 <= a < b < |listing| && listing[a] == s[i] && listing[b] == s[j];
      assert more[a + 1] == s[i] && more[b + 1] == s[j];
    }
    forall j | 0 <= j < |s|
      ensures ListedBefore(more, x, s[j])
    {
      assert s[j] in listing;
      var b :| 0 <= b < |listing| && listing[b] == s[j];
      assert more[0] == x && more[b + 1] == s[j];
    }
  }

  lemma {:induction false} WorthyInOrder(env: Env, s: seq<Path>)
    ensures InOrder(Worthy(env, s), s)
  {
    if s != [] {
      WorthyInOrder(env, s[1..]);
      OneMoreInOrder(s[0], Worthy(env, s[1..]), s[1..]);
      assert s == [s[0]] + s[1..];
    }
  }

  lemma {:induction false} UnknownInOrder(s: seq<Path>, known: set<Path>)
    ensures InOrder(Unknown(s, known), s)
  {
    if s != [] {
      UnknownInOrder(s[1..], known);
      OneMoreInOrder(s[0], Unknown(s[1..], known), s[1..]);
      assert s == [s[0]] + s[1..];
    }
  }

  lemma InOrderTransitive(r: seq<Path>, s: seq<Path>, listing: seq<Path>)
    requires InOrder(r, s) && InOrder(s, listing)
    ensures InOrder(r, listing)
  {
    forall i, j | 0 <= i < j < |r|
      ensures ListedBefore(listing, r[i], r[j])
    {
      var a, b :| 0 <= a < b < |s| && s[a] == r[i] && s[b] == r[j];
      assert ListedBefore(listing, s[a], s[b]);
    }
  }

  /** In the order of the listing where nothing is recorded, else in the reverse of it. */
  ghost predicate FiredInOrder(recorded: Option<set<Path>>, fired: seq<Path>, listing: seq<Path>)
  {
    forall i, j :: 0 <= i < j < |fired| ==>
      if recorded == None then ListedBefore(listing, fired[i], fired[j]) else ListedBefore(listing, fired[j], fired[i])
  }

  lemma MissingInOrder(env: Env, recorded: Option<set<Path>>, p: Path)
    requires p in env.world.listings
    ensures FiredInOrder(recorded, Missing(env, recorded, p), env.world.listings[p])
  {
    var listing := env.world.listings[p];
    var worthy := Worthy(env, listing);
    WorthyInOrder(env, listing);
    if recorded.Some? {
      var unknown := Unknown(worthy, recorded.value);
      UnknownInOrder(worthy, recorded.value);
      InOrderTransitive(unknown, worthy, listing);
      var fired := Reversed(unknown);
      forall i, j | 0 <= i < j < |fired|
        ensures ListedBefore(listing, fired[j], fired[i])
      {
        assert ListedBefore(listing, unknown[|unknown| - 1 - j], unknown[|unknown| - 1 - i]);
      }
    }
  }

  function AllCreated(ps: seq<Path>): (r: seq<Event>)
    ensures |r| == |ps| && forall i :: 0 <= i < |ps| ==> r[i] == Created(ps[i])
  {
    seq(|ps|, i requires 0 <= i < |ps| => Created(ps[i]))
  }

  lemma AllCreatedCons(events: seq<Event>, qs: seq<Path>)
    requires qs != []
    ensures events + [Created(qs[0])] + AllCreated(qs[1..]) == events + AllCreated(qs)
  {
    assert AllCreated(qs) == [Created(qs[0])] + AllCreated(qs[1..]);
  }

  lemma {:induction false} FireAllEvents(env: Env, s: State, qs: seq<Path>)
    ensures FireAll(env, s, qs).events == s.events + AllCreated(qs)
    decreases |qs|
  {
    if qs == [] {
      assert s.events + AllCreated(qs) == s.events;
    } else {
      var t := CreatedEvent(env, s, qs[0]);
      FireAllEvents(env, t.(addStack := t.addStack + [qs[0]]), qs[1..]);
      AllCreatedCons(s.events, qs);
    }
  }

  lemma CreatedEvent(env: Env, s: State, p: Path) returns (t: State)
    ensures t == FireCreated(env, s, p) && t.events == s.events + [Created(p)]
  {
    t := FireCreated(env, s, p);
  }

  /** The children test fires one create event for each current child that is not
      recorded, and nothing else. */
  lemma CreatesAreNewChildren(env: Env, s: State, p: Path) returns (fired: seq<Path>)
    requires WellFormed(env.world) && p in s.fileMap && p in env.world.listings
    ensures CheckForNewChildren(env, s, p).events == s.events + AllCreated(fired)
    ensures Distinct(fired) && FiredInOrder(s.fileMap[p].children, fired, env.world.listings[p])
    ensures Members(fired)
            == match s.fileMap[p].children
               case None => Current(env, p)
               case Some(recorded) => Current(env, p) - recorded
  {
    var e := s.fileMap[p];
    fired := Missing(env, e.children, p);
    MissingDistinct(env, e.children, p);
    MissingInOrder(env, e.children, p);
    var children := if e.children == None && env.world.listings[p] == [] then None else Some(Current(env, p));
    FireAllEvents(env, SetEntry(s, p, e.(children := children)), fired);
  }
}
