/** Which events a pass of the monitor records, told file by file from the entries at
    its start. */
module MonitorEvents {
  import opened Wrappers
  import opened FileTrees
  import opened MonitorModel
  import opened MonitorCompletion
  import opened MonitorAgreement

  /*** What calls for an event ***/

  /** The shortest of the included folders that start the file's name exists, if there
      is one. */
  ghost predicate RootThere(env: Env, p: Path)
  {
    forall r :: r in env.profile.included && r <= FolderText(p) && Shortest(env.profile.included, r, p) ==>
      exists q :: q in env.world.files && FolderText(q) == r
  }

  predicate Shortest(included: set<string>, r: string, p: Path)
  {
    forall g :: g in included && g <= FolderText(p) ==> |r| <= |g|
  }

  predicate There(w: World, p: Path)
  {
    p in w.files && p !in w.broken
  }

  /** The file's name, with a slash if it is a folder, begins with a removed path. */
  predicate Inside(w: World, removed: seq<string>, p: Path)
  {
    exists i :: 0 <= i < |removed| && removed[i] <= Text(p) + if p in w.files && w.files[p].folder then "/" else ""
  }

  /** The file has vanished under a root that is there, or its folder is to be removed. */
  ghost predicate IsGone(env: Env, removed: seq<string>, e: Entry, p: Path)
  {
    && e.present && p !in env.world.broken
    && if p in env.world.files then Inside(env.world, removed, p) else RootThere(env, p)
  }

  /** The file has another time than recorded and has not been written to for `split`. */
  predicate IsChanged(env: Env, removed: seq<string>, e: Entry, now: int, p: Path)
  {
    && e.present && There(env.world, p) && !env.world.files[p].folder && !Inside(env.world, removed, p)
    && e.timestamp != env.world.files[p].modified && now - env.world.files[p].modified >= env.split
  }

  /** The file was missing and is there. */
  predicate IsBack(env: Env, e: Entry, p: Path)
  {
    !e.present && There(env.world, p) && !env.world.files[p].folder
  }

  /** The one event, if any, that a check of `p` records for `p` itself. */
  ghost predicate OwnEvent(env: Env, removed: seq<string>, e: Entry, now: int, p: Path, own: seq<Event>)
  {
    && (own == [Deleted(p)] <==> IsGone(env, removed, e, p))
    && (own == [Changed(p)] <==> IsChanged(env, removed, e, now, p))
    && (own == [Created(p)] <==> IsBack(env, e, p))
    && (own == [] || own == [Deleted(p)] || own == [Changed(p)] || own == [Created(p)])
  }

  /** Whether a check of folder `p` records that the child `c` is new. */
  predicate NewChild(env: Env, removed: seq<string>, e: Entry, p: Path, c: Path)
  {
    && There(env.world, p) && env.world.files[p].folder && !Inside(env.world, removed, p)
    && p in env.world.listings && c in env.world.listings[p]
    && ((c in env.world.files && env.world.files[c].folder) || Eligible(env.profile.extensions, c))
    && (e.children == None || c !in e.children.value)
  }

  /** The new children, once each, in the order of the listing if none are recorded, and
      else in the reverse of it. */
  ghost predicate NewChildren(env: Env, removed: seq<string>, e: Entry, p: Path, children: seq<Path>)
  {
    && Distinct(children) && (forall c :: c in children <==> NewChild(env, removed, e, p, c))
    && (children != [] ==> p in env.world.listings && FiredInOrder(e.children, children, env.world.listings[p]))
  }

  /** A file counts as accessible exactly if its root is there. */
  lemma AccessibleMeaning(env: Env, p: Path)
    ensures Accessible(env.profile.included, env.world, p) <==> RootThere(env, p)
  {
    var included := env.profile.included;
    match RootEntry(included, p)
    case None =>
    case Some(r) =>
      assert Shortest(included, r, p);
      forall g | g in included && g <= FolderText(p) && Shortest(included, g, p)
        ensures g == r
      {
        assert |g| == |r|;
      }
  }

  lemma InsideMeaning(env: Env, s: State, p: Path)
    ensures InRemovePaths(env, s, p) <==> Inside(env.world, s.removePaths, p)
  {
    assert TestedText(env.world, p) == Text(p) + if p in env.world.files && env.world.files[p].folder then "/" else "";
  }

  /** What the listener leaves alone: a file whose name begins with "~$", and a deletion
      while the root is not there. */
  lemma ListenerIgnores(env: Env, s: State, p: Path)
    requires p != []
    ensures "~$" <= p[|p| - 1] ==>
              && FireCreated(env, s, p) == s.(events := s.events + [Created(p)])
              && FireChanged(env, s, p) == s.(events := s.events + [Changed(p)])
              && FireDeleted(env, s, p) == s.(events := s.events + [Deleted(p)])
    ensures !RootThere(env, p) ==> FireDeleted(env, s, p) == s.(events := s.events + [Deleted(p)])
  {
    AccessibleMeaning(env, p);
  }

  /** Otherwise a change of a file is counted. */
  lemma ChangeCounted(env: Env, s: State, p: Path) returns (t: State)
    requires p != [] && !("~$" <= p[|p| - 1]) && p !in env.world.broken
    requires !(p in env.world.files && env.world.files[p].folder)
    ensures t == FireChanged(env, s, p) && t.fileMap == s.fileMap
    ensures t.counts == s.counts.(encountered := s.counts.encountered + 1)
  {
    t := FireChanged(env, s, p);
  }

  /** A vanished file is counted, and taken out of the map where its name is eligible. */
  lemma VanishedTakenOut(env: Env, s: State, p: Path) returns (t: State)
    requires p != [] && !("~$" <= p[|p| - 1]) && p !in env.world.broken && p !in env.world.files
    requires RootThere(env, p) && FolderText(p) !in env.profile.included
    ensures t == FireDeleted(env, s, p) && t.counts.encountered == s.counts.encountered + 1
    ensures if Eligible(env.profile.extensions, p) then p !in t.fileMap else t.fileMap == s.fileMap
  {
    AccessibleMeaning(env, p);
    t := FireDeleted(env, s, p);
    var h := Delete(env, Registry(s.fileMap, s.counts), p);
    if p in s.fileMap {
      RemovalMeaning(env, s.fileMap, p);
    }
    assert t.fileMap == h.files && t.counts == h.counts;
  }

  /** A new file of eligible name is registered where no excluded name begins its own. */
  lemma NewRegistered(env: Env, s: State, p: Path) returns (t: State)
    requires p in env.world.files && !env.world.files[p].folder && Eligible(env.profile.extensions, p)
    requires forall f :: f in env.profile.excluded ==> !(f <= Text(p))
    ensures t == FireCreated(env, s, p) && p in t.fileMap
  {
    t := FireCreated(env, s, p);
    assert TestedText(env.world, p) == Text(p);
    assert !IsExcluded(env, p);
    assert p in Visited(env, p);
  }

  /*** One check ***/

  lemma DropEvents(env: Env, s: State, p: Path)
    requires p in s.fileMap
    ensures Drop(env, s, p).events == s.events + [Deleted(p)] && Drop(env, s, p).removePaths == s.removePaths
  {}

  lemma SelfReports(env: Env, now: int, s: State, p: Path) returns (t: State, own: seq<Event>)
    requires p in s.fileMap && There(env.world, p)
    ensures t == CheckSelf(env, now, s, p)
    ensures t.events == s.events + own && t.removePaths == s.removePaths
    ensures OwnEvent(env, s.removePaths, s.fileMap[p], now, p, own)
    ensures !InRemovePaths(env, s, p) ==> p in t.fileMap && t.fileMap[p].children == s.fileMap[p].children
  {
    t := CheckSelf(env, now, s, p);
    InsideMeaning(env, s, p);
    var e := s.fileMap[p];
    if !e.present {
      own := if IsFolder(env.world, p) then [] else [Created(p)];
    } else if InRemovePaths(env, s, p) {
      DropEvents(env, s, p);
      own := [Deleted(p)];
    } else {
      own := if IsChanged(env, s.removePaths, e, now, p) then [Changed(p)] else [];
    }
  }

  lemma ChildrenReports(env: Env, s: State, e: Entry, p: Path) returns (t: State, children: seq<Path>)
    requires WellFormed(env.world) && p in s.fileMap && IsFolder(env.world, p) && There(env.world, p)
    requires !InRemovePaths(env, s, p) && s.fileMap[p].children == e.children
    ensures t == CheckForNewChildren(env, s, p) && t.events == s.events + AllCreated(children)
    ensures NewChildren(env, s.removePaths, e, p, children)
  {
    t := CheckForNewChildren(env, s, p);
    InsideMeaning(env, s, p);
    if p in env.world.listings {
      children := CreatesAreNewChildren(env, s, p);
      forall c
        ensures c in children <==> NewChild(env, s.removePaths, e, p, c)
      {
        assert c in children <==> c in Members(children);
      }
    } else {
      children := [];
      NoChildren(s.events);
    }
  }

  lemma NoChildren(events: seq<Event>)
    ensures events == events + AllCreated([])
  {}

  /** What a check records: the event for the file itself, then those for the children
      of a folder. */
  lemma CheckReports(env: Env, now: int, s: State, p: Path) returns (own: seq<Event>, children: seq<Path>)
    requires WellFormed(env.world) && p in s.fileMap
    ensures Check(env, now, s, p).events == s.events + own + AllCreated(children)
    ensures OwnEvent(env, s.removePaths, s.fileMap[p], now, p, own)
    ensures NewChildren(env, s.removePaths, s.fileMap[p], p, children)
  {
    own, children := [], [];
    NoChildren(s.events);
    AccessibleMeaning(env, p);
    InsideMeaning(env, s, p);
    if There(env.world, p) {
      var t;
      t, own := SelfReports(env, now, s, p);
      InsideMeaning(env, t, p);
      if IsFolder(env.world, p) && !InRemovePaths(env, s, p) {
        var u;
        u, children := ChildrenReports(env, t, s.fileMap[p], p);
      } else {
        NoChildren(t.events);
      }
    } else if p !in env.world.broken && s.fileMap[p].present && Accessible(env.profile.included, env.world, p) {
      DropEvents(env, s, p);
      own := [Deleted(p)];
      NoChildren(s.events + own);
    }
  }

  /*** What other files' turns leave alone ***/

  /** The entry of `p` stays, with its flag and time. */
  predicate StaysIn(m: Files, m': Files, p: Path)
  {
    p in m ==> p in m' && m'[p].present == m[p].present && m'[p].timestamp == m[p].timestamp
  }

  lemma RemoveOther(env: Env, m: Files, q: Path, p: Path) returns (n: Files)
    requires q != p
    ensures n == RemoveFile(env, m, q).0 && StaysIn(m, n, p)
  {
    n := RemoveFile(env, m, q).0;
  }

  lemma AddOther(env: Env, s: State, q: Path, p: Path) returns (t: State)
    ensures t == FireCreated(env, s, q) && StaysIn(s.fileMap, t.fileMap, p)
    ensures t.deleteStack == s.deleteStack && t.removePaths == s.removePaths && t.events == s.events + [Created(q)]
  {
    t := FireCreated(env, s, q);
  }

  lemma {:induction false} AddAllOther(env: Env, s: State, qs: seq<Path>, p: Path) returns (t: State)
    ensures t == FireAll(env, s, qs) && StaysIn(s.fileMap, t.fileMap, p)
    ensures t.deleteStack == s.deleteStack && t.removePaths == s.removePaths
    decreases |qs|
  {
    t := s;
    if qs != [] {
      var u := AddOther(env, s, qs[0], p);
      t := AddAllOther(env, u.(addStack := u.addStack + [qs[0]]), qs[1..], p);
    }
  }

  /** Nothing of `p` has changed between the states but what its own turn changes. */
  predicate LeftAlone(s: State, t: State, p: Path)
  {
    && StaysIn(s.fileMap, t.fileMap, p)
    && (p in t.deleteStack ==> p in s.deleteStack)
    && t.removePaths == s.removePaths
  }

  lemma DropOther(env: Env, s: State, q: Path, p: Path) returns (t: State)
    requires q in s.fileMap && q != p
    ensures t == Drop(env, s, q) && LeftAlone(s, t, p)
  {
    t := Drop(env, s, q);
    var u := SetEntry(s, q, s.fileMap[q].(present := false));
    var n := RemoveOther(env, u.fileMap, q, p);
    assert StaysIn(s.fileMap, u.fileMap, p);
  }

  lemma SelfOther(env: Env, now: int, s: State, q: Path, p: Path) returns (t: State)
    requires q in s.fileMap && q in env.world.files && q != p
    ensures t == CheckSelf(env, now, s, q) && LeftAlone(s, t, p)
  {
    t := CheckSelf(env, now, s, q);
    if !s.fileMap[q].present {
      var u := SetEntry(s, q, s.fileMap[q].(present := true, timestamp := env.world.files[q].modified));
      var v := AddOther(env, u, q, p);
    } else if InRemovePaths(env, s, q) {
      t := DropOther(env, s, q, p);
    }
  }

  lemma ChildrenOther(env: Env, s: State, q: Path, p: Path) returns (t: State)
    requires q in s.fileMap
    ensures t == CheckForNewChildren(env, s, q) && LeftAlone(s, t, p)
  {
    t := CheckForNewChildren(env, s, q);
    if q in env.world.listings {
      var e := s.fileMap[q];
      var children := if e.children == None && env.world.listings[q] == [] then None else Some(Current(env, q));
      t := AddAllOther(env, SetEntry(s, q, e.(children := children)), Missing(env, e.children, q), p);
    }
  }

  lemma CheckOther(env: Env, now: int, s: State, q: Path, p: Path) returns (t: State)
    requires q in s.fileMap && q != p
    ensures t == Check(env, now, s, q) && LeftAlone(s, t, p)
  {
    t := Check(env, now, s, q);
    if q !in env.world.broken {
      if q in env.world.files {
        var u := SelfOther(env, now, s, q, p);
        if IsFolder(env.world, q) && q in u.fileMap && !InRemovePaths(env, u, q) {
          t := ChildrenOther(env, u, q, p);
        }
      } else if s.fileMap[q].present && Accessible(env.profile.included, env.world, q) {
        t := DropOther(env, s, q, p);
      }
    }
  }

  lemma {:induction false} DrainOther(env: Env, s: State, p: Path) returns (t: State)
    ensures t == Drain(env, s).s && t.events == s.events && t.removePaths == s.removePaths
    ensures t.removeListStack == s.removeListStack
    ensures p !in s.deleteStack ==> LeftAlone(s, t, p)
    decreases |s.deleteStack|
  {
    t := s;
    if s.deleteStack != [] {
      var last := |s.deleteStack| - 1;
      var (m, ok) := RemoveFile(env, s.fileMap, s.deleteStack[last]);
      var u := s.(deleteStack := s.deleteStack[..last], fileMap := m);
      if p !in s.deleteStack {
        assert s.deleteStack[last] in s.deleteStack;
        var n := RemoveOther(env, s.fileMap, s.deleteStack[last], p);
      }
      t := u;
      if ok {
        t := DrainOther(env, u, p);
      }
    }
  }

  /*** Turns ***/

  /** What the turn of `v` adds to the events, given the entry then, if there is one. */
  ghost predicate TurnEvents(env: Env, removed: seq<string>, entry: Option<Entry>, v: Visit, own: seq<Event>, children: seq<Path>)
  {
    match entry
    case None => own == [] && children == []
    case Some(e) => OwnEvent(env, removed, e, v.time, v.path, own) && NewChildren(env, removed, e, v.path, children)
  }

  function EntryAt(m: Files, p: Path): Option<Entry>
  {
    if p in m then Some(m[p]) else None
  }

  lemma TurnReports(env: Env, s: State, v: Visit) returns (t: State, entry: Option<Entry>, own: seq<Event>, children: seq<Path>)
    requires WellFormed(env.world) && Turn(env, s, v).completed
    ensures t == Turn(env, s, v).s && t.events == s.events + own + AllCreated(children)
    ensures TurnEvents(env, s.removePaths, entry, v, own, children)
    ensures t.removePaths == s.removePaths
    ensures v.path in s.fileMap && v.path !in s.deleteStack ==>
              && entry.Some? && entry.value.present == s.fileMap[v.path].present
              && entry.value.timestamp == s.fileMap[v.path].timestamp
  {
    t := Turn(env, s, v).s;
    var d := DrainOther(env, s, v.path);
    entry := EntryAt(d.fileMap, v.path);
    if v.path in d.fileMap {
      own, children := CheckReports(env, v.time, d, v.path);
      CheckLeavesPaths(env, v.time, d, v.path);
    } else {
      own, children := [], [];
      NoChildren(s.events);
    }
  }

  lemma CheckLeavesPaths(env: Env, now: int, s: State, q: Path)
    requires q in s.fileMap
    ensures Check(env, now, s, q).removePaths == s.removePaths
  {
    var t := CheckOther(env, now, s, q, q + [""]);
  }

  lemma TurnOther(env: Env, s: State, v: Visit, p: Path) returns (t: State)
    requires v.path != p && p !in s.deleteStack
    ensures t == Turn(env, s, v).s && LeftAlone(s, t, p)
  {
    var d := DrainOther(env, s, p);
    t := d;
    if Drain(env, s).completed && v.path in d.fileMap {
      t := CheckOther(env, v.time, d, v.path, p);
    }
  }

  /*** A whole pass ***/

  /** What one turn has found and recorded. */
  datatype Report = Report(entry: Option<Entry>, own: seq<Event>, children: seq<Path>)

  function EventsOf(reports: seq<Report>): seq<Event>
  {
    if reports == [] then []
    else reports[0].own + AllCreated(reports[0].children) + EventsOf(reports[1..])
  }

  /** As far as its own event is concerned the entry is still the one in `m`. */
  predicate FoundAs(m: Files, p: Path, entry: Option<Entry>)
    requires p in m
  {
    entry.Some? && entry.value.present == m[p].present && entry.value.timestamp == m[p].timestamp
  }

  ghost predicate Reported(env: Env, removed: seq<string>, visits: seq<Visit>, reports: seq<Report>)
  {
    && |reports| == |visits|
    && forall k :: 0 <= k < |visits| ==>
         TurnEvents(env, removed, reports[k].entry, visits[k], reports[k].own, reports[k].children)
  }

  predicate DistinctNames(visits: seq<Visit>)
  {
    forall j, k :: 0 <= j < k < |visits| ==> visits[j].path != visits[k].path
  }

  /** What is monitored at the start and not queued for removal is found in its turn. */
  ghost predicate AllFound(s: State, visits: seq<Visit>, reports: seq<Report>)
    requires |reports| == |visits|
  {
    forall k :: 0 <= k < |visits| && visits[k].path in s.fileMap && visits[k].path !in s.deleteStack ==>
      FoundAs(s.fileMap, visits[k].path, reports[k].entry)
  }

  lemma {:induction false} CheckAllReports(env: Env, s: State, visits: seq<Visit>) returns (t: State, reports: seq<Report>)
    requires WellFormed(env.world) && CheckAll(env, s, visits).completed && DistinctNames(visits)
    ensures t == CheckAll(env, s, visits).s && t.events == s.events + EventsOf(reports)
    ensures Reported(env, s.removePaths, visits, reports) && AllFound(s, visits, reports)
    decreases |visits|
  {
    if visits == [] {
      t, reports := s, [];
      assert s.events + [] == s.events;
    } else {
      var u, entry, own, children := TurnReports(env, s, visits[0]);
      var rest;
      t, rest := CheckAllReports(env, u, visits[1..]);
      reports := [Report(entry, own, children)] + rest;
      EventsJoin(s.events, own, AllCreated(children), rest);
      forall k | 1 <= k < |visits| && visits[k].path in s.fileMap && visits[k].path !in s.deleteStack
        ensures FoundAs(s.fileMap, visits[k].path, reports[k].entry)
      {
        assert visits[1..][k - 1] == visits[k] && rest[k - 1] == reports[k];
        var v := TurnOther(env, s, visits[0], visits[k].path);
      }
    }
  }

  lemma EventsJoin(events: seq<Event>, own: seq<Event>, created: seq<Event>, rest: seq<Report>)
    ensures events + own + created + EventsOf(rest) == events + (own + created + EventsOf(rest))
  {}

  /*** Counting ***/

  lemma {:induction false} CountCreated(children: seq<Path>, e: Event)
    requires Distinct(children)
    ensures multiset(AllCreated(children))[e] == if e.Created? && e.path in children then 1 else 0
    decreases |children|
  {
    if children != [] {
      var n := |children| - 1;
      var shorter := children[..n];
      CountCreated(shorter, e);
      assert AllCreated(children) == AllCreated(shorter) + [Created(children[n])];
      assert children == shorter + [children[n]];
      assert children[n] !in shorter;
    }
  }

  /** Some turn has recorded `p` as a new child. */
  predicate FiredAsChild(reports: seq<Report>, p: Path)
  {
    exists k :: 0 <= k < |reports| && p in reports[k].children
  }

  function CountOf(own: seq<Event>, e: Event): nat
  {
    multiset(own)[e]
  }

  /** Only the turn of the folder of `p` can have. */
  lemma OnlyParent(env: Env, removed: seq<string>, visits: seq<Visit>, reports: seq<Report>, p: Path, k: nat)
    requires WellFormed(env.world) && Reported(env, removed, visits, reports) && k < |reports| && p in reports[k].children
    ensures p != [] && visits[k].path == p[..|p| - 1]
  {
    var report := reports[k];
    assert TurnEvents(env, removed, report.entry, visits[k], report.own, report.children);
    assert NewChild(env, removed, report.entry.value, visits[k].path, p);
    assert IsChild(visits[k].path, p);
  }

  lemma CountFirst(reports: seq<Report>, e: Event)
    requires reports != []
    ensures multiset(EventsOf(reports))[e]
            == CountOf(reports[0].own, e) + multiset(AllCreated(reports[0].children))[e] + multiset(EventsOf(reports[1..]))[e]
  {}

  lemma ChildOnce(env: Env, removed: seq<string>, visits: seq<Visit>, reports: seq<Report>, p: Path)
    requires WellFormed(env.world) && Reported(env, removed, visits, reports) && DistinctNames(visits) && reports != []
    ensures FiredAsChild(reports, p) <==> p in reports[0].children || FiredAsChild(reports[1..], p)
    ensures !(p in reports[0].children && FiredAsChild(reports[1..], p))
  {
    if FiredAsChild(reports[1..], p) {
      var k :| 0 <= k < |reports[1..]| && p in reports[1..][k].children;
      assert reports[k + 1] == reports[1..][k];
      OnlyParent(env, removed, visits, reports, p, k + 1);
      if p in reports[0].children {
        OnlyParent(env, removed, visits, reports, p, 0);
        assert false;
      }
    }
    if FiredAsChild(reports, p) && p !in reports[0].children {
      var k :| 0 <= k < |reports| && p in reports[k].children;
      assert reports[1..][k - 1] == reports[k];
    }
  }

  /** The create event for `p` that its folder's turn adds. */
  function AsChild(reports: seq<Report>, e: Event): nat
  {
    if e.Created? && FiredAsChild(reports, e.path) then 1 else 0
  }

  lemma FirstShare(env: Env, removed: seq<string>, visits: seq<Visit>, reports: seq<Report>, e: Event)
    requires WellFormed(env.world) && Reported(env, removed, visits, reports) && DistinctNames(visits) && visits != []
    ensures Reported(env, removed, visits[1..], reports[1..]) && DistinctNames(visits[1..])
    ensures multiset(AllCreated(reports[0].children))[e] + AsChild(reports[1..], e) == AsChild(reports, e)
    ensures visits[0].path != e.path ==> CountOf(reports[0].own, e) == 0
  {
    var first := reports[0];
    assert TurnEvents(env, removed, first.entry, visits[0], first.own, first.children);
    CountCreated(first.children, e);
    ChildOnce(env, removed, visits, reports, e.path);
  }

  lemma {:induction false} CountElsewhere(env: Env, removed: seq<string>, visits: seq<Visit>, reports: seq<Report>, e: Event)
    requires WellFormed(env.world) && Reported(env, removed, visits, reports) && DistinctNames(visits)
    requires forall k :: 0 <= k < |visits| ==> visits[k].path != e.path
    ensures multiset(EventsOf(reports))[e] == AsChild(reports, e)
    decreases |visits|
  {
    if visits != [] {
      FirstShare(env, removed, visits, reports, e);
      CountElsewhere(env, removed, visits[1..], reports[1..], e);
      CountFirst(reports, e);
    }
  }

  /** The events for a file are those of its own turn, and a create event besides if its
      folder's turn has recorded it as new. */
  lemma {:induction false} CountFor(env: Env, removed: seq<string>, visits: seq<Visit>, reports: seq<Report>, k: nat, e: Event)
    requires WellFormed(env.world) && Reported(env, removed, visits, reports) && DistinctNames(visits)
    requires k < |visits| && visits[k].path == e.path
    ensures multiset(EventsOf(reports))[e] == CountOf(reports[k].own, e) + AsChild(reports, e)
    decreases |visits|
  {
    FirstShare(env, removed, visits, reports, e);
    CountFirst(reports, e);
    if k == 0 {
      CountElsewhere(env, removed, visits[1..], reports[1..], e);
    } else {
      CountFor(env, removed, visits[1..], reports[1..], k - 1, e);
    }
  }

  /** How often each event for `p` is among `fired`. */
  ghost predicate FiredFor(env: Env, removed: seq<string>, e: Entry, now: int, p: Path, asChild: bool, fired: seq<Event>)
  {
    && multiset(fired)[Deleted(p)] == (if IsGone(env, removed, e, p) then 1 else 0)
    && multiset(fired)[Changed(p)] == (if IsChanged(env, removed, e, now, p) then 1 else 0)
    && multiset(fired)[Created(p)] == (if IsBack(env, e, p) then 1 else 0) + (if asChild then 1 else 0)
  }

  lemma {:induction false} FiredInTurn(env: Env, removed: seq<string>, visits: seq<Visit>, reports: seq<Report>, m: Files, k: nat)
    requires WellFormed(env.world) && Reported(env, removed, visits, reports) && DistinctNames(visits)
    requires k < |visits| && visits[k].path in m && FoundAs(m, visits[k].path, reports[k].entry)
    ensures FiredFor(env, removed, m[visits[k].path], visits[k].time, visits[k].path, FiredAsChild(reports, visits[k].path),
                     EventsOf(reports))
  {
    var p := visits[k].path;
    CountFor(env, removed, visits, reports, k, Deleted(p));
    CountFor(env, removed, visits, reports, k, Changed(p));
    CountFor(env, removed, visits, reports, k, Created(p));
    OwnCounted(env, removed, reports[k].entry.value, visits[k].time, p, reports[k].own);
  }

  lemma OwnCounted(env: Env, removed: seq<string>, e: Entry, now: int, p: Path, own: seq<Event>)
    requires OwnEvent(env, removed, e, now, p, own)
    ensures CountOf(own, Deleted(p)) == if IsGone(env, removed, e, p) then 1 else 0
    ensures CountOf(own, Changed(p)) == if IsChanged(env, removed, e, now, p) then 1 else 0
    ensures CountOf(own, Created(p)) == if IsBack(env, e, p) then 1 else 0
  {
    assert IsGone(env, removed, e, p) ==> own == [Deleted(p)];
    assert IsChanged(env, removed, e, now, p) ==> own == [Changed(p)];
    assert IsBack(env, e, p) ==> own == [Created(p)];
  }

  /*** The events of a pass ***/

  lemma {:induction false} AddQueuedSilent(env: Env, s: State)
    ensures AddQueued(env, s).events == s.events
    decreases |s.addStack|
  {
    if s.addStack != [] {
      var last := |s.addStack| - 1;
      var p := s.addStack[last];
      var m := if Eligible(env.profile.extensions, p) then AddFile(env, s.fileMap, p) else s.fileMap;
      AddQueuedSilent(env, s.(addStack := s.addStack[..last], fileMap := m));
    }
  }

  lemma InsideReversed(w: World, removed: seq<string>, p: Path)
    ensures Inside(w, Reversed(removed), p) <==> Inside(w, removed, p)
  {
    var text := Text(p) + if p in w.files && w.files[p].folder then "/" else "";
    if Inside(w, removed, p) {
      var i :| 0 <= i < |removed| && removed[i] <= text;
      assert Reversed(removed)[|removed| - 1 - i] == removed[i];
    }
  }

  lemma TurnReversed(env: Env, removed: seq<string>, r: Report, v: Visit)
    requires TurnEvents(env, Reversed(removed), r.entry, v, r.own, r.children)
    ensures TurnEvents(env, removed, r.entry, v, r.own, r.children)
  {
    InsideReversed(env.world, removed, v.path);
    if r.entry.Some? {
      forall c
        ensures c in r.children <==> NewChild(env, removed, r.entry.value, v.path, c)
      {
        assert c in r.children <==> NewChild(env, Reversed(removed), r.entry.value, v.path, c);
      }
    }
  }

  /** What is monitored at the start and not queued for removal. */
  predicate Due(s: State, p: Path)
  {
    p in s.fileMap && p !in s.deleteStack
  }

  /** The events for each due file of a pass, and what each turn has recorded. */
  ghost predicate PassReported(env: Env, s: State, visits: seq<Visit>, reports: seq<Report>, fired: seq<Event>)
  {
    && Reported(env, s.removeListStack, visits, reports) && fired == EventsOf(reports)
    && forall k :: 0 <= k < |visits| && Due(s, visits[k].path) ==>
         FiredFor(env, s.removeListStack, s.fileMap[visits[k].path], visits[k].time, visits[k].path,
                  FiredAsChild(reports, visits[k].path), fired)
  }

  /** The events of a pass that comes to its end over distinct names: for a file due at its
      turn one delete event exactly if it has vanished under a root that is there or lies in
      a removed path, one change event exactly if its time has changed for long enough, one
      create event exactly if it is back, and one more exactly if the turn of its folder has
      found it new; no other event for it. */
  lemma PassReports(env: Env, s: State, visits: seq<Visit>) returns (after: State, reports: seq<Report>, fired: seq<Event>)
    requires WellFormed(env.world) && DistinctNames(visits) && Pass(env, s, visits).completed
    ensures after == Pass(env, s, visits).s && after.events == s.events + fired
    ensures PassReported(env, s, visits, reports, fired)
  {
    var none: Path := [];
    var d := DrainOther(env, s, none);
    var u := TakeRemovePaths(d);
    var t;
    t, reports := CheckAllReports(env, u, visits);
    fired := EventsOf(reports);
    AddQueuedSilent(env, t);
    after := AddQueued(env, t);
    forall k | 0 <= k < |visits|
      ensures TurnEvents(env, s.removeListStack, reports[k].entry, visits[k], reports[k].own, reports[k].children)
    {
      TurnReversed(env, s.removeListStack, reports[k], visits[k]);
    }
    forall k: nat | k < |visits| && Due(s, visits[k].path)
      ensures FiredFor(env, s.removeListStack, s.fileMap[visits[k].path], visits[k].time, visits[k].path,
                       FiredAsChild(reports, visits[k].path), fired)
    {
      var d' := DrainOther(env, s, visits[k].path);
      FiredInTurn(env, s.removeListStack, visits, reports, s.fileMap, k);
    }
  }

  /** In a passable state with no path queued every pass reports so. */
  lemma PollReports(env: Env, s: State, visits: seq<Visit>) returns (after: State, reports: seq<Report>, fired: seq<Event>)
    requires WellFormed(env.world) && s.removeListStack == [] && Passable(env, s) && DistinctNames(visits)
    ensures Pass(env, s, visits).completed && after == Pass(env, s, visits).s && after.events == s.events + fired
    ensures PassReported(env, s, visits, reports, fired)
  {
    PassCompletes(env, s);
    after, reports, fired := PassReports(env, s, visits);
  }
}
