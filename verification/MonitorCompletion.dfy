/** When a pass comes to its end. Removing a file fails, and ends the pass, when the
    entry of its folder has no children set. */
module MonitorCompletion {
  import opened Wrappers
  import opened SetSizes
  import opened FileTrees
  import opened MonitorModel
  import opened Crawling

  /*** One removal ***/

  /** Neither a root entry nor under a root that cannot be reached. */
  predicate Removable(env: Env, q: Path)
  {
    FolderText(q) !in env.profile.included && Accessible(env.profile.included, env.world, q)
  }

  /** The folder of `q` is monitored without a children set. */
  predicate InBare(m: Files, q: Path)
  {
    q != [] && q[..|q| - 1] in m && m[q[..|q| - 1]].children == None
  }

  /** Only the removed file leaves the map, and at most it leaves a children set. */
  ghost predicate Removed(m: Files, n: Files, q: Path, removable: bool)
  {
    && n.Keys == (if removable then m.Keys - {q} else m.Keys)
    && (forall x :: x in n ==>
          n[x] == m[x] || (m[x].children.Some? && n[x] == m[x].(children := Some(m[x].children.value - {q}))))
  }

  lemma RemovalFails(env: Env, m: Files, q: Path)
    ensures
      var (n, ok) := RemoveFile(env, m, q);
      && (ok <==> !(Removable(env, q) && q in m && InBare(m, q)))
      && Removed(m, n, q, Removable(env, q))
  {
    if q != [] {
      assert q[..|q| - 1] in m - {q} <==> q[..|q| - 1] in m;
    }
  }

  /** What a removal leaves: a root entry, and a file whose root cannot be reached, stay; of
      the other entries only the folder's changes, and only in no longer recording the file. */
  lemma RemovalMeaning(env: Env, m: Files, p: Path)
    requires p in m
    ensures
      var (n, ok) := RemoveFile(env, m, p);
      var stays := FolderText(p) in env.profile.included || !Accessible(env.profile.included, env.world, p);
      && (stays ==> n == m && ok)
      && (p in n <==> stays)
      && (forall q :: q != p ==> (q in n <==> q in m))
      && (forall q :: q in n && q != p ==>
            n[q] == if !stays && IsChild(q, p) && m[q].children.Some?
                    then m[q].(children := Some(m[q].children.value - {p})) else m[q])
  {
    if p != [] {
      assert forall q :: IsChild(q, p) <==> q == p[..|p| - 1];
    }
  }

  /** A root entry stays in the map, excluded or not. */
  lemma RootEntryStays(env: Env, m: Files, n: Files, q: Path, a: Path)
    requires FolderText(a) in env.profile.included && a in m && n == RemoveFile(env, m, q).0
    ensures a in n
  {
    RemovalFails(env, m, q);
  }

  /*** The queued removals ***/

  /** The removal of `stack[i]` does not fail, or its folder is removed before it. */
  predicate Cleared(removable: set<Path>, m: Files, stack: seq<Path>, i: nat)
    requires i < |stack|
  {
    stack[i] in removable && stack[i] in m && InBare(m, stack[i]) ==>
      exists j :: i < j < |stack| && stack[j] == stack[i][..|stack[i]| - 1] && stack[j] in removable
  }

  predicate AllCleared(removable: set<Path>, m: Files, stack: seq<Path>)
  {
    forall i :: 0 <= i < |stack| ==> Cleared(removable, m, stack, i)
  }

  lemma ClearedAfterLast(removable: set<Path>, m: Files, n: Files, stack: seq<Path>, i: nat)
    requires i < |stack| - 1 && Removed(m, n, stack[|stack| - 1], stack[|stack| - 1] in removable)
    requires stack[|stack| - 1] in removable && stack[|stack| - 1] in m ==> !InBare(m, stack[|stack| - 1])
    ensures Cleared(removable, m, stack, i) <==> Cleared(removable, n, stack[..|stack| - 1], i)
  {
    var last := |stack| - 1;
    var q, rest := stack[i], stack[..last];
    assert rest[i] == q;
    if q in removable && q in m && InBare(m, q) {
      var folder := q[..|q| - 1];
      if stack[last] == folder && folder in removable {
        assert !InBare(n, q);
      } else {
        assert q in n && InBare(n, q);
        assert forall j :: i < j < last ==> rest[j] == stack[j];
      }
    }
  }

  lemma LastCleared(removable: set<Path>, m: Files, n: Files, stack: seq<Path>)
    requires stack != [] && Removed(m, n, stack[|stack| - 1], stack[|stack| - 1] in removable)
    requires stack[|stack| - 1] in removable && stack[|stack| - 1] in m ==> !InBare(m, stack[|stack| - 1])
    ensures AllCleared(removable, m, stack) <==> AllCleared(removable, n, stack[..|stack| - 1])
  {
    var rest := stack[..|stack| - 1];
    forall i | 0 <= i < |rest|
      ensures Cleared(removable, m, stack, i) <==> Cleared(removable, n, rest, i)
    {
      ClearedAfterLast(removable, m, n, stack, i);
    }
    assert Cleared(removable, m, stack, |rest|);
    if AllCleared(removable, n, rest) {
      forall i | 0 <= i < |stack|
        ensures Cleared(removable, m, stack, i)
      {
        assert i < |rest| ==> Cleared(removable, n, rest, i);
      }
    }
  }

  ghost predicate Tells(removable: set<Path>, env: Env, stack: seq<Path>)
  {
    forall q :: q in stack ==> (q in removable <==> Removable(env, q))
  }

  lemma DrainOne(env: Env, s: State) returns (t: State, q: Path, ok: bool)
    requires s.deleteStack != []
    ensures q == s.deleteStack[|s.deleteStack| - 1] && t.deleteStack == s.deleteStack[..|s.deleteStack| - 1]
    ensures t.fileMap == RemoveFile(env, s.fileMap, q).0 && ok == RemoveFile(env, s.fileMap, q).1
    ensures t == s.(deleteStack := t.deleteStack, fileMap := t.fileMap)
    ensures Drain(env, s) == if ok then Drain(env, t) else Run(t, false)
  {
    q := s.deleteStack[|s.deleteStack| - 1];
    var (m, removed) := RemoveFile(env, s.fileMap, q);
    t, ok := s.(deleteStack := s.deleteStack[..|s.deleteStack| - 1], fileMap := m), removed;
  }

  /** Exactly when all queued removals are made. */
  lemma {:induction false} DrainCompletes(env: Env, s: State, removable: set<Path>) returns (completed: bool)
    requires Tells(removable, env, s.deleteStack)
    ensures completed == Drain(env, s).completed
    ensures completed <==> AllCleared(removable, s.fileMap, s.deleteStack)
    decreases |s.deleteStack|
  {
    if s.deleteStack == [] {
      completed := true;
    } else {
      var t, q, ok := DrainOne(env, s);
      RemovalFails(env, s.fileMap, q);
      completed := ok;
      if ok {
        completed := DrainCompletes(env, t, removable);
        LastCleared(removable, s.fileMap, t.fileMap, s.deleteStack);
      } else {
        assert !Cleared(removable, s.fileMap, s.deleteStack, |s.deleteStack| - 1);
      }
    }
  }

  /*** What a pass can do to the map ***/

  /** A check of folder `a` finds its child `d` new. */
  predicate FoundNew(env: Env, m: Files, a: Path, d: Path)
  {
    && a in m && a in env.world.listings && d in Current(env, a)
    && (m[a].children == None || d !in m[a].children.value)
  }

  /** The create event of `d` registers `q`. */
  predicate Brings(env: Env, d: Path, q: Path)
  {
    !IsTemporary(d) && q in Visited(env, d) && Monitorable(env.profile.extensions, env.world, q)
  }

  /** A check of some folder registers `q`. */
  ghost predicate Arrives(env: Env, m: Files, q: Path)
  {
    exists a, d :: FoundNew(env, m, a, d) && Brings(env, d, q)
  }

  /** `p` is monitored without a children set, or will be. */
  ghost predicate Bare(env: Env, m: Files, p: Path)
  {
    if p in m then m[p].children == None
    else p in env.world.files && p !in env.world.listings && Arrives(env, m, p)
  }

  /** A check of the vanished file `c` queues its removal, which is left to the monitor. */
  predicate Leftover(env: Env, c: Path)
  {
    && c !in env.world.files && c !in env.world.broken && Removable(env, c)
    && !Eligible(env.profile.extensions, c)
  }

  /** The folder of `c` neither lacks a children set nor comes to lack one. */
  ghost predicate Safe(env: Env, m: Files, c: Path)
  {
    c != [] ==> !Bare(env, m, c[..|c| - 1])
  }

  ghost predicate Unhindered(env: Env, m: Files)
  {
    forall c :: c in m && m[c].present && Leftover(env, c) ==> Safe(env, m, c)
  }

  /** `n` has no entry to be removed, no new child and no bare folder that `m` has not. */
  ghost predicate Milder(env: Env, m: Files, n: Files)
  {
    && (forall c :: c in n && c !in env.world.files ==> c in m && (n[c].present ==> m[c].present))
    && (forall a, d :: FoundNew(env, n, a, d) ==> FoundNew(env, m, a, d))
    && (forall p :: p in n && n[p].children == None ==> Bare(env, m, p))
    && (forall p :: p in m && p in env.world.files ==> p in n)
  }

  lemma ArrivesAlready(env: Env, m: Files, n: Files, q: Path)
    requires Milder(env, m, n) && Arrives(env, n, q)
    ensures Arrives(env, m, q)
  {
    var a, d :| FoundNew(env, n, a, d) && Brings(env, d, q);
    assert FoundNew(env, m, a, d);
  }

  lemma BareAlready(env: Env, m: Files, n: Files, p: Path)
    requires Milder(env, m, n) && Bare(env, n, p)
    ensures Bare(env, m, p)
  {
    if p !in n {
      ArrivesAlready(env, m, n, p);
    }
  }

  lemma MilderTransitive(env: Env, m: Files, n: Files, o: Files)
    requires Milder(env, m, n) && Milder(env, n, o)
    ensures Milder(env, m, o)
  {
    forall p | p in o && o[p].children == None
      ensures Bare(env, m, p)
    {
      BareAlready(env, m, n, p);
    }
  }

  lemma SafeStill(env: Env, m: Files, n: Files, c: Path)
    requires Milder(env, m, n) && Safe(env, m, c)
    ensures Safe(env, n, c)
  {
    if c != [] && Bare(env, n, c[..|c| - 1]) {
      BareAlready(env, m, n, c[..|c| - 1]);
    }
  }

  /*** Steps ***/

  lemma RemovedMilder(env: Env, m: Files, n: Files, q: Path, removable: bool)
    requires WellFormed(env.world) && q !in env.world.files && Removed(m, n, q, removable)
    ensures Milder(env, m, n)
  {
    forall a, d | FoundNew(env, n, a, d)
      ensures FoundNew(env, m, a, d)
    {
      assert d in env.world.listings[a];
    }
  }

  lemma SetMilder(env: Env, m: Files, p: Path, e: Entry) returns (n: Files)
    requires p in m && e.children == m[p].children && (p in env.world.files || (e.present ==> m[p].present))
    ensures n == m[p := e] && Milder(env, m, n)
  {
    n := m[p := e];
  }

  lemma ChildrenMilder(env: Env, m: Files, p: Path, children: Option<set<Path>>) returns (n: Files)
    requires p in m && p in env.world.listings && p in env.world.files
    requires children == if m[p].children == None && env.world.listings[p] == [] then None else Some(Current(env, p))
    ensures n == m[p := m[p].(children := children)] && Milder(env, m, n)
  {
    n := m[p := m[p].(children := children)];
  }

  lemma RegisteredMilder(env: Env, m: Files, n: Files, a: Path, d: Path) returns (o: Files)
    requires Milder(env, m, n) && FoundNew(env, m, a, d) && !IsTemporary(d)
    ensures o == Registered(env, n, Visited(env, d)) && Milder(env, m, o)
  {
    o := Registered(env, n, Visited(env, d));
    forall p | p in o && o[p].children == None
      ensures Bare(env, m, p)
    {
      if p !in n {
        assert Brings(env, d, p);
      }
    }
  }

  lemma CreatedMilder(env: Env, m: Files, s: State, a: Path, d: Path) returns (t: State)
    requires Milder(env, m, s.fileMap) && FoundNew(env, m, a, d) && d in env.world.files
    ensures t == FireCreated(env, s, d) && Milder(env, m, t.fileMap)
    ensures t.deleteStack == s.deleteStack && t.removePaths == s.removePaths
  {
    if !IsTemporary(d) {
      var n := RegisteredMilder(env, m, s.fileMap, a, d);
    }
    t := FireCreated(env, s, d);
  }

  lemma {:induction false} FireAllMilder(env: Env, m: Files, s: State, a: Path, ds: seq<Path>) returns (t: State)
    requires Milder(env, m, s.fileMap) && forall d :: d in ds ==> FoundNew(env, m, a, d) && d in env.world.files
    ensures t == FireAll(env, s, ds) && Milder(env, m, t.fileMap)
    ensures t.deleteStack == s.deleteStack && t.removePaths == s.removePaths
    decreases |ds|
  {
    t := s;
    if ds != [] {
      t := CreatedMilder(env, m, s, a, ds[0]);
      t := FireAllMilder(env, m, t.(addStack := t.addStack + [ds[0]]), a, ds[1..]);
    }
  }

  lemma NewChildrenMilder(env: Env, s: State, p: Path) returns (t: State)
    requires WellFormed(env.world) && p in s.fileMap
    ensures t == CheckForNewChildren(env, s, p) && Milder(env, s.fileMap, t.fileMap)
    ensures t.deleteStack == s.deleteStack && t.removePaths == s.removePaths
  {
    t := s;
    if p in env.world.listings {
      var e := s.fileMap[p];
      var children := if e.children == None && env.world.listings[p] == [] then None else Some(Current(env, p));
      var n := ChildrenMilder(env, s.fileMap, p, children);
      var ds := Missing(env, e.children, p);
      forall d | d in ds
        ensures FoundNew(env, s.fileMap, p, d) && d in env.world.files
      {
        assert d in env.world.listings[p];
      }
      t := FireAllMilder(env, s.fileMap, s.(fileMap := n), p, ds);
    }
  }

  /** An existing file that is no folder brings nothing but itself. */
  lemma ReappearMilder(env: Env, s: State, p: Path) returns (t: State)
    requires WellFormed(env.world) && p in s.fileMap && p in env.world.files
    ensures t == Reappear(env, s, p) && Milder(env, s.fileMap, t.fileMap)
    ensures t.deleteStack == s.deleteStack && t.removePaths == s.removePaths && p in t.fileMap
  {
    var n := SetMilder(env, s.fileMap, p, s.fileMap[p].(present := true, timestamp := env.world.files[p].modified));
    if !IsFolder(env.world, p) {
      AloneRegistered(env, n, p);
    }
    t := Reappear(env, s, p);
  }

  lemma AloneRegistered(env: Env, m: Files, p: Path)
    requires WellFormed(env.world) && p in m && p in env.world.files && !IsFolder(env.world, p)
    ensures Registered(env, m, Visited(env, p)) == m
  {
    if IsExcluded(env, p) {
      VisitedExcluded(env, p);
    } else {
      VisitedLeaf(env, p);
    }
  }

  lemma SelfMilder(env: Env, now: int, s: State, p: Path) returns (t: State)
    requires WellFormed(env.world) && p in s.fileMap && p in env.world.files && s.removePaths == []
    ensures t == CheckSelf(env, now, s, p) && Milder(env, s.fileMap, t.fileMap)
    ensures t.deleteStack == s.deleteStack && t.removePaths == [] && p in t.fileMap
  {
    if s.fileMap[p].present {
      assert !InRemovePaths(env, s, p);
      var n := SetMilder(env, s.fileMap, p, s.fileMap[p].(timestamp := env.world.files[p].modified));
      t := CheckSelf(env, now, s, p);
    } else {
      t := ReappearMilder(env, s, p);
    }
  }

  /** A vanished file that the listener leaves in the map was a leftover before. */
  lemma DropMilder(env: Env, s: State, p: Path) returns (t: State)
    requires WellFormed(env.world) && p in s.fileMap && p !in env.world.files && p !in env.world.broken
    ensures t == Drop(env, s, p) && Milder(env, s.fileMap, t.fileMap)
    ensures t.deleteStack == s.deleteStack + [p] && t.removePaths == s.removePaths
    ensures p in t.fileMap && Removable(env, p) ==> Leftover(env, p)
  {
    var n := SetMilder(env, s.fileMap, p, s.fileMap[p].(present := false));
    RemovalFails(env, n, p);
    var o := RemoveFile(env, n, p).0;
    RemovedMilder(env, n, o, p, Removable(env, p));
    MilderTransitive(env, s.fileMap, n, o);
    t := Drop(env, s, p);
  }

  lemma CheckMilder(env: Env, now: int, s: State, p: Path) returns (t: State)
    requires WellFormed(env.world) && p in s.fileMap && s.removePaths == []
    ensures t == Check(env, now, s, p) && Milder(env, s.fileMap, t.fileMap) && t.removePaths == []
    ensures t.deleteStack == s.deleteStack
            || (t.deleteStack == s.deleteStack + [p] && p !in env.world.files && s.fileMap[p].present
                && (p in t.fileMap && Removable(env, p) ==> Leftover(env, p)))
  {
    t := s;
    if p !in env.world.broken {
      if p in env.world.files {
        t := SelfMilder(env, now, s, p);
        if IsFolder(env.world, p) {
          var u := t;
          t := NewChildrenMilder(env, u, p);
          MilderTransitive(env, s.fileMap, u.fileMap, t.fileMap);
        }
      } else if s.fileMap[p].present && Accessible(env.profile.included, env.world, p) {
        t := DropMilder(env, s, p);
      }
    }
  }

  /*** When no removal fails ***/

  ghost predicate AllGone(env: Env, stack: seq<Path>)
  {
    forall i :: 0 <= i < |stack| ==> stack[i] !in env.world.files
  }

  /** Neither the queued removals nor those still to be queued will fail. */
  ghost predicate Smooth(env: Env, s: State)
  {
    && s.removePaths == [] && AllGone(env, s.deleteStack) && Unhindered(env, s.fileMap)
    && (forall q :: q in s.deleteStack && q in s.fileMap && Removable(env, q) ==> Safe(env, s.fileMap, q))
  }

  lemma MilderSmooth(env: Env, s: State, t: State)
    requires Smooth(env, s) && Milder(env, s.fileMap, t.fileMap) && t.removePaths == []
    requires forall q :: q in t.deleteStack ==>
               || q in s.deleteStack
               || (q !in env.world.files && q in s.fileMap && s.fileMap[q].present
                   && (q in t.fileMap && Removable(env, q) ==> Leftover(env, q)))
    ensures Smooth(env, t)
  {
    forall c | c in t.fileMap && t.fileMap[c].present && Leftover(env, c)
      ensures Safe(env, t.fileMap, c)
    {
      SafeStill(env, s.fileMap, t.fileMap, c);
    }
    forall q | q in t.deleteStack && q in t.fileMap && Removable(env, q)
      ensures Safe(env, t.fileMap, q)
    {
      SafeStill(env, s.fileMap, t.fileMap, q);
    }
  }

  /** The monitored files that are gone. */
  function Gone(env: Env, m: Files): set<Path>
  {
    set c | c in m && c !in env.world.files
  }

  /** A removal that fails takes a file out of the map all the same. */
  lemma {:induction false} DrainMilder(env: Env, s: State) returns (t: State)
    requires WellFormed(env.world) && AllGone(env, s.deleteStack)
    ensures t == Drain(env, s).s && Milder(env, s.fileMap, t.fileMap)
    ensures AllGone(env, t.deleteStack) && t.removePaths == s.removePaths && t.removeListStack == s.removeListStack
    ensures if Drain(env, s).completed then t.deleteStack == [] else Gone(env, t.fileMap) < Gone(env, s.fileMap)
    decreases |s.deleteStack|
  {
    t := s;
    if s.deleteStack != [] {
      var u, q, ok := DrainOne(env, s);
      RemovalFails(env, s.fileMap, q);
      RemovedMilder(env, s.fileMap, u.fileMap, q, Removable(env, q));
      t := u;
      if ok {
        t := DrainMilder(env, u);
        MilderTransitive(env, s.fileMap, u.fileMap, t.fileMap);
      } else {
        assert q in Gone(env, s.fileMap) && q !in Gone(env, t.fileMap);
      }
    }
  }

  lemma {:induction false} DrainSmooth(env: Env, s: State) returns (t: State)
    requires WellFormed(env.world) && Smooth(env, s)
    ensures Drain(env, s) == Run(t, true) && t.deleteStack == [] && Smooth(env, t)
    decreases |s.deleteStack|
  {
    t := s;
    if s.deleteStack != [] {
      var u, q, ok := DrainOne(env, s);
      RemovalFails(env, s.fileMap, q);
      RemovedMilder(env, s.fileMap, u.fileMap, q, Removable(env, q));
      assert q in s.deleteStack;
      assert forall x :: x in u.deleteStack ==> x in s.deleteStack;
      MilderSmooth(env, s, u);
      t := DrainSmooth(env, u);
    }
  }

  lemma {:induction false} CheckAllSmooth(env: Env, s: State, visits: seq<Visit>)
    requires WellFormed(env.world) && Smooth(env, s)
    ensures CheckAll(env, s, visits).completed
    decreases |visits|
  {
    if visits != [] {
      var t := TurnSmooth(env, s, visits[0]);
      CheckAllSmooth(env, t, visits[1..]);
    }
  }

  lemma TurnSmooth(env: Env, s: State, v: Visit) returns (t: State)
    requires WellFormed(env.world) && Smooth(env, s)
    ensures Turn(env, s, v) == Run(t, true) && Smooth(env, t)
  {
    t := DrainSmooth(env, s);
    if v.path in t.fileMap {
      var u := t;
      t := CheckMilder(env, v.time, u, v.path);
      MilderSmooth(env, u, t);
    }
  }

  /*** When some removal fails ***/

  /** A leftover in a bare folder ends the pass at the name that follows it. */
  lemma LeftoverFails(env: Env, s: State, c: Path, now: int, v: Visit)
    requires s.deleteStack == [] && c in s.fileMap && s.fileMap[c].present && Leftover(env, c) && InBare(s.fileMap, c)
    ensures !CheckAll(env, s, [Visit(c, now), v]).completed
  {
    var t := Drop(env, s, c);
    assert t.fileMap == s.fileMap[c := s.fileMap[c].(present := false)] && t.deleteStack == [c];
    assert Turn(env, s, Visit(c, now)) == Run(t, true);
    RemovalFails(env, t.fileMap, c);
    assert !Turn(env, t, v).completed;
    assert [Visit(c, now), v][1..] == [v] && CheckAll(env, s, [Visit(c, now), v]) == CheckAll(env, t, [v]);
  }

  /** No entry is lost or changed, and new ones are those of a first registration. */
  ghost predicate Grown(env: Env, m: Files, n: Files)
  {
    && (forall x :: x in m ==> x in n && n[x] == m[x])
    && (forall x :: x in n && x !in m ==> x in env.world.files && n[x] == Fresh(env, x))
  }

  lemma CreatedGrows(env: Env, s: State, d: Path) returns (t: State)
    requires d in env.world.files
    ensures t == FireCreated(env, s, d) && Grown(env, s.fileMap, t.fileMap)
    ensures t.deleteStack == s.deleteStack && t.removePaths == s.removePaths
    ensures forall q :: Brings(env, d, q) ==> q in t.fileMap
  {
    t := FireCreated(env, s, d);
  }

  lemma {:induction false} FireAllGrows(env: Env, s: State, ds: seq<Path>) returns (t: State)
    requires forall d :: d in ds ==> d in env.world.files
    ensures t == FireAll(env, s, ds) && Grown(env, s.fileMap, t.fileMap)
    ensures t.deleteStack == s.deleteStack && t.removePaths == s.removePaths
    ensures forall d, q :: d in ds && Brings(env, d, q) ==> q in t.fileMap
    decreases |ds|
  {
    t := s;
    if ds != [] {
      var u := CreatedGrows(env, s, ds[0]);
      t := FireAllGrows(env, u.(addStack := u.addStack + [ds[0]]), ds[1..]);
    }
  }

  /** The new children set, before the create events are fired. */
  lemma ChildrenNoted(env: Env, s: State, a: Path) returns (t: State, ds: seq<Path>)
    requires WellFormed(env.world) && a in s.fileMap && a in env.world.listings
    ensures CheckForNewChildren(env, s, a) == FireAll(env, t, ds) && ds == Missing(env, s.fileMap[a].children, a)
    ensures t.deleteStack == s.deleteStack && t.fileMap.Keys == s.fileMap.Keys
    ensures forall x :: x in s.fileMap && x != a ==> t.fileMap[x] == s.fileMap[x]
  {
    var e := s.fileMap[a];
    var children := if e.children == None && env.world.listings[a] == [] then None else Some(Current(env, a));
    t, ds := SetEntry(s, a, e.(children := children)), Missing(env, e.children, a);
  }

  lemma MissingExist(env: Env, recorded: Option<set<Path>>, a: Path)
    requires WellFormed(env.world) && a in env.world.listings
    ensures forall d :: d in Missing(env, recorded, a) ==> d in env.world.files
  {
    forall d | d in Missing(env, recorded, a)
      ensures d in env.world.files
    {
      assert d in env.world.listings[a];
    }
  }

  lemma NewChildRegistered(env: Env, s: State, a: Path, d: Path, q: Path) returns (t: State)
    requires WellFormed(env.world) && FoundNew(env, s.fileMap, a, d) && Brings(env, d, q) && q !in s.fileMap
    ensures t == CheckForNewChildren(env, s, a) && t.deleteStack == s.deleteStack
    ensures q in t.fileMap && t.fileMap[q] == Fresh(env, q)
    ensures forall x :: x in s.fileMap && x != a ==> x in t.fileMap && t.fileMap[x] == s.fileMap[x]
  {
    var u, ds := ChildrenNoted(env, s, a);
    MissingExist(env, s.fileMap[a].children, a);
    assert d in ds;
    t := FireAllGrows(env, u, ds);
  }

  /** A check of a folder registers what arrives with a new child. */
  lemma ArrivalRegistered(env: Env, now: int, s: State, a: Path, d: Path, q: Path) returns (t: State)
    requires WellFormed(env.world) && FoundNew(env, s.fileMap, a, d) && Brings(env, d, q) && s.removePaths == []
    requires q !in s.fileMap
    ensures t == Check(env, now, s, a) && t.deleteStack == s.deleteStack
    ensures q in t.fileMap && t.fileMap[q] == Fresh(env, q)
    ensures forall x :: x in s.fileMap && x != a ==> x in t.fileMap && t.fileMap[x] == s.fileMap[x]
  {
    var u := FolderRefreshed(env, now, s, a);
    assert FoundNew(env, u.fileMap, a, d);
    t := NewChildRegistered(env, u, a, d, q);
  }

  lemma FolderRefreshed(env: Env, now: int, s: State, a: Path) returns (t: State)
    requires WellFormed(env.world) && a in s.fileMap && a in env.world.listings && s.removePaths == []
    ensures t.deleteStack == s.deleteStack && t.fileMap.Keys == s.fileMap.Keys
    ensures forall x :: x in s.fileMap ==>
              t.fileMap[x].children == s.fileMap[x].children && (x != a ==> t.fileMap[x] == s.fileMap[x])
    ensures Check(env, now, s, a) == CheckForNewChildren(env, t, a)
  {
    assert !InRemovePaths(env, s, a);
    t := CheckSelf(env, now, s, a);
    assert !InRemovePaths(env, t, a);
  }

  lemma HinderedFails(env: Env, s: State, c: Path, now: int) returns (visits: seq<Visit>)
    requires WellFormed(env.world) && s.deleteStack == [] && s.removePaths == []
    requires c in s.fileMap && s.fileMap[c].present && Leftover(env, c) && !Safe(env, s.fileMap, c)
    ensures !CheckAll(env, s, visits).completed
  {
    var folder := c[..|c| - 1];
    visits := [Visit(c, now), Visit(c, now)];
    if folder in s.fileMap {
      LeftoverFails(env, s, c, now, Visit(c, now));
    } else {
      var a, d :| FoundNew(env, s.fileMap, a, d) && Brings(env, d, folder);
      var t := ArrivalRegistered(env, now, s, a, d, folder);
      LeftoverFails(env, t, c, now, Visit(c, now));
      assert Turn(env, s, Visit(a, now)) == Run(t, true);
      assert ([Visit(a, now)] + visits)[1..] == visits;
      visits := [Visit(a, now)] + visits;
    }
  }

  /*** Whole passes ***/

  function RemovableAmong(env: Env, stack: seq<Path>): set<Path>
  {
    set q | q in stack && Removable(env, q)
  }

  /** The queued removals are made, and in the map without their files no leftover has
      a bare folder. */
  ghost predicate Passable(env: Env, s: State)
  {
    && AllCleared(RemovableAmong(env, s.deleteStack), s.fileMap, s.deleteStack)
    && Unhindered(env, Without(s.fileMap, RemovedOf(env, s.fileMap, s.deleteStack)))
  }

  function RemovedOf(env: Env, m: Files, stack: seq<Path>): set<Path>
  {
    set q | q in stack && q in m && Removable(env, q)
  }

  /** The children of `p` that are not among the removed files. */
  function Remaining(children: set<Path>, gone: set<Path>, p: Path): set<Path>
  {
    set c | c in children && !(c in gone && c != [] && c[..|c| - 1] == p)
  }

  function Shortened(e: Entry, gone: set<Path>, p: Path): Entry
  {
    if e.children == None then e else e.(children := Some(Remaining(e.children.value, gone, p)))
  }

  /** The map without the removed files, nor they in the children sets of their folders. */
  function Without(m: Files, gone: set<Path>): Files
  {
    map p | p in m && p !in gone :: Shortened(m[p], gone, p)
  }

  lemma NothingRemoved(m: Files)
    ensures Without(m, {}) == m
  {
    forall p | p in m
      ensures Shortened(m[p], {}, p) == m[p]
    {
      assert m[p].children.Some? ==> Remaining(m[p].children.value, {}, p) == m[p].children.value;
    }
  }

  lemma OneRemoved(env: Env, m: Files, q: Path)
    requires RemoveFile(env, m, q).1 && Removable(env, q) && q in m
    ensures RemoveFile(env, m, q).0 == Without(m, {q})
  {
    var n := RemoveFile(env, m, q).0;
    forall p | p in m && p != q
      ensures p in n && n[p] == Shortened(m[p], {q}, p)
    {
      if m[p].children.Some? {
        var children := m[p].children.value;
        assert Remaining(children, {q}, p) == if q != [] && q[..|q| - 1] == p then children - {q} else children;
      }
    }
  }

  lemma RemovedInTwo(m: Files, a: set<Path>, b: set<Path>)
    ensures Without(Without(m, a), b) == Without(m, a + b)
  {
    forall p | p in m
      ensures Shortened(Shortened(m[p], a, p), b, p) == Shortened(m[p], a + b, p)
    {
      if m[p].children.Some? {
        var children := m[p].children.value;
        assert Remaining(Remaining(children, a, p), b, p) == Remaining(children, a + b, p);
      }
    }
  }

  /** The last of the stack is removed before the others. */
  lemma RemovedLast(env: Env, m: Files, stack: seq<Path>, last: set<Path>)
    requires stack != [] && last == RemovedOf(env, m, [stack[|stack| - 1]])
    ensures last + RemovedOf(env, Without(m, last), stack[..|stack| - 1]) == RemovedOf(env, m, stack)
  {
    assert stack == stack[..|stack| - 1] + [stack[|stack| - 1]];
  }

  lemma RemovalIs(env: Env, m: Files, q: Path)
    requires RemoveFile(env, m, q).1
    ensures RemoveFile(env, m, q).0 == Without(m, RemovedOf(env, m, [q]))
  {
    if q in m && Removable(env, q) {
      assert RemovedOf(env, m, [q]) == {q};
      OneRemoved(env, m, q);
    } else {
      assert RemovedOf(env, m, [q]) == {};
      NothingRemoved(m);
    }
  }

  lemma {:induction false} DrainEmpties(env: Env, s: State) returns (t: State)
    requires Drain(env, s).completed
    ensures t == Drain(env, s).s && t.deleteStack == [] && t.removeListStack == s.removeListStack
    ensures t.fileMap == Without(s.fileMap, RemovedOf(env, s.fileMap, s.deleteStack))
    decreases |s.deleteStack|
  {
    t := s;
    if s.deleteStack == [] {
      NothingRemoved(s.fileMap);
      assert RemovedOf(env, s.fileMap, []) == {};
    } else {
      var u, q, ok := DrainOne(env, s);
      t := DrainEmpties(env, u);
      RemovalIs(env, s.fileMap, q);
      var last := RemovedOf(env, s.fileMap, [q]);
      RemovedLast(env, s.fileMap, s.deleteStack, last);
      RemovedInTwo(s.fileMap, last, RemovedOf(env, u.fileMap, u.deleteStack));
    }
  }

  /** Where no removal of a path is queued, every pass comes to its end, by whatever
      names it goes, if and only if the queued removals are made and no leftover has,
      or comes to have, a bare folder. */
  lemma PassCompletes(env: Env, s: State)
    requires WellFormed(env.world) && s.removeListStack == []
    ensures (forall visits :: Pass(env, s, visits).completed) <==> Passable(env, s)
  {
    var completed := DrainCompletes(env, s, RemovableAmong(env, s.deleteStack));
    if completed {
      var d := DrainEmpties(env, s);
      var t := TakeRemovePaths(d);
      if Unhindered(env, t.fileMap) {
        forall visits
          ensures Pass(env, s, visits).completed
        {
          CheckAllSmooth(env, t, visits);
        }
      } else {
        var c :| c in t.fileMap && t.fileMap[c].present && Leftover(env, c) && !Safe(env, t.fileMap, c);
        var visits := HinderedFails(env, t, c, 0);
        assert !Pass(env, s, visits).completed;
      }
    } else {
      assert !Pass(env, s, []).completed;
    }
  }

  lemma UnwatchedLeftover(env: Env, c: Path)
    requires env.profile.included == {} && env.profile.extensions == {}
    requires c !in env.world.files && c !in env.world.broken
    ensures Leftover(env, c)
  {}

  lemma LostInBareFolder(env: Env, s: State, b: Path, v: Visit) returns (r: Run)
    requires s.deleteStack == [] && b in s.fileMap && s.fileMap[b].present && InBare(s.fileMap, b) && Leftover(env, b)
    ensures r == Pass(env, s, [Visit(b, 0), v]) && !r.completed
  {
    LeftoverFails(env, TakeRemovePaths(s), b, 0, v);
    assert Drain(env, s) == Run(s, true);
    r := Pass(env, s, [Visit(b, 0), v]);
  }

  /** An input that fails: folder "a" could not be listed when it was registered, and its
      subfolder "b" is gone. */
  lemma BareFolderEndsPass(v: Visit) returns (env: Env, s: State, b: Path)
    ensures env == Env(Profile({}, {}, {}), World(map[["a"] := Node(true, 0)], map[], {}), 0) && b == ["a", "b"]
    ensures s == State(map[["a"] := Entry(true, 0, None), b := Entry(true, 0, None)], [], [], [], [], Counts(0, 0, 0), [])
    ensures WellFormed(env.world) && !Pass(env, s, [Visit(b, 0), v]).completed
  {
    b := ["a", "b"];
    env := Env(Profile({}, {}, {}), World(map[["a"] := Node(true, 0)], map[], {}), 0);
    s := State(map[["a"] := Entry(true, 0, None), b := Entry(true, 0, None)], [], [], [], [], Counts(0, 0, 0), []);
    UnwatchedLeftover(env, b);
    assert b[..|b| - 1] == ["a"];
    var r := LostInBareFolder(env, s, b, v);
  }

  /*** Removals queued for the next pass ***/

  lemma {:induction false} FireAllLeavesQueue(env: Env, s: State, ps: seq<Path>)
    ensures FireAll(env, s, ps).removeListStack == s.removeListStack
    decreases |ps|
  {
    if ps != [] {
      var t := FireCreated(env, s, ps[0]);
      FireAllLeavesQueue(env, t.(addStack := t.addStack + [ps[0]]), ps[1..]);
    }
  }

  lemma ChildrenLeaveQueue(env: Env, s: State, p: Path)
    requires p in s.fileMap
    ensures CheckForNewChildren(env, s, p).removeListStack == s.removeListStack
  {
    if p in env.world.listings {
      var e := s.fileMap[p];
      var children := if e.children == None && env.world.listings[p] == [] then None else Some(Current(env, p));
      FireAllLeavesQueue(env, SetEntry(s, p, e.(children := children)), Missing(env, e.children, p));
    }
  }

  lemma CheckLeavesQueue(env: Env, now: int, s: State, p: Path)
    requires p in s.fileMap
    ensures Check(env, now, s, p).removeListStack == s.removeListStack
  {
    if p !in env.world.broken && p in env.world.files {
      var t := CheckSelf(env, now, s, p);
      assert t.removeListStack == s.removeListStack;
      if p in t.fileMap {
        ChildrenLeaveQueue(env, t, p);
      }
    }
  }

  lemma {:induction false} DrainLeavesQueue(env: Env, s: State)
    ensures Drain(env, s).s.removeListStack == s.removeListStack
    decreases |s.deleteStack|
  {
    if s.deleteStack != [] {
      var last := |s.deleteStack| - 1;
      var (m, ok) := RemoveFile(env, s.fileMap, s.deleteStack[last]);
      if ok {
        DrainLeavesQueue(env, s.(deleteStack := s.deleteStack[..last], fileMap := m));
      }
    }
  }

  lemma TurnLeavesQueue(env: Env, s: State, v: Visit)
    ensures Turn(env, s, v).s.removeListStack == s.removeListStack
  {
    DrainLeavesQueue(env, s);
    var d := Drain(env, s).s;
    if v.path in d.fileMap {
      CheckLeavesQueue(env, v.time, d, v.path);
    }
  }

  lemma {:induction false} AddQueuedLeavesQueue(env: Env, s: State)
    ensures AddQueued(env, s).removeListStack == s.removeListStack
    decreases |s.addStack|
  {
    if s.addStack != [] {
      var last := |s.addStack| - 1;
      var p := s.addStack[last];
      var m := if Eligible(env.profile.extensions, p) then AddFile(env, s.fileMap, p) else s.fileMap;
      AddQueuedLeavesQueue(env, s.(addStack := s.addStack[..last], fileMap := m));
    }
  }

  /*** Passes that end early do not go on for ever ***/

  /** A pass that ends early has taken a vanished file out of the map. */
  lemma {:induction false} CheckAllHeals(env: Env, s: State, visits: seq<Visit>) returns (t: State)
    requires WellFormed(env.world) && AllGone(env, s.deleteStack) && s.removePaths == []
    requires !CheckAll(env, s, visits).completed
    ensures t == CheckAll(env, s, visits).s && Gone(env, t.fileMap) < Gone(env, s.fileMap)
    ensures AllGone(env, t.deleteStack)
    decreases |visits|
  {
    var u := TurnMilder(env, s, visits[0]);
    t := u;
    if Turn(env, s, visits[0]).completed {
      t := CheckAllHeals(env, u, visits[1..]);
    }
  }

  lemma TurnMilder(env: Env, s: State, v: Visit) returns (t: State)
    requires WellFormed(env.world) && AllGone(env, s.deleteStack) && s.removePaths == []
    ensures t == Turn(env, s, v).s && AllGone(env, t.deleteStack) && t.removePaths == []
    ensures Gone(env, t.fileMap) <= Gone(env, s.fileMap)
    ensures !Turn(env, s, v).completed ==> Gone(env, t.fileMap) < Gone(env, s.fileMap)
  {
    t := DrainMilder(env, s);
    if Drain(env, s).completed && v.path in t.fileMap {
      var u := t;
      t := CheckMilder(env, v.time, u, v.path);
    }
  }

  /** One pass after the other in a file system that stands still. */
  function Repeated(env: Env, s: State, tries: seq<seq<Visit>>): State
    decreases |tries|
  {
    if tries == [] then s else Repeated(env, Pass(env, s, tries[0]).s, tries[1..])
  }

  /** Nothing is queued but removals of vanished files. */
  ghost predicate OnlyGoneQueued(env: Env, s: State)
  {
    s.removeListStack == [] && AllGone(env, s.deleteStack)
  }

  lemma {:induction false} CheckAllLeavesQueue(env: Env, s: State, visits: seq<Visit>)
    ensures CheckAll(env, s, visits).s.removeListStack == s.removeListStack
    decreases |visits|
  {
    if visits != [] {
      TurnLeavesQueue(env, s, visits[0]);
      CheckAllLeavesQueue(env, Turn(env, s, visits[0]).s, visits[1..]);
    }
  }

  lemma PassHeals(env: Env, s: State, visits: seq<Visit>) returns (t: State)
    requires WellFormed(env.world) && OnlyGoneQueued(env, s) && !Pass(env, s, visits).completed
    ensures t == Pass(env, s, visits).s && Gone(env, t.fileMap) < Gone(env, s.fileMap) && OnlyGoneQueued(env, t)
  {
    t := DrainMilder(env, s);
    if Drain(env, s).completed {
      var u := TakeRemovePaths(t);
      CheckAllLeavesQueue(env, u, visits);
      t := CheckAllHeals(env, u, visits);
    }
  }

  /** Of more passes than there are vanished files in the map one comes to its end,
      and until then nothing else is queued. */
  lemma {:induction false} SomePassCompletes(env: Env, s: State, tries: seq<seq<Visit>>) returns (k: nat)
    requires WellFormed(env.world) && OnlyGoneQueued(env, s) && |tries| > |Gone(env, s.fileMap)|
    ensures k <= |Gone(env, s.fileMap)| && OnlyGoneQueued(env, Repeated(env, s, tries[..k]))
    ensures Pass(env, Repeated(env, s, tries[..k]), tries[k]).completed
    decreases |tries|
  {
    if Pass(env, s, tries[0]).completed {
      k := 0;
    } else {
      var t := PassHeals(env, s, tries[0]);
      SubsetSize(Gone(env, t.fileMap), Gone(env, s.fileMap));
      var j := SomePassCompletes(env, t, tries[1..]);
      k := j + 1;
      assert tries[..k][0] == tries[0] && tries[..k][1..] == tries[1..][..j];
    }
  }
}
