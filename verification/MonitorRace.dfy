/** A run that ends a pass early: a folder is removed and comes back, unlistable, while
    the monitor still has an entry for what was in it. */
module MonitorRace {
  import opened Wrappers
  import opened FileTrees
  import opened MonitorModel
  import opened Crawling
  import opened MonitorCompletion
  import opened MonitorOutage

  /** Three folders, one in the other, of which the outermost is included. */
  ghost predicate Nested(g: Path, a: Path, b: Path)
  {
    a == g + ["a"] && b == a + ["b"]
  }

  const FOLDER := Node(true, 0)

  function Watching(g: Path, w: World): Env
  {
    Env(Profile({FolderText(g)}, {}, {}), w, 0)
  }

  function AllThere(g: Path, a: Path, b: Path): World
  {
    World(map[g := FOLDER, a := FOLDER, b := FOLDER], map[g := [a], a := [b], b := []], {})
  }

  function InnerGone(g: Path): World
  {
    World(map[g := FOLDER], map[g := []], {})
  }

  /** The middle folder is back, but cannot be listed. */
  function BackUnlistable(g: Path, a: Path): World
  {
    World(map[g := FOLDER, a := FOLDER], map[g := [a]], {})
  }

  lemma Lengths(g: Path, a: Path, b: Path)
    requires Nested(g, a, b)
    ensures |a| == |g| + 1 && |b| == |g| + 2 && IsChild(g, a) && IsChild(a, b) && g <= b
    ensures a[..|a| - 1] == g && b[..|b| - 1] == a && b[..|g|] == g
  {}

  /** A listing of folders, each one directly in the one before it. */
  lemma ChainWellFormed(g: Path, a: Path, b: Path, w: World)
    requires Nested(g, a, b) && w.broken == {} && w.files.Keys <= {g, a, b} && (b in w.files ==> a in w.files)
    requires forall p :: p in w.files ==> w.files[p] == FOLDER
    requires forall p :: p in w.listings ==> p in w.files && ListsChildren(w, p, w.listings[p])
    ensures WellFormed(w)
  {
    forall q, k | Cuts(q, k) && q in w.files && q[..k] in w.files
      ensures w.files[q[..k]].folder && q[..k + 1] in w.files
    {
      Lengths(g, a, b);
      assert |q[..k]| == k;
      assert q == b && k == |g| ==> q[..k + 1] == a;
      assert k + 1 == |q| ==> q[..k + 1] == q;
    }
  }

  lemma WorldsWellFormed(g: Path, a: Path, b: Path)
    requires Nested(g, a, b)
    ensures WellFormed(AllThere(g, a, b)) && WellFormed(InnerGone(g)) && WellFormed(BackUnlistable(g, a))
  {
    Lengths(g, a, b);
    assert !IsChild(g, b);
    ChainWellFormed(g, a, b, AllThere(g, a, b));
    ChainWellFormed(g, a, b, InnerGone(g));
    ChainWellFormed(g, a, b, BackUnlistable(g, a));
  }

  /** Both inner folders are watched through the outermost. */
  lemma WatchedThrough(g: Path, w: World, p: Path, name: string)
    requires g <= p && g in w.files
    ensures Removable(Watching(g, w), p + [name])
  {
    var q := p + [name];
    var included := {FolderText(g)};
    TextGrows(g, q);
    TextGrows(g, p);
    assert q[..|q| - 1] == p;
    StepsLast(q);
    assert |FolderText(q)| > |FolderText(p)| >= |FolderText(g)|;
    assert RootEntry(included, q) == Some(FolderText(g));
  }

  /*** Single turns ***/

  /** What matters of a state. */
  ghost predicate Stands(s: State, m: Files, deleteStack: seq<Path>, addStack: seq<Path>)
  {
    && s.fileMap == m && s.deleteStack == deleteStack && s.addStack == addStack
    && s.removeListStack == [] && s.removePaths == []
  }

  function Full(children: set<Path>): Entry
  {
    Entry(true, 0, Some(children))
  }

  lemma CurrentOf(env: Env, p: Path, children: seq<Path>)
    requires p in env.world.listings && env.world.listings[p] == children
    requires forall c :: c in children ==> IsFolder(env.world, c)
    ensures Current(env, p) == Members(children)
  {}

  /** A folder that exists and is up to date only has its children looked at. */
  lemma FolderTurn(g: Path, w: World, s: State, p: Path) returns (t: State)
    requires s.deleteStack == [] && s.removePaths == [] && p in s.fileMap && p in w.listings && p !in w.broken
    requires p in w.files && w.files[p] == FOLDER && s.fileMap[p].present && s.fileMap[p].timestamp == 0
    ensures TurnAt(s, Moment(Watching(g, w), [], Visit(p, 0))) == Run(t, true)
    ensures t == CheckForNewChildren(Watching(g, w), s, p)
  {
    var env := Watching(g, w);
    assert Queue(s, []) == s;
    assert !InRemovePaths(env, s, p);
    t := CheckForNewChildren(env, s, p);
    assert CheckSelf(env, 0, s, p) == s;
  }

  lemma FirstIn(s: seq<Path>)
    ensures s != [] ==> s[0] in s
  {}

  /** No new children are found. */
  lemma NothingNew(g: Path, w: World, s: State, p: Path)
    requires p in s.fileMap && p in w.listings && s.fileMap[p].children == Some(Current(Watching(g, w), p))
    ensures CheckForNewChildren(Watching(g, w), s, p) == s
  {
    var env := Watching(g, w);
    var missing := Missing(env, s.fileMap[p].children, p);
    FirstIn(missing);
    assert s.fileMap[p := s.fileMap[p]] == s.fileMap;
  }

  /** A vanished folder is marked and waits to be removed. */
  lemma GoneTurn(g: Path, w: World, s: State, p: Path) returns (t: State)
    requires s.deleteStack == [] && p in s.fileMap && p !in w.files && p !in w.broken && s.fileMap[p].present
    requires Removable(Watching(g, w), p)
    ensures TurnAt(s, Moment(Watching(g, w), [], Visit(p, 0))) == Run(t, true)
    ensures t.fileMap == s.fileMap[p := s.fileMap[p].(present := false)] && t.deleteStack == [p]
    ensures t.addStack == s.addStack && t.removePaths == s.removePaths && t.removeListStack == s.removeListStack
  {
    var env := Watching(g, w);
    assert Queue(s, []) == s;
    t := Drop(env, s, p);
  }

  /** A folder that has come back is registered, without children if it cannot be listed. */
  lemma OneNewChild(env: Env, s: State, g: Path, a: Path) returns (t: State)
    requires WellFormed(env.world) && env.profile.excluded == {} && |BaseName(a)| == 1
    requires g in s.fileMap && s.fileMap[g] == Full({}) && g in env.world.listings && env.world.listings[g] == [a]
    requires a in env.world.files && a !in env.world.listings && env.world.files[a] == FOLDER && a !in s.fileMap
    ensures t == CheckForNewChildren(env, s, g)
    ensures t.fileMap == s.fileMap[g := Full({a})][a := Entry(true, 0, None)] && t.addStack == s.addStack + [a]
    ensures t.deleteStack == s.deleteStack && t.removePaths == s.removePaths && t.removeListStack == s.removeListStack
  {
    CurrentOf(env, g, [a]);
    OneMissing(env, g, a);
    var v := SetEntry(s, g, Full({a}));
    assert Members([a]) == {a};
    assert CheckForNewChildren(env, s, g) == FireAll(env, v, [a]);
    t := OneCreated(env, v, a);
    OneFired(env, v, a);
  }

  lemma OneFired(env: Env, s: State, a: Path)
    ensures FireAll(env, s, [a]) == FireCreated(env, s, a).(addStack := FireCreated(env, s, a).addStack + [a])
  {
    var t := FireCreated(env, s, a);
    assert [a][1..] == [];
    assert FireAll(env, t.(addStack := t.addStack + [a]), []) == t.(addStack := t.addStack + [a]);
  }

  lemma BackThere(g: Path, a: Path, b: Path) returns (env: Env)
    requires Nested(g, a, b)
    ensures env == Watching(g, BackUnlistable(g, a)) && WellFormed(env.world) && env.profile.excluded == {}
    ensures g in env.world.listings && env.world.listings[g] == [a] && g in env.world.files && env.world.files[g] == FOLDER
    ensures a in env.world.files && a !in env.world.listings && env.world.files[a] == FOLDER
    ensures b !in env.world.files && env.world.broken == {}
  {
    Lengths(g, a, b);
    WorldsWellFormed(g, a, b);
    env := Watching(g, BackUnlistable(g, a));
  }

  lemma BackMap(g: Path, a: Path, b: Path)
    requires Nested(g, a, b)
    ensures map[g := Full({}), b := Full({})][g := Full({a})][a := Entry(true, 0, None)]
            == map[g := Full({a}), a := Entry(true, 0, None), b := Full({})]
  {
    Lengths(g, a, b);
  }

  lemma BackTurn(g: Path, a: Path, b: Path, s: State, env: Env) returns (t: State)
    requires Nested(g, a, b) && Stands(s, map[g := Full({}), b := Full({})], [], [])
    requires env == Watching(g, BackUnlistable(g, a))
    ensures TurnAt(s, Moment(env, [], Visit(g, 0))) == Run(t, true)
    ensures Stands(t, map[g := Full({a}), a := Entry(true, 0, None), b := Full({})], [], [a])
  {
    Lengths(g, a, b);
    var e := BackThere(g, a, b);
    var u := FolderTurn(g, e.world, s, g);
    t := OneNewChild(e, s, g, a);
    BackMap(g, a, b);
  }

  lemma OneMissing(env: Env, g: Path, a: Path)
    requires g in env.world.listings && env.world.listings[g] == [a] && IsFolder(env.world, a)
    ensures Missing(env, Some({}), g) == [a]
  {
    assert [a][1..] == [];
    assert Worthy(env, []) == [] && Worthy(env, [a]) == [a];
    assert Unknown([], {}) == [] && Unknown([a], {}) == [a];
    assert Reversed<Path>([]) == [] && Reversed([a]) == [a];
  }

  lemma OneCreated(env: Env, s: State, a: Path) returns (t: State)
    requires WellFormed(env.world) && env.profile.excluded == {} && |BaseName(a)| == 1
    requires a in env.world.files && a !in env.world.listings && env.world.files[a] == FOLDER && a !in s.fileMap
    ensures t == FireCreated(env, s, a).(addStack := FireCreated(env, s, a).addStack + [a])
    ensures t.fileMap == s.fileMap[a := Entry(true, 0, None)] && t.addStack == s.addStack + [a]
    ensures t.deleteStack == s.deleteStack && t.removePaths == s.removePaths && t.removeListStack == s.removeListStack
  {
    assert !IsTemporary(a);
    VisitedLeaf(env, a);
    RegisteredOne(env, s.fileMap, a);
    t := FireCreated(env, s, a);
    t := t.(addStack := t.addStack + [a]);
  }

  /** A folder that cannot be listed is left as it is. */
  lemma UnlistableTurn(g: Path, w: World, s: State, p: Path)
    requires s.deleteStack == [] && s.removePaths == [] && p in s.fileMap && p !in w.listings && p !in w.broken
    requires p in w.files && w.files[p] == FOLDER && s.fileMap[p].present && s.fileMap[p].timestamp == 0
    ensures TurnAt(s, Moment(Watching(g, w), [], Visit(p, 0))) == Run(s, true)
  {
    var env := Watching(g, w);
    assert Queue(s, []) == s;
    assert !InRemovePaths(env, s, p);
    assert CheckSelf(env, 0, s, p) == s;
  }

  /*** The run ***/

  lemma AllThereFacts(g: Path, a: Path, b: Path) returns (env: Env)
    requires Nested(g, a, b)
    ensures env == Watching(g, AllThere(g, a, b)) && WellFormed(env.world) && env.world.broken == {}
    ensures forall p :: p in {g, a, b} ==> p in env.world.files && env.world.files[p] == FOLDER && p in env.world.listings
    ensures Current(env, g) == {a} && Current(env, a) == {b} && Current(env, b) == {}
  {
    Lengths(g, a, b);
    WorldsWellFormed(g, a, b);
    env := Watching(g, AllThere(g, a, b));
    CurrentOf(env, g, [a]);
    CurrentOf(env, a, [b]);
    CurrentOf(env, b, []);
  }

  lemma InnerGoneFacts(g: Path, a: Path, b: Path) returns (env: Env)
    requires Nested(g, a, b)
    ensures env == Watching(g, InnerGone(g)) && WellFormed(env.world) && env.world.broken == {}
    ensures g in env.world.files && a !in env.world.files && b !in env.world.files
  {
    Lengths(g, a, b);
    WorldsWellFormed(g, a, b);
    env := Watching(g, InnerGone(g));
  }

  lemma OutermostUnchanged(g: Path, a: Path, b: Path, s: State, there: Env)
    requires Nested(g, a, b) && there == Watching(g, AllThere(g, a, b))
    requires s.deleteStack == [] && s.removePaths == [] && g in s.fileMap && s.fileMap[g] == Full({a})
    ensures TurnAt(s, Moment(there, [], Visit(g, 0))) == Run(s, true)
  {
    var e := AllThereFacts(g, a, b);
    var u := FolderTurn(g, e.world, s, g);
    NothingNew(g, e.world, s, g);
  }

  /** The middle folder is gone for a moment. */
  lemma MiddleGone(g: Path, a: Path, b: Path, s: State, gone: Env) returns (t: State)
    requires Nested(g, a, b) && Stands(s, map[g := Full({a}), a := Full({b}), b := Full({})], [], [])
    requires gone == Watching(g, InnerGone(g))
    ensures TurnAt(s, Moment(gone, [], Visit(a, 0))) == Run(t, true)
    ensures Stands(t, map[g := Full({a}), a := Full({b}).(present := false), b := Full({})], [a], [])
  {
    Lengths(g, a, b);
    var f := InnerGoneFacts(g, a, b);
    WatchedThrough(g, f.world, g, "a");
    t := GoneTurn(g, f.world, s, a);
    MiddleMarked(g, a, b);
  }

  lemma MiddleMarked(g: Path, a: Path, b: Path)
    requires Nested(g, a, b)
    ensures map[g := Full({a}), a := Full({b}), b := Full({})][a := Full({b}).(present := false)]
            == map[g := Full({a}), a := Full({b}).(present := false), b := Full({})]
  {
    Lengths(g, a, b);
  }

  lemma TurnAfterDrain(s: State, u: State, m: Moment)
    requires m.queued == [] && Drain(m.env, s) == Run(u, true) && u.deleteStack == []
    ensures TurnAt(s, m) == TurnAt(u, m)
  {
    assert Queue(s, []) == s && Queue(u, []) == u;
  }

  /** The middle folder leaves the map, and the innermost one, there again, does not. */
  lemma MiddleRemoved(g: Path, a: Path, b: Path, s: State, there: Env) returns (t: State)
    requires Nested(g, a, b) && there == Watching(g, AllThere(g, a, b))
    requires Stands(s, map[g := Full({a}), a := Full({b}).(present := false), b := Full({})], [a], [])
    ensures TurnAt(s, Moment(there, [], Visit(b, 0))) == Run(t, true)
    ensures Stands(t, map[g := Full({}), b := Full({})], [], [])
  {
    Lengths(g, a, b);
    var e := AllThereFacts(g, a, b);
    WatchedThrough(g, e.world, g, "a");
    t := MiddleDrained(g, a, b, s, e);
    TurnAfterDrain(s, t, Moment(e, [], Visit(b, 0)));
    var u := FolderTurn(g, e.world, t, b);
    NothingNew(g, e.world, t, b);
  }

  lemma MiddleDrained(g: Path, a: Path, b: Path, s: State, env: Env) returns (t: State)
    requires Nested(g, a, b) && Removable(env, a)
    requires Stands(s, map[g := Full({a}), a := Full({b}).(present := false), b := Full({})], [a], [])
    ensures Drain(env, s) == Run(t, true) && Stands(t, map[g := Full({}), b := Full({})], [], [])
  {
    Lengths(g, a, b);
    var q, ok;
    t, q, ok := DrainOne(env, s);
    var m := s.fileMap - {a};
    assert m == map[g := Full({a}), b := Full({})];
    assert {a} - {a} == {};
    assert m[g := Full({})] == map[g := Full({}), b := Full({})];
  }

  lemma ThreeMoments(s: State, m0: Moment, m1: Moment, m2: Moment, t0: State, t1: State, t2: State)
    requires TurnAt(s, m0) == Run(t0, true) && TurnAt(t0, m1) == Run(t1, true) && TurnAt(t1, m2) == Run(t2, true)
    ensures CheckMoments(s, [m0, m1, m2]) == Run(t2, true)
  {
    assert [m0, m1, m2][1..] == [m1, m2] && [m1, m2][1..] == [m2] && [m2][1..] == [];
    assert CheckMoments(t2, []) == Run(t2, true);
    assert CheckMoments(t1, [m2]) == Run(t2, true);
    assert CheckMoments(t0, [m1, m2]) == Run(t2, true);
  }

  lemma PassOf(s: State, round: Round, t: State)
    requires s.deleteStack == [] && s.removeListStack == [] && s.removePaths == [] && round.queued == []
    requires CheckMoments(s, round.moments) == Run(t, true)
    ensures RoundPass(s, round) == Run(AddQueued(round.last, t), true)
  {
    assert Queue(s, []) == s;
    assert TakeRemovePaths(s) == s;
  }

  /** The names are gone by in order; while the middle one is, the two inner folders are
      not there. */
  function FirstRound(g: Path, a: Path, b: Path): Round
  {
    var there, gone := Watching(g, AllThere(g, a, b)), Watching(g, InnerGone(g));
    Round([], there, [Moment(there, [], Visit(g, 0)), Moment(gone, [], Visit(a, 0)), Moment(there, [], Visit(b, 0))], there)
  }

  /** The middle folder is there but cannot be listed, the innermost is gone. */
  function SecondRound(g: Path, a: Path, b: Path): Round
  {
    var env := Watching(g, BackUnlistable(g, a));
    Round([], env, [Moment(env, [], Visit(g, 0)), Moment(env, [], Visit(a, 0)), Moment(env, [], Visit(b, 0))], env)
  }

  lemma FirstPass(g: Path, a: Path, b: Path, s: State) returns (t: State)
    requires Nested(g, a, b) && Stands(s, map[g := Full({a}), a := Full({b}), b := Full({})], [], [])
    ensures RoundPass(s, FirstRound(g, a, b)) == Run(t, true) && Stands(t, map[g := Full({}), b := Full({})], [], [])
  {
    var there, gone := Watching(g, AllThere(g, a, b)), Watching(g, InnerGone(g));
    Lengths(g, a, b);
    OutermostUnchanged(g, a, b, s, there);
    var u := MiddleGone(g, a, b, s, gone);
    t := MiddleRemoved(g, a, b, u, there);
    ThreeMoments(s, Moment(there, [], Visit(g, 0)), Moment(gone, [], Visit(a, 0)), Moment(there, [], Visit(b, 0)), s, u, t);
    PassOf(s, FirstRound(g, a, b), t);
    assert AddQueued(there, t) == t;
  }

  lemma SecondPass(g: Path, a: Path, b: Path, s: State) returns (t: State)
    requires Nested(g, a, b) && Stands(s, map[g := Full({}), b := Full({})], [], [])
    ensures RoundPass(s, SecondRound(g, a, b)) == Run(t, true)
    ensures a in t.fileMap && t.fileMap[a].children == None && b in t.fileMap && t.deleteStack == [b]
  {
    Lengths(g, a, b);
    var env := BackThere(g, a, b);
    var u := BackTurn(g, a, b, s, env);
    UnlistableTurn(g, env.world, u, a);
    WatchedThrough(g, env.world, a, "b");
    var v := GoneTurn(g, env.world, u, b);
    ThreeMoments(s, Moment(env, [], Visit(g, 0)), Moment(env, [], Visit(a, 0)), Moment(env, [], Visit(b, 0)), u, u, v);
    PassOf(s, SecondRound(g, a, b), v);
    t := OneNotEligible(env, v, a);
  }

  lemma OneNotEligible(env: Env, s: State, a: Path) returns (t: State)
    requires env.profile.extensions == {} && s.addStack == [a]
    ensures t == AddQueued(env, s) && t == s.(addStack := [])
  {
    t := s.(addStack := []);
    assert s.addStack[..0] == [];
    assert AddQueued(env, t) == t;
  }

  /** A run that ends a pass early: from a map in agreement with the files two passes go
      by all names and come to their end, and the third fails before it has begun. */
  lemma RaceEndsPass(g: Path, a: Path, b: Path, s: State, moments: seq<Moment>) returns (t: State)
    requires Nested(g, a, b) && Stands(s, map[g := Full({a}), a := Full({b}), b := Full({})], [], [])
    ensures t == Rounds(s, [FirstRound(g, a, b), SecondRound(g, a, b)])
    ensures
      var env := Watching(g, BackUnlistable(g, a));
      WellFormed(env.world) && !RoundPass(t, Round([], env, moments, env)).completed
  {
    Lengths(g, a, b);
    var u := FirstPass(g, a, b, s);
    t := SecondPass(g, a, b, u);
    var rounds := [FirstRound(g, a, b), SecondRound(g, a, b)];
    assert rounds[1..] == [SecondRound(g, a, b)] && rounds[1..][1..] == [];
    assert Rounds(t, []) == t && Rounds(u, rounds[1..]) == t;
    var env := BackThere(g, a, b);
    WatchedThrough(g, env.world, a, "b");
    RemovalFails(env, t.fileMap, b);
    assert Queue(t, []) == t;
    var v, q, ok := DrainOne(env, t);
  }

  lemma AllVisited(g: Path, a: Path, b: Path, env: Env)
    requires Nested(g, a, b) && env.profile.excluded == {} && env.world.files.Keys == {g, a, b}
    requires g in env.world.listings && a in env.world.listings
    ensures Visited(env, g) == {g, a, b}
  {
    Lengths(g, a, b);
    assert a[..|g|] == g && b[..|g|] == g && b[..|g| + 1] == a;
  }

  lemma ThreeRegistered(g: Path, a: Path, b: Path, env: Env)
    requires Nested(g, a, b)
    requires forall p :: p in {g, a, b} ==> p in env.world.files && env.world.files[p] == FOLDER && p in env.world.listings
    requires Current(env, g) == {a} && Current(env, a) == {b} && Current(env, b) == {}
    ensures Registered(env, map[], {g, a, b}) == map[g := Full({a}), a := Full({b}), b := Full({})]
  {
    Lengths(g, a, b);
  }

  /** The map at the start is what a crawl makes of the folders. */
  lemma StartRegistered(g: Path, a: Path, b: Path) returns (env: Env)
    requires Nested(g, a, b)
    ensures env == Watching(g, AllThere(g, a, b))
    ensures Registered(env, map[], Visited(env, g)) == map[g := Full({a}), a := Full({b}), b := Full({})]
  {
    env := AllThereFacts(g, a, b);
    AllVisited(g, a, b, env);
    ThreeRegistered(g, a, b, env);
  }
}
