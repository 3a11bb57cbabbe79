/** The watcher's crawl and the polling file monitor, as the methods that change them. */
module FileMonitors {
  import opened Wrappers
  import opened StringOrder
  import opened FileTrees
  import opened MonitorModel
  import opened Crawling

  datatype Action = ADD | UPDATE | DELETE

  /*** Facts about single steps of the loops ***/

  /** In sorted order the shortest root comes first. */
  lemma FirstRootIsShortest(included: set<string>, names: seq<string>, i: nat, text: string)
    requires names == Listing(included) && i < |names| && names[i] <= text
    requires forall j :: 0 <= j < i ==> !(names[j] <= text)
    ensures RootFrom(included, text, 0) == Some(names[i])
  {
    assert names[i] in included;
    var r := RootFrom(included, text, 0).value;
    SharedPrefix(r, names[i], text);
    var k :| 0 <= k < |names| && names[k] == r;
    if r != names[i] {
      PrefixBefore(r, names[i]);
      if i < k {
        BeforeAsymmetric(names[i], names[k]);
      }
    }
  }

  lemma NoRoot(included: set<string>, names: seq<string>, text: string)
    requires names == Listing(included)
    requires forall j :: 0 <= j < |names| ==> !(names[j] <= text)
    ensures RootFrom(included, text, 0) == None
  {
    assert forall f :: f in included ==> f in names;
  }

  function Subtree(w: World, p: Path): set<Path>
  {
    set q | q in w.files && p <= q
  }

  lemma ChildSubtree(w: World, p: Path, i: nat)
    requires WellFormed(w) && p in w.listings && i < |w.listings[p]|
    ensures Subtree(w, w.listings[p][i]) < Subtree(w, p)
  {
    var c := w.listings[p][i];
    assert IsChild(p, c);
    assert p in Subtree(w, p) && p !in Subtree(w, c);
  }

  lemma AddedOne(env: Env, g: Registry, p: Path)
    requires p in env.world.files
    ensures AddTree(env, g, {p})
            == Registry(if Monitorable(env.profile.extensions, env.world, p) then AddFile(env, g.files, p) else g.files,
                        CountOne(env, g.counts, p))
  {
    RegisteredOne(env, g.files, p);
    CountedOne(env, g.counts, p);
  }

  function CountOne(env: Env, c: Counts, p: Path): Counts
  {
    if IsFolder(env.world, p) then c.(folders := c.folders + 1)
    else if Eligible(env.profile.extensions, p) then c.(files := c.files + 1, encountered := c.encountered + 1)
    else c.(encountered := c.encountered + 1)
  }

  /** What a crawl of folder `p` has visited before each of its first `n` children
      and after them. */
  ghost function SeenSteps(env: Env, p: Path, n: nat): (r: seq<set<Path>>)
    requires p in env.world.listings && n <= |env.world.listings[p]|
    ensures |r| == n + 1
  {
    (if n == 0 then [] else SeenSteps(env, p, n - 1)) + [Seen(env, p, n)]
  }

  lemma {:induction false} StepIsSeen(env: Env, p: Path, n: nat, i: nat) returns (seen: set<Path>)
    requires p in env.world.listings && i <= n <= |env.world.listings[p]|
    ensures seen == SeenSteps(env, p, n)[i]
    ensures seen == Seen(env, p, i)
  {
    if i < n {
      seen := StepIsSeen(env, p, n - 1, i);
    } else {
      seen := Seen(env, p, i);
    }
  }

  /** One more child of a folder that is being crawled. */
  lemma OneMoreChild(env: Env, g: Registry, p: Path, i: nat, now: Registry) returns (done: set<Path>, more: set<Path>)
    requires WellFormed(env.world) && p in env.world.listings && i < |env.world.listings[p]|
    requires now == AddTree(env, g, SeenSteps(env, p, |env.world.listings[p]|)[i])
    ensures more == SeenSteps(env, p, |env.world.listings[p]|)[i + 1]
    ensures Add(env, now, env.world.listings[p][i]) == AddTree(env, g, more)
  {
    var n, tree := |env.world.listings[p]|, Visited(env, env.world.listings[p][i]);
    done := StepIsSeen(env, p, n, i);
    more := StepIsSeen(env, p, n, i + 1);
    SeenApart(env, p, i);
    RegisteredInTwo(env, g.files, done, tree);
    CountedInTwo(env, g.counts, done, tree);
  }

  class Watcher {
    var includedFolders: set<string>
    var excludedFolders: set<string>
    var includedExtns: set<string>
    var registeredFolderCount: int
    var registeredFileCount: int
    var encounteredFileCount: int

    constructor (included: set<string>, excluded: set<string>, extensions: set<string>)
      ensures CurrentProfile() == Profile(included, excluded, extensions)
      ensures CurrentCounts() == Counts(0, 0, 0)
    {
      includedFolders, excludedFolders, includedExtns := included, excluded, extensions;
      registeredFolderCount, registeredFileCount, encounteredFileCount := 0, 0, 0;
    }

    function CurrentProfile(): Profile
      reads this
    {
      Profile(includedFolders, excludedFolders, includedExtns)
    }

    function CurrentCounts(): Counts
      reads this
    {
      Counts(registeredFolderCount, registeredFileCount, encounteredFileCount)
    }

    /*** Roots ***/

    /** The first included folder that the name starts with. */
    method GetRootEntry(p: Path) returns (root: Option<string>)
      ensures root == RootEntry(includedFolders, p)
    {
      var names := Enumerate(includedFolders);
      for i := 0 to |names|
        invariant forall j :: 0 <= j < i ==> !(names[j] <= FolderText(p))
      {
        if names[i] <= FolderText(p) {
          FirstRootIsShortest(includedFolders, names, i, FolderText(p));
          return Some(names[i]);
        }
      }
      NoRoot(includedFolders, names, FolderText(p));
      root := None;
    }

    method IsRootEntryAccessible(w: World, p: Path, notFoundDefault: bool) returns (accessible: bool)
      ensures accessible == match RootEntry(includedFolders, p)
                            case Some(r) => Exists(w, r)
                            case None => notFoundDefault
    {
      var root := GetRootEntry(p);
      accessible := if root.Some? then Exists(w, root.value) else notFoundDefault;
    }

    /*** Processing one file for a monitor ***/

    /** ADD is called with the test for exclusion, the other actions without. */
    method ProcessFile(m: FileMonitor, w: World, p: Path, action: Action, checkExcludedPaths: bool)
      requires m.watcher == this && WellFormed(w)
      modifies this`registeredFolderCount, this`registeredFileCount, this`encounteredFileCount, m`fileMap
      ensures action == ADD && checkExcludedPaths ==> m.Registered() == Add(old(m.Here(w)), old(m.Registered()), p)
      ensures action == DELETE && !checkExcludedPaths ==> m.Registered() == Delete(old(m.Here(w)), old(m.Registered()), p)
      ensures action == UPDATE && !checkExcludedPaths ==> m.Registered() == Update(old(m.Here(w)), old(m.Registered()), p)
      decreases Subtree(w, p), 3
    {
      if p in w.broken {
        return;
      }
      ghost var env := m.Here(w);
      if checkExcludedPaths {
        var excluded := IsWithinFolders(excludedFolders, TestedText(w, p));
        if excluded {
          ExcludedIsSkipped(env, m.Registered(), p);
          return;
        }
        if p in w.files {
          AddIsTree(env, m.Registered(), p);
        }
      }
      if IsFolder(w, p) {
        ProcessFolder(m, w, p, action);
      } else {
        ProcessNonFolder(m, w, p, action);
      }
    }

    /** A folder that cannot be listed keeps its own registration and nothing below it. */
    method ProcessFolder(m: FileMonitor, w: World, p: Path, action: Action)
      requires m.watcher == this && WellFormed(w) && IsFolder(w, p)
      modifies this`registeredFolderCount, this`registeredFileCount, this`encounteredFileCount, m`fileMap
      ensures action == ADD ==> m.Registered() == AddTree(old(m.Here(w)), old(m.Registered()), Tree(old(m.Here(w)), p))
      ensures action == DELETE ==> m.Registered() == Delete(old(m.Here(w)), old(m.Registered()), p)
      ensures action == UPDATE ==> m.Registered() == old(m.Registered())
      decreases Subtree(w, p), 2
    {
      if action == ADD {
        ghost var env := m.Here(w);
        ghost var before := m.Registered();
        registeredFolderCount := registeredFolderCount + 1;
        m.AddFile(w, p);
        AddedOne(env, before, p);
        if p in w.listings {
          ghost var n, steps := |w.listings[p]|, SeenSteps(env, p, |w.listings[p]|);
          ghost var first := StepIsSeen(env, p, n, 0);
          ghost var last := StepIsSeen(env, p, n, n);
          ProcessChildren(m, w, p, env, before, steps);
        }
      } else if action == DELETE {
        registeredFolderCount := registeredFolderCount - 1;
        var removed := m.RemoveFile(w, p);
        BrokenIsNoFile(w, p);
      }
    }

    method ProcessChildren(m: FileMonitor, w: World, p: Path, ghost env: Env, ghost before: Registry, ghost steps: seq<set<Path>>)
      requires m.watcher == this && WellFormed(w) && p in w.listings
      requires env == m.Here(w) && steps == SeenSteps(env, p, |w.listings[p]|)
      requires m.Registered() == AddTree(env, before, steps[0])
      modifies this`registeredFolderCount, this`registeredFileCount, this`encounteredFileCount, m`fileMap
      ensures m.Registered() == AddTree(env, before, steps[|w.listings[p]|])
      decreases Subtree(w, p), 1
    {
      var children := w.listings[p];
      for i := 0 to |children|
        invariant m.Registered() == AddTree(env, before, steps[i])
      {
        ProcessChild(m, w, p, i, env, before, steps);
      }
    }

    method ProcessChild(m: FileMonitor, w: World, p: Path, i: nat, ghost env: Env, ghost before: Registry, ghost steps: seq<set<Path>>)
      requires m.watcher == this && WellFormed(w) && p in w.listings && i < |w.listings[p]|
      requires env == m.Here(w) && steps == SeenSteps(env, p, |w.listings[p]|)
      requires m.Registered() == AddTree(env, before, steps[i])
      modifies this`registeredFolderCount, this`registeredFileCount, this`encounteredFileCount, m`fileMap
      ensures m.Registered() == AddTree(env, before, steps[i + 1])
      decreases Subtree(w, p), 0
    {
      ChildSubtree(w, p, i);
      ghost var done, more := OneMoreChild(env, before, p, i, m.Registered());
      ProcessFile(m, w, w.listings[p][i], ADD, true);
    }

    /** Whatever is no folder, be it only because it does not exist. */
    method ProcessNonFolder(m: FileMonitor, w: World, p: Path, action: Action)
      requires m.watcher == this && WellFormed(w) && !IsFolder(w, p) && p !in w.broken
      modifies this`registeredFileCount, this`encounteredFileCount, m`fileMap
      ensures action == ADD && p in w.files ==>
                m.Registered() == AddTree(old(m.Here(w)), old(m.Registered()), {p})
      ensures action == ADD && p !in w.files ==>
                m.Registered() == Registry(old(m.fileMap), CountMissing(old(m.Here(w)), old(CurrentCounts()), p))
      ensures action == DELETE ==> m.Registered() == Delete(old(m.Here(w)), old(m.Registered()), p)
      ensures action == UPDATE ==> m.Registered() == Update(old(m.Here(w)), old(m.Registered()), p)
    {
      encounteredFileCount := encounteredFileCount + 1;
      if Eligible(includedExtns, p) {
        if action == ADD {
          registeredFileCount := registeredFileCount + 1;
          m.AddFile(w, p);
        } else if action == DELETE {
          registeredFileCount := registeredFileCount - 1;
          var removed := m.RemoveFile(w, p);
        }
      }
      if action == ADD && p in w.files {
        AddedOne(old(m.Here(w)), old(m.Registered()), p);
      }
    }
  }

  lemma BrokenIsNoFile(w: World, p: Path)
    requires WellFormed(w) && p in w.files
    ensures p !in w.broken
  {}

  /** All that a crawl of `p` visits when `p` itself is not excluded. */
  function Tree(env: Env, p: Path): set<Path>
  {
    if p in env.world.listings then Seen(env, p, |env.world.listings[p]|) else {p}
  }

  lemma AddIsTree(env: Env, g: Registry, p: Path)
    requires WellFormed(env.world) && p in env.world.files && !IsExcluded(env, p)
    ensures Add(env, g, p) == AddTree(env, g, Tree(env, p))
    ensures !IsFolder(env.world, p) ==> Tree(env, p) == {p}
  {
    if p in env.world.listings {
      VisitedFolder(env, p);
    } else {
      VisitedLeaf(env, p);
    }
  }

  lemma ExcludedIsSkipped(env: Env, g: Registry, p: Path)
    requires WellFormed(env.world) && IsExcluded(env, p)
    ensures Add(env, g, p) == g
  {
    if p in env.world.files {
      VisitedExcluded(env, p);
      NothingRegistered(env, g.files, g.counts);
    }
  }

  class FileMonitor {
    const watcher: Watcher
    var split: int
    var fileMap: Files
    var deleteStack: seq<Path>
    var addStack: seq<Path>
    var removeListStack: seq<string>
    var removePaths: seq<string>
    var fired: seq<Event>

    constructor (watcher: Watcher, split: int)
      ensures this.watcher == watcher && this.split == split
      ensures State() == MonitorModel.State(map[], [], [], [], [], watcher.CurrentCounts(), [])
    {
      this.watcher, this.split := watcher, split;
      fileMap := map[];
      deleteStack, addStack, removeListStack, removePaths, fired := [], [], [], [], [];
    }

    function State(): State
      reads this, watcher
    {
      MonitorModel.State(fileMap, deleteStack, addStack, removeListStack, removePaths, watcher.CurrentCounts(), fired)
    }

    function Registered(): Registry
      reads this, watcher
    {
      Registry(fileMap, watcher.CurrentCounts())
    }

    /** What the monitor sees of world `w`. */
    function Here(w: World): Env
      reads this, watcher
    {
      Env(watcher.CurrentProfile(), w, split)
    }

    /** resetChildrenList: the eligible children of a folder that can be listed. */
    method ChildrenOf(w: World, p: Path) returns (children: Option<set<Path>>)
      requires WellFormed(w) && p in w.files
      ensures children == Fresh(Here(w), p).children
    {
      if p !in w.listings {
        return None;
      }
      var names := {};
      var listing := w.listings[p];
      for i := 0 to |listing|
        invariant names == Members(Worthy(Here(w), listing[..i]))
      {
        WorthySnoc(Here(w), listing, i);
        if Monitorable(watcher.includedExtns, w, listing[i]) {
          names := names + {listing[i]};
        }
      }
      assert listing[..|listing|] == listing;
      children := Some(names);
    }

    method AddFile(w: World, p: Path)
      requires WellFormed(w)
      modifies this`fileMap
      ensures fileMap == MonitorModel.AddFile(Here(w), old(fileMap), p)
    {
      if p !in fileMap && p in w.files {
        var children := ChildrenOf(w, p);
        fileMap := fileMap[p := Entry(true, w.files[p].modified, children)];
      }
    }

    /** False stands for the exception of a parent without a children set. */
    method RemoveFile(w: World, p: Path) returns (removed: bool)
      modifies this`fileMap
      ensures (fileMap, removed) == MonitorModel.RemoveFile(Here(w), old(fileMap), p)
    {
      removed := true;
      if FolderText(p) !in watcher.includedFolders {
        if p in fileMap {
          var accessible := watcher.IsRootEntryAccessible(w, p, true);
          if accessible {
            fileMap := fileMap - {p};
            if p != [] {
              var parent := p[..|p| - 1];
              if parent in fileMap {
                var e := fileMap[parent];
                if e.children == None {
                  removed := false;
                } else {
                  fileMap := fileMap[parent := e.(children := Some(e.children.value - {p}))];
                }
              }
            }
          }
        }
      }
    }

    method QueueAddRemovePath(path: string)
      modifies this`removeListStack
      ensures State() == old(State()).(removeListStack := old(removeListStack) + [path])
    {
      removeListStack := removeListStack + [path];
    }

    /*** Events: fired here, answered by the listener of the watcher ***/

    method FireCreated(w: World, p: Path)
      requires WellFormed(w)
      modifies this`fired, this`fileMap, watcher`registeredFolderCount, watcher`registeredFileCount,
               watcher`encounteredFileCount
      ensures State() == MonitorModel.FireCreated(old(Here(w)), old(State()), p)
    {
      fired := fired + [Created(p)];
      if !IsTemporary(p) {
        watcher.ProcessFile(this, w, p, ADD, true);
      }
    }

    method FireDeleted(w: World, p: Path)
      requires WellFormed(w)
      modifies this`fired, this`fileMap, watcher`registeredFolderCount, watcher`registeredFileCount,
               watcher`encounteredFileCount
      ensures State() == MonitorModel.FireDeleted(old(Here(w)), old(State()), p)
    {
      fired := fired + [Deleted(p)];
      if !IsTemporary(p) {
        var accessible := watcher.IsRootEntryAccessible(w, p, true);
        if accessible {
          watcher.ProcessFile(this, w, p, DELETE, false);
        }
      }
    }

    method FireChanged(w: World, p: Path)
      requires WellFormed(w)
      modifies this`fired, this`fileMap, watcher`registeredFolderCount, watcher`registeredFileCount,
               watcher`encounteredFileCount
      ensures State() == MonitorModel.FireChanged(old(Here(w)), old(State()), p)
    {
      fired := fired + [Changed(p)];
      if !IsTemporary(p) {
        watcher.ProcessFile(this, w, p, UPDATE, false);
      }
    }

    /** fireAllCreate, without recursive descent. */
    method FireAllCreate(w: World, p: Path)
      requires WellFormed(w)
      modifies this`fired, this`fileMap, this`addStack, watcher`registeredFolderCount, watcher`registeredFileCount,
               watcher`encounteredFileCount
      ensures
        var t := MonitorModel.FireCreated(old(Here(w)), old(State()), p);
        State() == t.(addStack := t.addStack + [p])
    {
      FireCreated(w, p);
      addStack := addStack + [p];
    }

    /*** Checking ***/

    method IsInRemovePaths(w: World, p: Path) returns (found: bool)
      ensures found == InRemovePaths(Here(w), State(), p)
    {
      for i := 0 to |removePaths|
        invariant forall j :: 0 <= j < i ==> !(removePaths[j] <= TestedText(w, p))
      {
        if removePaths[i] <= TestedText(w, p) {
          return true;
        }
      }
      found := false;
    }

    method FireListed(w: World, children: seq<Path>)
      requires WellFormed(w)
      modifies this`fired, this`fileMap, this`addStack, watcher`registeredFolderCount, watcher`registeredFileCount,
               watcher`encounteredFileCount
      ensures State() == FireAll(old(Here(w)), old(State()), children)
    {
      ghost var env, start := Here(w), State();
      assert children[0..] == children;
      for i := 0 to |children|
        invariant FireAll(env, State(), children[i..]) == FireAll(env, start, children)
      {
        assert children[i..][0] == children[i] && children[i..][1..] == children[i + 1..];
        FireAllCreate(w, children[i]);
      }
    }

    method FirePopped(w: World, stack: seq<Path>)
      requires WellFormed(w)
      modifies this`fired, this`fileMap, this`addStack, watcher`registeredFolderCount, watcher`registeredFileCount,
               watcher`encounteredFileCount
      ensures State() == FireAll(old(Here(w)), old(State()), Reversed(stack))
    {
      ghost var env, start := Here(w), State();
      var i := |stack|;
      assert stack[..i] == stack;
      while i > 0
        invariant i <= |stack|
        invariant FireAll(env, State(), Reversed(stack[..i])) == FireAll(env, start, Reversed(stack))
      {
        i := i - 1;
        ReversedSnoc(stack, i);
        FireAllCreate(w, stack[i]);
      }
    }

    /** The children worth monitoring, and those of them that `known` does not hold. */
    method SplitChildren(w: World, p: Path, known: set<Path>) returns (worthy: seq<Path>, missing: seq<Path>)
      requires WellFormed(w) && p in w.listings
      ensures worthy == Worthy(Here(w), w.listings[p]) && missing == Unknown(worthy, known)
    {
      worthy, missing := [], [];
      var listing := w.listings[p];
      for i := 0 to |listing|
        invariant worthy == Worthy(Here(w), listing[..i])
        invariant missing == Unknown(worthy, known)
      {
        WorthySnoc(Here(w), listing, i);
        if Monitorable(watcher.includedExtns, w, listing[i]) {
          UnknownSnoc(worthy, listing[i], known);
          worthy := worthy + [listing[i]];
          if listing[i] !in known {
            missing := missing + [listing[i]];
          }
        }
      }
      assert listing[..|listing|] == listing;
    }

    method CheckForNewChildren(w: World, p: Path)
      requires WellFormed(w) && p in fileMap
      modifies this`fired, this`fileMap, this`addStack, watcher`registeredFolderCount, watcher`registeredFileCount,
               watcher`encounteredFileCount
      ensures State() == MonitorModel.CheckForNewChildren(old(Here(w)), old(State()), p)
    {
      if p !in w.listings {
        return;
      }
      var e := fileMap[p];
      if e.children.Some? {
        var worthy, missing := SplitChildren(w, p, e.children.value);
        fileMap := fileMap[p := e.(children := Some(Members(worthy)))];
        FirePopped(w, missing);
      } else if w.listings[p] != [] {
        var worthy, missing := SplitChildren(w, p, {});
        fileMap := fileMap[p := e.(children := Some(Members(worthy)))];
        FireListed(w, worthy);
      } else {
        assert fileMap[p := e] == fileMap;
      }
    }

    method Drop(w: World, p: Path)
      requires WellFormed(w) && p in fileMap
      modifies this`fired, this`fileMap, this`deleteStack, watcher`registeredFolderCount, watcher`registeredFileCount,
               watcher`encounteredFileCount
      ensures State() == MonitorModel.Drop(old(Here(w)), old(State()), p)
    {
      fileMap := fileMap[p := fileMap[p].(present := false)];
      FireDeleted(w, p);
      deleteStack := deleteStack + [p];
    }

    method CheckExisting(w: World, now: int, p: Path)
      requires WellFormed(w) && p in fileMap && p in w.files
      modifies this`fired, this`fileMap, this`deleteStack, watcher`registeredFolderCount, watcher`registeredFileCount,
               watcher`encounteredFileCount
      ensures State() == CheckSelf(old(Here(w)), now, old(State()), p)
    {
      var modified := w.files[p].modified;
      if fileMap[p].present {
        var dropped := IsInRemovePaths(w, p);
        if dropped {
          Drop(w, p);
        } else if fileMap[p].timestamp != modified && now - modified >= split {
          fileMap := fileMap[p := fileMap[p].(timestamp := modified)];
          if !w.files[p].folder {
            FireChanged(w, p);
          }
        }
      } else {
        fileMap := fileMap[p := fileMap[p].(present := true, timestamp := modified)];
        if !w.files[p].folder {
          FireCreated(w, p);
        }
      }
    }

    /** Nothing is done about a file whose probe fails. */
    method Check(w: World, now: int, p: Path)
      requires WellFormed(w) && p in fileMap
      modifies this`fired, this`fileMap, this`deleteStack, this`addStack, watcher`registeredFolderCount,
               watcher`registeredFileCount, watcher`encounteredFileCount
      ensures State() == MonitorModel.Check(old(Here(w)), now, old(State()), p)
    {
      if p in w.broken {
        return;
      }
      if p in w.files {
        CheckExisting(w, now, p);
        if w.files[p].folder && p in fileMap {
          var dropped := IsInRemovePaths(w, p);
          if !dropped {
            CheckForNewChildren(w, p);
          }
        }
      } else if fileMap[p].present {
        var accessible := watcher.IsRootEntryAccessible(w, p, true);
        if accessible {
          Drop(w, p);
        }
      }
    }

    /*** One pass of the monitor's thread ***/

    method DrainDeleteStack(w: World) returns (completed: bool)
      requires WellFormed(w)
      modifies this`fileMap, this`deleteStack
      ensures Run(State(), completed) == Drain(old(Here(w)), old(State()))
    {
      ghost var env, start := Here(w), State();
      while deleteStack != []
        invariant Drain(env, State()) == Drain(env, start)
        decreases |deleteStack|
      {
        var last := |deleteStack| - 1;
        var p := deleteStack[last];
        deleteStack := deleteStack[..last];
        completed := RemoveFile(w, p);
        if !completed {
          return;
        }
      }
      completed := true;
    }

    method TakeRemoveList()
      modifies this`removeListStack, this`removePaths
      ensures State() == TakeRemovePaths(old(State()))
    {
      ghost var all := removeListStack;
      removePaths := [];
      while removeListStack != []
        invariant removePaths + Reversed(removeListStack) == Reversed(all)
        decreases |removeListStack|
      {
        var last := |removeListStack| - 1;
        ReversedSnoc(removeListStack, last);
        assert removeListStack[..last + 1] == removeListStack;
        assert removePaths + ([removeListStack[last]] + Reversed(removeListStack[..last]))
            == removePaths + [removeListStack[last]] + Reversed(removeListStack[..last]);
        removePaths := removePaths + [removeListStack[last]];
        removeListStack := removeListStack[..last];
      }
    }

    method AddQueuedFiles(w: World)
      requires WellFormed(w)
      modifies this`fileMap, this`addStack
      ensures State() == AddQueued(old(Here(w)), old(State()))
    {
      ghost var env, end := Here(w), AddQueued(Here(w), State());
      while addStack != []
        invariant AddQueued(env, State()) == end
        decreases |addStack|
      {
        AddLastQueued(w, env, end);
      }
    }

    method AddLastQueued(w: World, ghost env: Env, ghost end: State)
      requires WellFormed(w) && addStack != [] && env == Here(w) && AddQueued(env, State()) == end
      modifies this`fileMap, this`addStack
      ensures addStack == old(addStack)[..|old(addStack)| - 1] && AddQueued(env, State()) == end
    {
      var last := |addStack| - 1;
      var p := addStack[last];
      addStack := addStack[..last];
      if Eligible(watcher.includedExtns, p) {
        AddFile(w, p);
      }
    }

    method VisitName(w: World, v: Visit) returns (completed: bool)
      requires WellFormed(w)
      modifies this`fired, this`fileMap, this`deleteStack, this`addStack, watcher`registeredFolderCount,
               watcher`registeredFileCount, watcher`encounteredFileCount
      ensures Run(State(), completed) == Turn(old(Here(w)), old(State()), v)
    {
      completed := DrainDeleteStack(w);
      if completed && v.path in fileMap {
        Check(w, v.time, v.path);
      }
    }

    method VisitNames(w: World, visits: seq<Visit>) returns (completed: bool)
      requires WellFormed(w)
      modifies this`fired, this`fileMap, this`deleteStack, this`addStack, watcher`registeredFolderCount,
               watcher`registeredFileCount, watcher`encounteredFileCount
      ensures Run(State(), completed) == CheckAll(old(Here(w)), old(State()), visits)
    {
      ghost var env, start := Here(w), State();
      assert visits[0..] == visits;
      for i := 0 to |visits|
        invariant CheckAll(env, State(), visits[i..]) == CheckAll(env, start, visits)
      {
        assert visits[i..][0] == visits[i] && visits[i..][1..] == visits[i + 1..];
        completed := VisitName(w, visits[i]);
        if !completed {
          return;
        }
      }
      completed := true;
    }

    /** One turn of the main loop; a failed removal ends it early. */
    method RunOnce(w: World, visits: seq<Visit>) returns (completed: bool)
      requires WellFormed(w)
      modifies this`fired, this`fileMap, this`deleteStack, this`addStack, this`removeListStack, this`removePaths,
               watcher`registeredFolderCount, watcher`registeredFileCount, watcher`encounteredFileCount
      ensures Run(State(), completed) == Pass(old(Here(w)), old(State()), visits)
    {
      completed := DrainDeleteStack(w);
      if completed {
        TakeRemoveList();
        completed := VisitNames(w, visits);
        if completed {
          AddQueuedFiles(w);
        }
      }
    }
  }

  lemma ReversedSnoc<T>(s: seq<T>, i: nat)
    requires i < |s|
    ensures Reversed(s[..i + 1]) == [s[i]] + Reversed(s[..i])
  {
    var r := [s[i]] + Reversed(s[..i]);
    assert |r| == i + 1;
    assert forall k :: 0 <= k < |r| ==> r[k] == s[..i + 1][i - k];
  }

  lemma {:induction false} WorthyAppend(env: Env, s: seq<Path>, c: Path, worthy: bool)
    requires worthy == Monitorable(env.profile.extensions, env.world, c)
    ensures Worthy(env, s + [c]) == if worthy then Worthy(env, s) + [c] else Worthy(env, s)
  {
    if s != [] {
      WorthyAppend(env, s[1..], c, worthy);
      assert (s + [c])[1..] == s[1..] + [c];
    }
  }

  lemma {:induction false} UnknownSnoc(s: seq<Path>, c: Path, known: set<Path>)
    ensures Unknown(s + [c], known) == if c in known then Unknown(s, known) else Unknown(s, known) + [c]
  {
    if s != [] {
      UnknownSnoc(s[1..], c, known);
      assert (s + [c])[1..] == s[1..] + [c];
    }
  }

  lemma WorthySnoc(env: Env, s: seq<Path>, i: nat)
    requires i < |s|
    ensures Worthy(env, s[..i + 1])
            == if Monitorable(env.profile.extensions, env.world, s[i]) then Worthy(env, s[..i]) + [s[i]]
               else Worthy(env, s[..i])
  {
    assert s[..i + 1] == s[..i] + [s[i]];
    WorthyAppend(env, s[..i], s[i], Monitorable(env.profile.extensions, env.world, s[i]));
  }
}
