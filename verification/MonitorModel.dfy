/** A file monitor on values: the map of monitored files, the stacks of work put off,
    and what one check, one pass and one turn of the monitor's thread make of them. */
module MonitorModel {
  import opened Wrappers
  import opened FileTrees

  datatype Profile = Profile(included: set<string>, excluded: set<string>, extensions: set<string>)

  /** The profile and the outside world during one pass; `split` is the age in
      milliseconds from which a changed file counts as written to the end. */
  datatype Env = Env(profile: Profile, world: World, split: int)

  /** No children set is different from an empty one. */
  datatype Entry = Entry(present: bool, timestamp: int, children: Option<set<Path>>)

  type Files = map<Path, Entry>

  datatype Event = Created(path: Path) | Changed(path: Path) | Deleted(path: Path)

  /** The watcher's registered folders and files, and the files it encountered. */
  datatype Counts = Counts(folders: int, files: int, encountered: int)

  datatype State = State(
    fileMap: Files,
    deleteStack: seq<Path>,
    addStack: seq<Path>,
    removeListStack: seq<string>,
    removePaths: seq<string>,
    counts: Counts,
    events: seq<Event>)

  /*** New entries ***/

  /** The children of a listing that are worth monitoring, in its order. */
  function Worthy(env: Env, children: seq<Path>): (r: seq<Path>)
    ensures forall c :: c in r <==> c in children && Monitorable(env.profile.extensions, env.world, c)
  {
    if children == [] then []
    else
      var rest := Worthy(env, children[1..]);
      if Monitorable(env.profile.extensions, env.world, children[0]) then [children[0]] + rest else rest
  }

  function Members(s: seq<Path>): set<Path>
  {
    set p | p in s
  }

  function Current(env: Env, p: Path): set<Path>
    requires p in env.world.listings
  {
    Members(Worthy(env, env.world.listings[p]))
  }

  /** The entry of a file that is monitored for the first time. */
  function Fresh(env: Env, p: Path): Entry
    requires p in env.world.files
  {
    Entry(true, env.world.files[p].modified, if p in env.world.listings then Some(Current(env, p)) else None)
  }

  /** A file already monitored stays as it is; one that does not exist is not added. */
  function AddFile(env: Env, m: Files, p: Path): Files
  {
    if p in m || p !in env.world.files then m else m[p := Fresh(env, p)]
  }

  /*** Crawling ***/

  predicate IsExcluded(env: Env, p: Path)
  {
    InFolders(env.profile.excluded, TestedText(env.world, p))
  }

  predicate Listable(w: World, p: Path, q: Path)
  {
    forall k :: |p| <= k < |q| ==> q[..k] in w.listings
  }

  /** The files and folders from `p` down with no excluded folder at or above them. */
  function Visited(env: Env, p: Path): set<Path>
  {
    set q | q in env.world.files && p <= q && !IsExcluded(env, q) && Listable(env.world, p, q)
  }

  /** Every node of `s` that is worth monitoring is added. */
  function Registered(env: Env, m: Files, s: set<Path>): Files
  {
    m + map q | q in s && q in env.world.files && q !in m && Monitorable(env.profile.extensions, env.world, q) :: Fresh(env, q)
  }

  function FoldersIn(env: Env, s: set<Path>): set<Path>
  {
    set q | q in s && IsFolder(env.world, q)
  }

  function FilesIn(env: Env, s: set<Path>): set<Path>
  {
    set q | q in s && q in env.world.files && !IsFolder(env.world, q)
  }

  function EligibleIn(env: Env, s: set<Path>): set<Path>
  {
    set q | q in FilesIn(env, s) && Eligible(env.profile.extensions, q)
  }

  function Counted(env: Env, c: Counts, s: set<Path>): Counts
  {
    Counts(c.folders + |FoldersIn(env, s)|, c.files + |EligibleIn(env, s)|, c.encountered + |FilesIn(env, s)|)
  }

  /** The part of the state that processFile changes. */
  datatype Registry = Registry(files: Files, counts: Counts)

  function CountMissing(env: Env, c: Counts, p: Path): Counts
  {
    c.(files := c.files + if Eligible(env.profile.extensions, p) then 1 else 0, encountered := c.encountered + 1)
  }

  /** The nodes of `tree` are registered and counted. */
  function AddTree(env: Env, g: Registry, tree: set<Path>): Registry
  {
    Registry(Registered(env, g.files, tree), Counted(env, g.counts, tree))
  }

  /** processFile for ADD. A path that does not exist is taken for a file. */
  function Add(env: Env, g: Registry, p: Path): Registry
  {
    if p in env.world.files then AddTree(env, g, Visited(env, p))
    else if p in env.world.broken || IsExcluded(env, p) then g
    else g.(counts := CountMissing(env, g.counts, p))
  }

  function RegistryOf(s: State): Registry
  {
    Registry(s.fileMap, s.counts)
  }

  function WithRegistry(s: State, g: Registry): State
  {
    s.(fileMap := g.files, counts := g.counts)
  }

  function ProcessAdd(env: Env, s: State, p: Path): State
  {
    WithRegistry(s, Add(env, RegistryOf(s), p))
  }

  /** processFile for UPDATE, exclusion not tested. */
  function Update(env: Env, g: Registry, p: Path): Registry
  {
    if p in env.world.broken || IsFolder(env.world, p) then g
    else g.(counts := g.counts.(encountered := g.counts.encountered + 1))
  }

  /*** Removal ***/

  /** removeFile: root entries and files of unreachable roots stay. The flag is false
      when the parent's entry has no children set to remove the file from. */
  function RemoveFile(env: Env, m: Files, p: Path): (Files, bool)
  {
    if FolderText(p) in env.profile.included || p !in m || !Accessible(env.profile.included, env.world, p) then (m, true)
    else Detach(m - {p}, p)
  }

  function Detach(m: Files, p: Path): (Files, bool)
  {
    if p == [] || p[..|p| - 1] !in m then (m, true)
    else
      var parent := p[..|p| - 1];
      if m[parent].children == None then (m, false)
      else (m[parent := m[parent].(children := Some(m[parent].children.value - {p}))], true)
  }

  /** processFile for DELETE, exclusion not tested; errors are swallowed. */
  function Delete(env: Env, g: Registry, p: Path): Registry
  {
    if p in env.world.broken then g
    else if IsFolder(env.world, p) then
      Registry(RemoveFile(env, g.files, p).0, g.counts.(folders := g.counts.folders - 1))
    else if Eligible(env.profile.extensions, p) then
      Registry(RemoveFile(env, g.files, p).0,
               g.counts.(files := g.counts.files - 1, encountered := g.counts.encountered + 1))
    else g.(counts := g.counts.(encountered := g.counts.encountered + 1))
  }

  /*** Events: recorded, then handed to the listener ***/

  function FireCreated(env: Env, s: State, p: Path): State
  {
    var t := s.(events := s.events + [Created(p)]);
    if IsTemporary(p) then t else ProcessAdd(env, t, p)
  }

  function FireDeleted(env: Env, s: State, p: Path): State
  {
    var t := s.(events := s.events + [Deleted(p)]);
    if IsTemporary(p) || !Accessible(env.profile.included, env.world, p) then t
    else WithRegistry(t, Delete(env, RegistryOf(t), p))
  }

  function FireChanged(env: Env, s: State, p: Path): State
  {
    var t := s.(events := s.events + [Changed(p)]);
    if IsTemporary(p) then t else WithRegistry(t, Update(env, RegistryOf(t), p))
  }

  /*** Checking one file ***/

  predicate InRemovePaths(env: Env, s: State, p: Path)
  {
    exists i :: 0 <= i < |s.removePaths| && s.removePaths[i] <= TestedText(env.world, p)
  }

  function SetEntry(s: State, p: Path, e: Entry): State
  {
    s.(fileMap := s.fileMap[p := e])
  }

  /** The file is gone, or within a removed path. */
  function Drop(env: Env, s: State, p: Path): State
    requires p in s.fileMap
  {
    var t := FireDeleted(env, SetEntry(s, p, s.fileMap[p].(present := false)), p);
    t.(deleteStack := t.deleteStack + [p])
  }

  /** A new timestamp counts once the file is old enough. */
  function Refresh(env: Env, now: int, s: State, p: Path): State
    requires p in s.fileMap && p in env.world.files
  {
    var modified := env.world.files[p].modified;
    if s.fileMap[p].timestamp == modified || now - modified < env.split then s
    else
      var t := SetEntry(s, p, s.fileMap[p].(timestamp := modified));
      if IsFolder(env.world, p) then t else FireChanged(env, t, p)
  }

  function Reappear(env: Env, s: State, p: Path): State
    requires p in s.fileMap && p in env.world.files
  {
    var t := SetEntry(s, p, s.fileMap[p].(present := true, timestamp := env.world.files[p].modified));
    if IsFolder(env.world, p) then t else FireCreated(env, t, p)
  }

  function CheckSelf(env: Env, now: int, s: State, p: Path): State
    requires p in s.fileMap && p in env.world.files
  {
    if !s.fileMap[p].present then Reappear(env, s, p)
    else if InRemovePaths(env, s, p) then Drop(env, s, p)
    else Refresh(env, now, s, p)
  }

  /** fireAllCreate without recursive descent, for each of `ps`. */
  function FireAll(env: Env, s: State, ps: seq<Path>): State
    decreases |ps|
  {
    if ps == [] then s
    else
      var t := FireCreated(env, s, ps[0]);
      FireAll(env, t.(addStack := t.addStack + [ps[0]]), ps[1..])
  }

  /** The children of `p` that are not recorded, in the order in which they are fired. */
  function Missing(env: Env, recorded: Option<set<Path>>, p: Path): (r: seq<Path>)
    requires p in env.world.listings
    ensures forall c :: c in r <==> c in Current(env, p) && (recorded == None || c !in recorded.value)
  {
    var worthy := Worthy(env, env.world.listings[p]);
    match recorded
    case None => worthy
    case Some(known) =>
      var missing := Unknown(worthy, known);
      assert forall c :: c in Reversed(missing) <==> c in missing by { ReversedMembers(missing); }
      Reversed(missing)
  }

  function Unknown(s: seq<Path>, known: set<Path>): (r: seq<Path>)
    ensures forall c :: c in r <==> c in s && c !in known
  {
    if s == [] then []
    else
      var rest := Unknown(s[1..], known);
      if s[0] in known then rest else [s[0]] + rest
  }

  function Reversed<T>(s: seq<T>): (r: seq<T>)
    ensures |r| == |s|
    ensures forall i :: 0 <= i < |s| ==> r[i] == s[|s| - 1 - i]
  {
    if s == [] then [] else Reversed(s[1..]) + [s[0]]
  }

  lemma ReversedMembers(s: seq<Path>)
    ensures forall c :: c in Reversed(s) <==> c in s
  {
    forall c | c in s
      ensures c in Reversed(s)
    {
      var i :| 0 <= i < |s| && s[i] == c;
      assert Reversed(s)[|s| - 1 - i] == c;
    }
  }

  function CheckForNewChildren(env: Env, s: State, p: Path): State
    requires p in s.fileMap
  {
    if p !in env.world.listings then s
    else
      var e := s.fileMap[p];
      var children := if e.children == None && env.world.listings[p] == [] then None else Some(Current(env, p));
      FireAll(env, SetEntry(s, p, e.(children := children)), Missing(env, e.children, p))
  }

  function Check(env: Env, now: int, s: State, p: Path): State
    requires p in s.fileMap
  {
    if p in env.world.broken then s
    else if p !in env.world.files then
      if s.fileMap[p].present && Accessible(env.profile.included, env.world, p) then Drop(env, s, p) else s
    else
      var t := CheckSelf(env, now, s, p);
      if IsFolder(env.world, p) && p in t.fileMap && !InRemovePaths(env, t, p) then CheckForNewChildren(env, t, p) else t
  }

  /*** One pass over the map ***/

  /** Some(s) unless a removal fails, which ends the pass early. */
  datatype Run = Run(s: State, completed: bool)

  function Drain(env: Env, s: State): Run
    decreases |s.deleteStack|
  {
    if s.deleteStack == [] then Run(s, true)
    else
      var last := |s.deleteStack| - 1;
      var (m, ok) := RemoveFile(env, s.fileMap, s.deleteStack[last]);
      var t := s.(deleteStack := s.deleteStack[..last], fileMap := m);
      if ok then Drain(env, t) else Run(t, false)
  }

  datatype Visit = Visit(path: Path, time: int)

  /** One step of the loop over the map's names, which may have left the map since. */
  function Turn(env: Env, s: State, v: Visit): Run
  {
    var d := Drain(env, s);
    if d.completed && v.path in d.s.fileMap then Run(Check(env, v.time, d.s, v.path), true) else d
  }

  function CheckAll(env: Env, s: State, visits: seq<Visit>): Run
    decreases |visits|
  {
    if visits == [] then Run(s, true)
    else
      var r := Turn(env, s, visits[0]);
      if r.completed then CheckAll(env, r.s, visits[1..]) else r
  }

  function AddQueued(env: Env, s: State): State
    decreases |s.addStack|
  {
    if s.addStack == [] then s
    else
      var last := |s.addStack| - 1;
      var p := s.addStack[last];
      var m := if Eligible(env.profile.extensions, p) then AddFile(env, s.fileMap, p) else s.fileMap;
      AddQueued(env, s.(addStack := s.addStack[..last], fileMap := m))
  }

  function TakeRemovePaths(s: State): State
  {
    s.(removeListStack := [], removePaths := Reversed(s.removeListStack))
  }

  /** One pass: `visits` are the names that the loop over the map comes by. */
  function Pass(env: Env, s: State, visits: seq<Visit>): Run
  {
    var d := Drain(env, s);
    if !d.completed then d
    else
      var r := CheckAll(env, TakeRemovePaths(d.s), visits);
      if r.completed then Run(AddQueued(env, r.s), true) else r
  }
}
