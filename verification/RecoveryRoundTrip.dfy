/** Recovering a dump gives back what was watched. */
module RecoveryRoundTrip {
  import opened Wrappers
  import opened Decimal
  import opened StringOrder
  import opened LoadBalance
  import opened RecoveryModel

  /*** Reading piece by piece ***/

  lemma {:induction false} ReadConcat(r: Reading, a: seq<Row>, b: seq<Row>, r': Reading)
    requires Sound(r) && Read(r, a) == Success(r')
    ensures Sound(r') && Read(r, a + b) == Read(r', b)
    decreases |a|
  {
    if a == [] {
      assert a + b == b;
    } else {
      assert (a + b)[1..] == a[1..] + b;
      var next := FirstStep(r, a);
      ReadConcat(next, a[1..], b, r');
      assert (a + b)[0] == a[0];
    }
  }

  lemma FirstStep(r: Reading, a: seq<Row>) returns (next: Reading)
    requires Sound(r) && a != [] && Read(r, a).Success?
    ensures Step(r, a[0]) == Success(next) && Sound(next)
    ensures Read(r, a) == Read(next, a[1..])
  {
    next := Step(r, a[0]).value;
  }

  lemma ReadOne(r: Reading, row: Row, r': Reading)
    requires Sound(r) && Step(r, row) == Success(r')
    ensures Sound(r') && Read(r, [row]) == Success(r')
  {
    assert [row][1..] == [];
  }

  lemma Chain(r: Reading, a: seq<Row>, r1: Reading, b: seq<Row>, r2: Reading)
    requires Sound(r) && Read(r, a) == Success(r1)
    requires Sound(r1) && Read(r1, b) == Success(r2)
    ensures Read(r, a + b) == Success(r2)
  {
    ReadConcat(r, a, b, r1);
  }

  lemma TagsDistinct()
    ensures INCLUDE_FOLDER_START_TAG[1] == 'I' && EXCLUDE_FOLDER_START_TAG[1] == 'E'
    ensures ROOT_FOLDER_START_TAG[1] == 'R'
    ensures FILE_MONITOR_START_TAG[1] == 'F' && FILE_MONITOR_START_TAG[5] == 'M'
    ensures FILE_OBJECT_START_TAG[1] == 'F' && FILE_OBJECT_START_TAG[5] == 'O'
    ensures INCLUDE_FOLDER_END_TAG[1] == '/' && INCLUDE_FOLDER_END_TAG[2] == 'I'
    ensures EXCLUDE_FOLDER_END_TAG[1] == '/' && EXCLUDE_FOLDER_END_TAG[2] == 'E'
    ensures ROOT_FOLDER_END_TAG[1] == '/' && ROOT_FOLDER_END_TAG[2] == 'R'
    ensures FILE_MONITOR_END_TAG[1] == '/' && FILE_MONITOR_END_TAG[2] == 'F' && FILE_MONITOR_END_TAG[6] == 'M'
    ensures FILE_OBJECT_END_TAG[1] == '/' && FILE_OBJECT_END_TAG[2] == 'F' && FILE_OBJECT_END_TAG[6] == 'O'
  {}

  ghost predicate Untagged(names: set<string>)
  {
    forall n :: n in names ==> !IsTag(n)
  }

  /*** The three folder segments ***/

  lemma {:induction false} ReadIncludeNames(r: Reading, names: seq<string>)
    requires Sound(r) && r.segment == Some(INCLUDE_FOLDER) && Untagged(Elements(names))
    ensures Read(r, Single(names)) == Success(r.(included := r.included + Elements(names)))
    decreases |names|
  {
    if names == [] {
      assert r.included + Elements(names) == r.included;
    } else {
      var next := r.(included := r.included + {names[0]});
      assert names[0] in Elements(names);
      assert Step(r, Single(names)[0]) == Success(next);
      assert Single(names)[1..] == Single(names[1..]);
      ReadIncludeNames(next, names[1..]);
      assert names == [names[0]] + names[1..];
      assert r.included + Elements(names) == next.included + Elements(names[1..]);
    }
  }

  lemma {:induction false} ReadExcludeNames(r: Reading, names: seq<string>)
    requires Sound(r) && r.segment == Some(EXCLUDE_FOLDER) && Untagged(Elements(names))
    ensures Read(r, Single(names)) == Success(r.(excluded := r.excluded + Elements(names)))
    decreases |names|
  {
    if names == [] {
      assert r.excluded + Elements(names) == r.excluded;
    } else {
      var next := r.(excluded := r.excluded + {names[0]});
      assert names[0] in Elements(names);
      assert Step(r, Single(names)[0]) == Success(next);
      assert Single(names)[1..] == Single(names[1..]);
      ReadExcludeNames(next, names[1..]);
      assert names == [names[0]] + names[1..];
      assert r.excluded + Elements(names) == next.excluded + Elements(names[1..]);
    }
  }

  function Restrict(m: map<string, string>, names: seq<string>): map<string, string>
  {
    map n | n in m && n in names :: m[n]
  }

  lemma StepPair(r: Reading, name: string, value: string) returns (next: Reading)
    requires Sound(r) && r.segment == Some(ROOT_FOLDER) && !IsTag(name)
    ensures next == r.(parents := r.parents[name := value])
    ensures Sound(next) && Step(r, [name, value]) == Success(next)
  {
    next := r.(parents := r.parents[name := value]);
  }

  lemma RestrictCons(start: map<string, string>, m: map<string, string>, names: seq<string>)
    requires names != [] && forall n :: n in names ==> n in m
    ensures start + Restrict(m, names) == start[names[0] := m[names[0]]] + Restrict(m, names[1..])
  {
    assert names == [names[0]] + names[1..];
  }

  lemma {:induction false} ReadRootPairs(r: Reading, names: seq<string>, m: map<string, string>)
    requires Sound(r) && r.segment == Some(ROOT_FOLDER) && Untagged(Elements(names))
    requires forall n :: n in names ==> n in m
    ensures Read(r, Pairs(names, m)) == Success(r.(parents := r.parents + Restrict(m, names)))
    decreases |names|
  {
    if names == [] {
      assert r.parents + Restrict(m, names) == r.parents;
    } else {
      assert names[0] in Elements(names);
      var next := StepPair(r, names[0], m[names[0]]);
      assert Pairs(names, m)[0] == [names[0], m[names[0]]];
      assert Pairs(names, m)[1..] == Pairs(names[1..], m);
      ReadRootPairs(next, names[1..], m);
      RestrictCons(r.parents, m, names);
    }
  }

  lemma ListingElements(s: set<string>)
    ensures Elements(Listing(s)) == s
  {}

  /** An opening tag, some rows and a closing tag. */
  lemma ReadSegment(r: Reading, open: string, rows: seq<Row>, close: string, r1: Reading, r2: Reading, r3: Reading)
    requires Sound(r) && Step(r, [open]) == Success(r1) && Sound(r1)
    requires Read(r1, rows) == Success(r2) && Sound(r2)
    requires Step(r2, [close]) == Success(r3)
    ensures Read(r, [[open]] + rows + [[close]]) == Success(r3)
  {
    ReadOne(r, [open], r1);
    ReadOne(r2, [close], r3);
    ReadConcat(r1, rows, [[close]], r2);
    ReadConcat(r, [[open]], rows + [[close]], r1);
    assert [[open]] + rows + [[close]] == [[open]] + (rows + [[close]]);
  }

  /** The opening tags of the four kinds of segment. */
  lemma Opened(r: Reading, tag: string, s: Segment) returns (r': Reading)
    requires Sound(r)
    requires r.segment == None || (r.segment == Some(FILE_MONITOR) && s == FILE_OBJECT)
    requires match s
             case INCLUDE_FOLDER => tag == INCLUDE_FOLDER_START_TAG
             case EXCLUDE_FOLDER => tag == EXCLUDE_FOLDER_START_TAG
             case ROOT_FOLDER => tag == ROOT_FOLDER_START_TAG
             case FILE_MONITOR => tag == FILE_MONITOR_START_TAG
             case FILE_OBJECT => tag == FILE_OBJECT_START_TAG && r.segment.Some?
    ensures r' == if s == FILE_MONITOR then r.(segment := Some(s), target := Some(LeastLoaded(r.w.monitors)))
                  else r.(segment := Some(s))
    ensures Sound(r') && Step(r, [tag]) == Success(r')
  {
    TagsDistinct();
    r' := if s == FILE_MONITOR then r.(segment := Some(s), target := Some(LeastLoaded(r.w.monitors)))
          else r.(segment := Some(s));
  }

  lemma IncludesClosed(r: Reading) returns (r': Reading)
    requires Sound(r) && r.segment == Some(INCLUDE_FOLDER)
    ensures r' == r.(segment := None,
                     w := r.w.(included := r.included, includePaths := r.w.includePaths + r.included))
    ensures Sound(r') && Step(r, [INCLUDE_FOLDER_END_TAG]) == Success(r')
  {
    TagsDistinct();
    r' := Step(r, [INCLUDE_FOLDER_END_TAG]).value;
  }

  lemma ExcludesClosed(r: Reading) returns (r': Reading)
    requires Sound(r) && r.segment == Some(EXCLUDE_FOLDER)
    ensures r' == r.(segment := None, w := r.w.(excluded := r.excluded))
    ensures Sound(r') && Step(r, [EXCLUDE_FOLDER_END_TAG]) == Success(r')
  {
    TagsDistinct();
    r' := Step(r, [EXCLUDE_FOLDER_END_TAG]).value;
  }

  lemma RootsClosed(r: Reading) returns (r': Reading)
    requires Sound(r) && r.segment == Some(ROOT_FOLDER)
    ensures r' == r.(segment := None, w := r.w.(parents := r.parents))
    ensures Sound(r') && Step(r, [ROOT_FOLDER_END_TAG]) == Success(r')
  {
    TagsDistinct();
    r' := Step(r, [ROOT_FOLDER_END_TAG]).value;
  }

  lemma ObjectsClosed(r: Reading) returns (r': Reading)
    requires Sound(r) && r.segment == Some(FILE_OBJECT)
    ensures r' == r.(segment := Some(FILE_MONITOR))
    ensures Sound(r') && Step(r, [FILE_OBJECT_END_TAG]) == Success(r')
  {
    TagsDistinct();
    r' := Step(r, [FILE_OBJECT_END_TAG]).value;
  }

  lemma ReadIncludes(r: Reading, w: Watched) returns (r': Reading)
    requires Sound(r) && r.segment == None && r.included == {} && Untagged(w.included)
    ensures r' == r.(included := w.included,
                     w := r.w.(included := w.included, includePaths := r.w.includePaths + w.included))
    ensures Sound(r') && Read(r, IncludeRows(w)) == Success(r')
  {
    ListingElements(w.included);
    var r1 := Opened(r, INCLUDE_FOLDER_START_TAG, INCLUDE_FOLDER);
    assert r1.included + w.included == w.included;
    ReadIncludeNames(r1, Listing(w.included));
    var r2 := r1.(included := w.included);
    r' := IncludesClosed(r2);
    ReadSegment(r, INCLUDE_FOLDER_START_TAG, Single(Listing(w.included)), INCLUDE_FOLDER_END_TAG, r1, r2, r');
  }

  lemma ReadExcludes(r: Reading, w: Watched) returns (r': Reading)
    requires Sound(r) && r.segment == None && r.excluded == {} && Untagged(w.excluded)
    ensures r' == r.(excluded := w.excluded, w := r.w.(excluded := w.excluded))
    ensures Sound(r') && Read(r, ExcludeRows(w)) == Success(r')
  {
    ListingElements(w.excluded);
    var r1 := Opened(r, EXCLUDE_FOLDER_START_TAG, EXCLUDE_FOLDER);
    assert r1.excluded + w.excluded == w.excluded;
    ReadExcludeNames(r1, Listing(w.excluded));
    var r2 := r1.(excluded := w.excluded);
    r' := ExcludesClosed(r2);
    ReadSegment(r, EXCLUDE_FOLDER_START_TAG, Single(Listing(w.excluded)), EXCLUDE_FOLDER_END_TAG, r1, r2, r');
  }

  lemma ReadAllPairs(r: Reading, m: map<string, string>) returns (r': Reading)
    requires Sound(r) && r.segment == Some(ROOT_FOLDER) && r.parents == map[] && Untagged(m.Keys)
    ensures r' == r.(parents := m)
    ensures Sound(r') && Read(r, Pairs(Listing(m.Keys), m)) == Success(r')
  {
    var names := Listing(m.Keys);
    ListingElements(m.Keys);
    ReadRootPairs(r, names, m);
    assert r.parents + Restrict(m, names) == m;
    r' := r.(parents := m);
  }

  lemma ReadRoots(r: Reading, w: Watched) returns (r': Reading)
    requires Sound(r) && r.segment == None && r.parents == map[] && Untagged(w.parents.Keys)
    ensures r' == r.(parents := w.parents, w := r.w.(parents := w.parents))
    ensures Sound(r') && Read(r, RootRows(w)) == Success(r')
  {
    var r1 := Opened(r, ROOT_FOLDER_START_TAG, ROOT_FOLDER);
    var r2 := ReadAllPairs(r1, w.parents);
    r' := RootsClosed(r2);
    ReadSegment(r, ROOT_FOLDER_START_TAG, Pairs(Listing(w.parents.Keys), w.parents), ROOT_FOLDER_END_TAG, r1, r2, r');
  }

  /*** The entries of one monitor ***/

  /** The children that the entries of `names` give to `p`; none is null. */
  function ChildrenAmong(names: set<string>, p: string): Option<set<string>>
  {
    var children := set c | c in names && Parent(c) == Some(p);
    if children == {} then None else Some(children)
  }

  function RebuiltEntry(e: Entry, names: set<string>, p: string): Entry
  {
    Entry(e.fileType, e.timestamp, ChildrenAmong(names, p), true, true)
  }

  /** What the entries of `names` of monitor `m` are once read. */
  function Rebuilt(m: Monitor, names: set<string>): Monitor
  {
    map p | p in m && p in names :: RebuiltEntry(m[p], names, p)
  }

  /** The registered folders that these entries account for. */
  function Accounted(m: Monitor, names: set<string>): set<string>
  {
    set p | p in m && p in names && (m[p].fileType == FOLDER || m[p].fileType == IMAGINARY) :: Slashed(p)
  }

  lemma TypeRoundTrip(t: FileType)
    ensures TypeOf(TypeName(t)) == Some(t)
    ensures !IsTag(TypeName(t))
  {
    assert TypeName(t)[0] == 'F' || TypeName(t)[0] == 'I';
  }

  /** Reading one more entry extends what is rebuilt: its parent, if it has one
      here, has been read already, and its children have not. */
  lemma RebuildOne(m: Monitor, names: set<string>, c: string)
    requires c in m && c !in names
    requires forall x :: x in names ==> x in m && Before(x, c)
    ensures
      var bare := Entry(m[c].fileType, m[c].timestamp, None, true, true);
      AddChild(Rebuilt(m, names)[c := bare], Parent(c), c) == Rebuilt(m, names + {c})
  {
    var bare := Entry(m[c].fileType, m[c].timestamp, None, true, true);
    var before := Rebuilt(m, names)[c := bare];
    var built := AddedChild(before, Parent(c), c);
    forall p | p in names + {c}
      ensures built[p] == RebuiltEntry(m[p], names + {c}, p)
    {
      BuiltAt(m, names, c, p);
    }
    assert built.Keys == names + {c} == Rebuilt(m, names + {c}).Keys;
    assert built == Rebuilt(m, names + {c});
  }

  lemma BuiltAt(m: Monitor, names: set<string>, c: string, p: string)
    requires c in m && c !in names && (p == c || (p in names && p in m))
    requires forall x :: x in names ==> Before(x, c)
    ensures
      var e := if p == c then Entry(m[c].fileType, m[c].timestamp, None, true, true) else RebuiltEntry(m[p], names, p);
      e.(children := Grown(e.children, Parent(c) == Some(p), c)) == RebuiltEntry(m[p], names + {c}, p)
  {
    if p == c {
      NoChildYet(names + {c}, c);
    } else {
      OneMoreChild(names, c, p);
    }
  }

  function Grown(children: Option<set<string>>, isParent: bool, c: string): Option<set<string>>
  {
    if !isParent then children
    else if children == None then Some({c})
    else Some(children.value + {c})
  }

  lemma AddedChild(entries: Monitor, parent: Option<string>, c: string) returns (built: Monitor)
    ensures built == AddChild(entries, parent, c)
    ensures built.Keys == entries.Keys
    ensures forall p :: p in entries ==>
              built[p] == entries[p].(children := Grown(entries[p].children, parent == Some(p), c))
  {
    built := AddChild(entries, parent, c);
  }

  lemma NoChildYet(names: set<string>, p: string)
    requires forall x :: x in names ==> x == p || Before(x, p)
    ensures ChildrenAmong(names, p) == None
  {
    forall c | c in names
      ensures Parent(c) != Some(p)
    {
      if Parent(c) == Some(p) {
        PrefixBefore(p, c);
        BeforeAsymmetric(p, c);
      }
    }
  }

  lemma OneMoreChild(names: set<string>, c: string, p: string)
    requires c !in names
    ensures ChildrenAmong(names + {c}, p) == Grown(ChildrenAmong(names, p), Parent(c) == Some(p), c)
  {
    var was := set x | x in names && Parent(x) == Some(p);
    var now := set x | x in names + {c} && Parent(x) == Some(p);
    if Parent(c) == Some(p) {
      assert now == was + {c};
      assert was == {} ==> now == {c};
    } else {
      assert now == was;
    }
  }

  lemma StepEntry(r: Reading, m: Monitor, names: set<string>, c: string) returns (r': Reading)
    requires Sound(r) && r.segment == Some(FILE_OBJECT)
    requires r.entries == Rebuilt(m, names)
    requires c in m && c !in names
    requires forall x :: x in names ==> x in m && Before(x, c)
    ensures r' == r.(entries := Rebuilt(m, names + {c}),
                     w := r.w.(includePaths := r.w.includePaths - Accounted(m, {c})))
    ensures Sound(r') && Step(r, EntryRow(c, m[c])) == Success(r')
  {
    TypeRoundTrip(m[c].fileType);
    ParseRender(m[c].timestamp);
    RebuildOne(m, names, c);
    assert Accounted(m, {c}) ==
           if m[c].fileType == FOLDER || m[c].fileType == IMAGINARY then {Slashed(c)} else {};
    r' := RecoverEntry(r, EntryRow(c, m[c]));
  }

  lemma AccountedCons(m: Monitor, rest: seq<string>, paths: set<string>)
    requires rest != []
    ensures paths - Accounted(m, Elements(rest)) == paths - Accounted(m, {rest[0]}) - Accounted(m, Elements(rest[1..]))
  {
    assert rest == [rest[0]] + rest[1..];
    assert Accounted(m, Elements(rest)) == Accounted(m, {rest[0]}) + Accounted(m, Elements(rest[1..]));
  }

  lemma {:induction false} ReadEntries(r: Reading, m: Monitor, names: set<string>, rest: seq<string>) returns (r': Reading)
    requires Sound(r) && r.segment == Some(FILE_OBJECT)
    requires r.entries == Rebuilt(m, names)
    requires Sorted(rest) && forall n :: n in rest ==> n in m
    requires m.Keys == names + Elements(rest)
    requires forall x, y :: x in names && y in rest ==> Before(x, y)
    ensures r' == r.(entries := Rebuilt(m, m.Keys),
                     w := r.w.(includePaths := r.w.includePaths - Accounted(m, Elements(rest))))
    ensures Sound(r') && Read(r, EntryRows(rest, m)) == Success(r')
    decreases |rest|
  {
    if rest == [] {
      r' := r;
      assert names == m.Keys;
      assert r.w.includePaths - Accounted(m, Elements(rest)) == r.w.includePaths;
    } else {
      var c := rest[0];
      assert rest == [c] + rest[1..];
      SortedHead(rest);
      if c in names {
        BeforeIrreflexive(c);
      }
      var next := StepEntry(r, m, names, c);
      assert EntryRows(rest, m)[1..] == EntryRows(rest[1..], m);
      assert m.Keys == names + {c} + Elements(rest[1..]);
      r' := ReadEntries(next, m, names + {c}, rest[1..]);
      AccountedCons(m, rest, r.w.includePaths);
    }
  }

  function Assigned(names: set<string>, target: nat): map<string, nat>
  {
    map n | n in names :: target
  }

  lemma StepFolder(r: Reading, name: string) returns (next: Reading)
    requires Sound(r) && r.segment == Some(FILE_MONITOR) && r.target.Some? && !IsTag(name)
    ensures next == r.(w := r.w.(monitorByFolder := r.w.monitorByFolder[name := r.target.value]))
    ensures Sound(next) && Step(r, [name]) == Success(next)
  {
    next := r.(w := r.w.(monitorByFolder := r.w.monitorByFolder[name := r.target.value]));
  }

  lemma AssignedCons(start: map<string, nat>, names: seq<string>, t: nat)
    requires names != []
    ensures start + Assigned(Elements(names), t) == start[names[0] := t] + Assigned(Elements(names[1..]), t)
  {
    assert names == [names[0]] + names[1..];
  }

  lemma {:induction false} ReadFolders(r: Reading, names: seq<string>) returns (r': Reading)
    requires Sound(r) && r.segment == Some(FILE_MONITOR) && r.target.Some? && Untagged(Elements(names))
    ensures r' == r.(w := r.w.(monitorByFolder := r.w.monitorByFolder + Assigned(Elements(names), r.target.value)))
    ensures Sound(r') && Read(r, Single(names)) == Success(r')
    decreases |names|
  {
    var t := r.target.value;
    if names == [] {
      r' := r;
      assert r.w.monitorByFolder + Assigned(Elements(names), t) == r.w.monitorByFolder;
    } else {
      assert names[0] in Elements(names);
      var next := StepFolder(r, names[0]);
      assert Single(names)[0] == [names[0]];
      assert Single(names)[1..] == Single(names[1..]);
      r' := ReadFolders(next, names[1..]);
      AssignedCons(r.w.monitorByFolder, names, t);
    }
  }

  lemma ReadMonitorHead(r: Reading, folders: set<string>) returns (r': Reading)
    requires Sound(r) && r.segment == None && Untagged(folders)
    ensures
      var k := LeastLoaded(r.w.monitors);
      r' == r.(segment := Some(FILE_MONITOR), target := Some(k),
               w := r.w.(monitorByFolder := r.w.monitorByFolder + Assigned(folders, k)))
    ensures Sound(r') && Read(r, MonitorHead(folders)) == Success(r')
  {
    ListingElements(folders);
    var r1 := Opened(r, FILE_MONITOR_START_TAG, FILE_MONITOR);
    ReadOne(r, [FILE_MONITOR_START_TAG], r1);
    r' := ReadFolders(r1, Listing(folders));
    Chain(r, [[FILE_MONITOR_START_TAG]], r1, Single(Listing(folders)), r');
  }

  lemma ReadAllEntries(r: Reading, m: Monitor) returns (r': Reading)
    requires Sound(r) && r.segment == Some(FILE_OBJECT) && r.entries == map[]
    ensures r' == r.(entries := Rebuilt(m, m.Keys),
                     w := r.w.(includePaths := r.w.includePaths - Accounted(m, m.Keys)))
    ensures Sound(r') && Read(r, EntryRows(Listing(m.Keys), m)) == Success(r')
  {
    ListingElements(m.Keys);
    assert Rebuilt(m, {}) == map[];
    r' := ReadEntries(r, m, {}, Listing(m.Keys));
  }

  lemma ReadMonitorObjects(r: Reading, m: Monitor) returns (r': Reading)
    requires Sound(r) && r.segment == Some(FILE_MONITOR) && r.entries == map[]
    ensures r' == r.(entries := Rebuilt(m, m.Keys),
                     w := r.w.(includePaths := r.w.includePaths - Accounted(m, m.Keys)))
    ensures Sound(r') && Read(r, MonitorObjects(m)) == Success(r')
  {
    var r1 := Opened(r, FILE_OBJECT_START_TAG, FILE_OBJECT);
    var r2 := ReadAllEntries(r1, m);
    r' := ObjectsClosed(r2);
    ReadSegment(r, FILE_OBJECT_START_TAG, EntryRows(Listing(m.Keys), m), FILE_OBJECT_END_TAG, r1, r2, r');
  }

  lemma ReadMonitorEnd(r: Reading) returns (r': Reading)
    requires Sound(r) && r.segment == Some(FILE_MONITOR) && r.target.Some? && r.w.monitors[r.target.value] == map[]
    ensures r' == r.(segment := None, entries := map[],
                     w := r.w.(monitors := r.w.monitors[r.target.value := r.entries]))
    ensures Sound(r') && Read(r, [[FILE_MONITOR_END_TAG]]) == Success(r')
  {
    TagsDistinct();
    assert AddAll(map[], r.entries) == r.entries;
    r' := CloseMonitor(r).value;
    ReadOne(r, [FILE_MONITOR_END_TAG], r');
  }

  /** A whole monitor segment fills the least loaded monitor, if that is empty. */
  lemma ReadMonitor(r: Reading, folders: set<string>, m: Monitor) returns (r': Reading)
    requires Sound(r) && r.segment == None && r.entries == map[] && Untagged(folders)
    requires r.w.monitors[LeastLoaded(r.w.monitors)] == map[]
    ensures
      var k := LeastLoaded(r.w.monitors);
      r' == r.(target := Some(k),
               w := r.w.(monitors := r.w.monitors[k := Rebuilt(m, m.Keys)],
                         monitorByFolder := r.w.monitorByFolder + Assigned(folders, k),
                         includePaths := r.w.includePaths - Accounted(m, m.Keys)))
    ensures Sound(r') && Read(r, MonitorRows(folders, m)) == Success(r')
  {
    var r1 := ReadMonitorHead(r, folders);
    var r2 := ReadMonitorObjects(r1, m);
    r' := ReadMonitorEnd(r2);
    Chain(r, MonitorHead(folders), r1, MonitorObjects(m), r2);
    Chain(r, MonitorHead(folders) + MonitorObjects(m), r2, [[FILE_MONITOR_END_TAG]], r');
  }

  /*** All monitors ***/

  /** The non-empty monitors, in order, as they are once read. */
  function Filled(ms: seq<Monitor>): (r: seq<Monitor>)
    ensures |r| <= |ms|
    ensures forall i :: 0 <= i < |r| ==> r[i] != map[]
  {
    if ms == [] then []
    else
      var last := ms[|ms| - 1];
      if last == map[] then Filled(ms[..|ms| - 1])
      else
        assert forall p :: p in last ==> p in Rebuilt(last, last.Keys);
        Filled(ms[..|ms| - 1]) + [Rebuilt(last, last.Keys)]
  }

  /** The monitors once the first `i` have been read into as many empty ones. */
  function Compacted(ms: seq<Monitor>, i: nat): (r: seq<Monitor>)
    requires i <= |ms|
    ensures |r| == |ms|
  {
    Filled(ms[..i]) + EmptyMonitors(|ms| - |Filled(ms[..i])|)
  }

  lemma FirstEmptyIsLeast(ms: seq<Monitor>, f: nat)
    requires f < |ms| && ms[f] == map[] && forall i :: 0 <= i < f ==> ms[i] != map[]
    ensures LeastLoaded(ms) == f
  {
    var k := LeastLoaded(ms);
    assert |ms[f]| == 0;
    assert |ms[k]| == 0;
  }

  lemma CompactOne(ms: seq<Monitor>, i: nat)
    requires i < |ms|
    ensures ms[i] == map[] ==> Compacted(ms, i + 1) == Compacted(ms, i)
    ensures ms[i] != map[] ==>
              var f := |Filled(ms[..i])|;
              && f < |ms| && LeastLoaded(Compacted(ms, i)) == f && Compacted(ms, i)[f] == map[]
              && Compacted(ms, i)[f := Rebuilt(ms[i], ms[i].Keys)] == Compacted(ms, i + 1)
  {
    assert ms[..i + 1][..i] == ms[..i] && ms[..i + 1][i] == ms[i];
    if ms[i] != map[] {
      var f := |Filled(ms[..i])|;
      assert Compacted(ms, i)[f] == map[];
      FirstEmptyIsLeast(Compacted(ms, i), f);
    }
  }

  /** The monitor that takes over the entries of monitor `i`. */
  function NewPlace(ms: seq<Monitor>, i: nat): nat
    requires i <= |ms|
  {
    |Filled(ms[..i])|
  }

  /** The monitor that takes over an included folder watched by a non-empty one. */
  function PlacedFrom(w: Watched, i: nat): map<string, nat>
  {
    map f | f in Registered(w) && i <= w.monitorByFolder[f] :: NewPlace(w.monitors, w.monitorByFolder[f])
  }

  function AccountedFrom(ms: seq<Monitor>, i: nat): set<string>
    requires i <= |ms|
    decreases |ms| - i
  {
    if i == |ms| then {} else Accounted(ms[i], ms[i].Keys) + AccountedFrom(ms, i + 1)
  }

  lemma PlacedCons(w: Watched, i: nat, start: map<string, nat>)
    requires i < |w.monitors|
    ensures w.monitors[i] == map[] ==> PlacedFrom(w, i) == PlacedFrom(w, i + 1)
    ensures w.monitors[i] != map[] ==>
              start + PlacedFrom(w, i)
              == start + Assigned(FoldersOf(w.monitorByFolder, i), NewPlace(w.monitors, i)) + PlacedFrom(w, i + 1)
  {
    if w.monitors[i] == map[] {
      assert forall f :: f in Registered(w) ==> w.monitorByFolder[f] != i;
    } else {
      var here := Assigned(FoldersOf(w.monitorByFolder, i), NewPlace(w.monitors, i));
      PlacedSplit(w, i, here);
      MapSumAssociative(start, here, PlacedFrom(w, i + 1));
    }
  }

  lemma MapSumAssociative(a: map<string, nat>, b: map<string, nat>, c: map<string, nat>)
    ensures a + (b + c) == a + b + c
  {}

  lemma PlacedSplit(w: Watched, i: nat, here: map<string, nat>)
    requires i < |w.monitors| && w.monitors[i] != map[]
    requires here == Assigned(FoldersOf(w.monitorByFolder, i), NewPlace(w.monitors, i))
    ensures PlacedFrom(w, i) == here + PlacedFrom(w, i + 1)
  {
    var all, later := PlacedFrom(w, i), PlacedFrom(w, i + 1);
    forall f
      ensures f in all <==> f in here || f in later
      ensures f in here ==> f !in later && all[f] == here[f]
    {
    }
  }

  lemma ReadNextMonitor(r: Reading, w: Watched, i: nat) returns (r': Reading)
    requires Sound(r) && r.segment == None && r.entries == map[] && Untagged(w.monitorByFolder.Keys)
    requires i < |w.monitors| && r.w.monitors == Compacted(w.monitors, i) && w.monitors[i] != map[]
    ensures r' == r.(target := Some(NewPlace(w.monitors, i)), w := AfterOne(r.w, w, i))
    ensures Sound(r') && Read(r, MonitorRows(FoldersOf(w.monitorByFolder, i), w.monitors[i])) == Success(r')
  {
    CompactOne(w.monitors, i);
    r' := ReadMonitor(r, FoldersOf(w.monitorByFolder, i), w.monitors[i]);
  }

  /** What reading the segment of monitor `i`, if there is one, changes. */
  function AfterOne(u: Watched, w: Watched, i: nat): Watched
    requires i < |w.monitors|
  {
    if w.monitors[i] == map[] then u
    else
      u.(monitors := Compacted(w.monitors, i + 1),
      monitorByFolder := u.monitorByFolder + Assigned(FoldersOf(w.monitorByFolder, i), NewPlace(w.monitors, i)),
      includePaths := u.includePaths - Accounted(w.monitors[i], w.monitors[i].Keys))
  }

  function AfterAll(u: Watched, w: Watched, i: nat): (r: Watched)
    requires i <= |w.monitors|
    ensures u.monitors != [] ==> r.monitors != []
    decreases |w.monitors| - i
  {
    if i == |w.monitors| then u else AfterAll(AfterOne(u, w, i), w, i + 1)
  }

  lemma PrependRows(r: Reading, w: Watched, i: nat, next: Reading, r': Reading)
    requires i < |w.monitors| && Sound(r) && Read(r, RowsAt(w, i)) == Success(next)
    requires Sound(next) && Read(next, AllMonitorRows(w, i + 1)) == Success(r')
    ensures Read(r, AllMonitorRows(w, i)) == Success(r')
  {
    Chain(r, RowsAt(w, i), next, AllMonitorRows(w, i + 1), r');
  }

  lemma ReadMonitorAt(r: Reading, w: Watched, i: nat, end: Watched) returns (next: Reading)
    requires Sound(r) && r.segment == None && r.entries == map[] && Untagged(w.monitorByFolder.Keys)
    requires i < |w.monitors| && r.w.monitors == Compacted(w.monitors, i)
    ensures next.segment == None && next.entries == map[] && next.w.monitors == Compacted(w.monitors, i + 1)
    requires AfterAll(r.w, w, i) == end
    ensures AfterAll(next.w, w, i + 1) == end
    ensures Sound(next) && Read(r, RowsAt(w, i)) == Success(next)
  {
    if w.monitors[i] == map[] {
      next := r;
      CompactOne(w.monitors, i);
    } else {
      next := ReadNextMonitor(r, w, i);
    }
  }

  /** The loop over the monitors is between segments, having read the first `i`. */
  ghost predicate Between(r: Reading, w: Watched, i: nat)
  {
    && i <= |w.monitors| && Sound(r) && r.segment == None && r.entries == map[]
    && r.w.monitors == Compacted(w.monitors, i)
  }

  lemma {:induction false} ReadAllMonitors(r: Reading, w: Watched, i: nat, end: Watched) returns (r': Reading)
    requires Untagged(w.monitorByFolder.Keys)
    requires Between(r, w, i) && AfterAll(r.w, w, i) == end
    ensures r'.w == end && r'.segment == None && r'.entries == map[]
    ensures Sound(r') && Read(r, AllMonitorRows(w, i)) == Success(r')
    decreases |w.monitors| - i, 1
  {
    if i == |w.monitors| {
      r' := ReadNothing(r, w);
    } else {
      var next;
      next, r' := ReadRest(r, w, i, end);
      PrependRows(r, w, i, next, r');
    }
  }

  lemma {:induction false} ReadRest(r: Reading, w: Watched, i: nat, end: Watched) returns (next: Reading, r': Reading)
    requires Untagged(w.monitorByFolder.Keys)
    requires i < |w.monitors| && Between(r, w, i) && AfterAll(r.w, w, i) == end
    ensures r'.w == end && r'.segment == None && r'.entries == map[]
    ensures Sound(next) && Read(r, RowsAt(w, i)) == Success(next)
    ensures Sound(r') && Read(next, AllMonitorRows(w, i + 1)) == Success(r')
    decreases |w.monitors| - i, 0
  {
    next := ReadMonitorAt(r, w, i, end);
    r' := ReadAllMonitors(next, w, i + 1, end);
  }

  lemma ReadNothing(r: Reading, w: Watched) returns (r': Reading)
    requires Sound(r)
    ensures r' == r && r'.w == AfterAll(r.w, w, |w.monitors|)
    ensures Read(r, AllMonitorRows(w, |w.monitors|)) == Success(r')
  {
    r' := r;
  }

  /** All the segments together. */
  lemma {:induction false} AfterAllMeaning(u: Watched, w: Watched, i: nat)
    requires i <= |w.monitors| && u.monitors == Compacted(w.monitors, i)
    ensures AfterAll(u, w, i) == u.(monitors := Compacted(w.monitors, |w.monitors|),
                                    monitorByFolder := u.monitorByFolder + PlacedFrom(w, i),
                                    includePaths := u.includePaths - AccountedFrom(w.monitors, i))
    decreases |w.monitors| - i
  {
    if i == |w.monitors| {
      assert u.monitorByFolder + PlacedFrom(w, i) == u.monitorByFolder;
      assert u.includePaths - {} == u.includePaths;
    } else {
      var next := AfterOne(u, w, i);
      CompactOne(w.monitors, i);
      PlacedCons(w, i, u.monitorByFolder);
      AccountedFromCons(w.monitors, i, u.includePaths);
      AfterAllMeaning(next, w, i + 1);
    }
  }

  lemma AccountedFromCons(ms: seq<Monitor>, i: nat, paths: set<string>)
    requires i < |ms|
    ensures paths - AccountedFrom(ms, i) == paths - Accounted(ms[i], ms[i].Keys) - AccountedFrom(ms, i + 1)
    ensures ms[i] == map[] ==> AccountedFrom(ms, i) == AccountedFrom(ms, i + 1)
  {}

  /*** Included folders not registered yet ***/

  lemma ReadPendingOne(r: Reading, name: string) returns (r': Reading)
    requires Sound(r) && r.segment == None && r.entries == map[] && !IsTag(name)
    ensures
      var k := LeastLoaded(r.w.monitors);
      r' == r.(target := Some(k), w := r.w.(monitorByFolder := r.w.monitorByFolder[name := k]))
    ensures Sound(r') && Read(r, PendingRowsOf(name)) == Success(r')
  {
    var r1 := Opened(r, FILE_MONITOR_START_TAG, FILE_MONITOR);
    var r2 := StepFolder(r1, name);
    var r3 := Opened(r2, FILE_OBJECT_START_TAG, FILE_OBJECT);
    var r4 := SkippedRow(r3, name);
    var r5 := ObjectsClosed(r4);
    r' := EmptyMonitorClosed(r5);
    ReadOne(r, [FILE_MONITOR_START_TAG], r1);
    ReadOne(r1, [name], r2);
    ReadOne(r2, [FILE_OBJECT_START_TAG], r3);
    ReadOne(r3, [name], r4);
    ReadOne(r4, [FILE_OBJECT_END_TAG], r5);
    ReadOne(r5, [FILE_MONITOR_END_TAG], r');
    Chain(r, [[FILE_MONITOR_START_TAG]], r1, [[name]], r2);
    Chain(r2, [[FILE_OBJECT_START_TAG]], r3, [[name]], r4);
    Chain(r4, [[FILE_OBJECT_END_TAG]], r5, [[FILE_MONITOR_END_TAG]], r');
    var a, b, c := [[FILE_MONITOR_START_TAG]] + [[name]], [[FILE_OBJECT_START_TAG]] + [[name]],
      [[FILE_OBJECT_END_TAG]] + [[FILE_MONITOR_END_TAG]];
    Chain(r, a, r2, b, r4);
    Chain(r, a + b, r4, c, r');
    assert PendingRowsOf(name) == a + b + c;
  }

  /** A row that does not have three cells names no entry. */
  lemma SkippedRow(r: Reading, name: string) returns (r': Reading)
    requires Sound(r) && r.segment == Some(FILE_OBJECT) && !IsTag(name)
    ensures r' == r && Step(r, [name]) == Success(r')
  {
    r' := r;
  }

  lemma EmptyMonitorClosed(r: Reading) returns (r': Reading)
    requires Sound(r) && r.segment == Some(FILE_MONITOR) && r.target.Some? && r.entries == map[]
    ensures r' == r.(segment := None)
    ensures Sound(r') && Step(r, [FILE_MONITOR_END_TAG]) == Success(r')
  {
    TagsDistinct();
    var i := r.target.value;
    assert AddAll(r.w.monitors[i], map[]) == r.w.monitors[i];
    assert r.w.monitors[i := r.w.monitors[i]] == r.w.monitors;
    r' := CloseMonitor(r).value;
  }

  lemma {:induction false} ReadPending(r: Reading, names: seq<string>) returns (r': Reading)
    requires Sound(r) && r.segment == None && r.entries == map[] && Untagged(Elements(names))
    ensures r'.w == r.w.(monitorByFolder :=
                           r.w.monitorByFolder + Assigned(Elements(names), LeastLoaded(r.w.monitors)))
    ensures Sound(r') && Read(r, PendingRows(names)) == Success(r')
    decreases |names|
  {
    if names == [] {
      r' := r;
      assert r.w.monitorByFolder + Assigned(Elements(names), LeastLoaded(r.w.monitors)) == r.w.monitorByFolder;
    } else {
      assert names[0] in Elements(names);
      assert forall n :: n in names[1..] ==> n in names;
      var next := ReadPendingOne(r, names[0]);
      AssignedCons(r.w.monitorByFolder, names, LeastLoaded(r.w.monitors));
      r' := ReadPending(next, names[1..]);
      Chain(r, PendingRowsOf(names[0]), next, PendingRows(names[1..]), r');
    }
  }

  /*** The round trip ***/

  /** The names whose place is the first cell of a row. Names made by the VFS all
      start with "file:" and none of them is a tag. */
  ghost predicate NoTags(w: Watched)
  {
    && Untagged(w.included) && Untagged(w.excluded) && Untagged(w.parents.Keys)
    && Untagged(w.monitorByFolder.Keys) && Untagged(w.includePaths)
  }

  /** What a watcher knows after reading the dump of `w`. */
  function Recovered(w: Watched): Watched
    requires w.monitors != []
  {
    var monitors := Compacted(w.monitors, |w.monitors|);
    Watched(w.included, w.excluded, w.parents,
            w.included - AccountedFrom(w.monitors, 0),
            monitors,
            PlacedFrom(w, 0) + Assigned(w.includePaths - Registered(w), LeastLoaded(monitors)))
  }

  lemma ReadFolderSets(r: Reading, w: Watched) returns (r': Reading)
    requires Sound(r) && r.segment == None && r.included == {} && r.excluded == {} && r.parents == map[]
    requires NoTags(w)
    ensures r' == r.(included := w.included, excluded := w.excluded, parents := w.parents,
                     w := r.w.(included := w.included, includePaths := r.w.includePaths + w.included,
                               excluded := w.excluded, parents := w.parents))
    ensures Sound(r') && Read(r, FolderSetRows(w)) == Success(r')
  {
    var r1 := ReadIncludes(r, w);
    var r2 := ReadExcludes(r1, w);
    r' := ReadRoots(r2, w);
    Chain3(r, IncludeRows(w), r1, ExcludeRows(w), r2, RootRows(w), r');
  }

  lemma Chain3(r: Reading, a: seq<Row>, r1: Reading, b: seq<Row>, r2: Reading, c: seq<Row>, r3: Reading)
    requires Sound(r) && Read(r, a) == Success(r1)
    requires Sound(r1) && Read(r1, b) == Success(r2)
    requires Sound(r2) && Read(r2, c) == Success(r3)
    ensures Read(r, a + b + c) == Success(r3)
  {
    Chain(r, a, r1, b, r2);
    Chain(r, a + b, r2, c, r3);
  }

  lemma ReadBody(u: Watched, w: Watched) returns (r': Reading)
    requires w.monitors != [] && NoTags(w)
    requires u.monitors == EmptyMonitors(|w.monitors|)
    ensures r'.w == Rewritten(u, w)
    ensures Read(StartReading(u), Body(w)) == Success(r')
  {
    var r := StartReading(u);
    var pending := w.includePaths - Registered(w);
    var r1 := ReadFolderSets(r, w);
    assert w.monitors[..0] == [];
    assert Compacted(w.monitors, 0) == u.monitors;
    var r2 := ReadAllMonitors(r1, w, 0, AfterAll(r1.w, w, 0));
    ListingElements(pending);
    r' := ReadPending(r2, Listing(pending));
    Chain3(r, FolderSetRows(w), r1, AllMonitorRows(w, 0), r2, PendingRows(Listing(pending)), r');
  }

  /** What each part of the dump of `w` writes over watcher `u`. */
  function Rewritten(u: Watched, w: Watched): Watched
    requires w.monitors != [] && u.monitors != []
  {
    var read := AfterAll(u.(included := w.included, includePaths := u.includePaths + w.included,
                            excluded := w.excluded, parents := w.parents), w, 0);
    read.(monitorByFolder := read.monitorByFolder
                             + Assigned(w.includePaths - Registered(w), LeastLoaded(read.monitors)))
  }

  lemma RewrittenFresh(u: Watched, w: Watched)
    requires w.monitors != [] && u.monitors == EmptyMonitors(|w.monitors|)
    requires u.monitorByFolder == map[] && u.includePaths == {}
    ensures Rewritten(u, w) == Recovered(w)
  {
    assert w.monitors[..0] == [];
    assert Compacted(w.monitors, 0) == u.monitors;
    AfterAllMeaning(u.(included := w.included, includePaths := u.includePaths + w.included,
                       excluded := w.excluded, parents := w.parents), w, 0);
    assert map[] + PlacedFrom(w, 0) == PlacedFrom(w, 0);
    assert {} + w.included == w.included;
  }

  lemma ReadHeader(host: string, u: Watched, body: seq<Row>, r: Reading)
    requires u.monitors != [] && Read(StartReading(u), body) == Success(r)
    ensures Recover(host, u, [[COMPONENT_LINE], [HostLine(host)]] + body) == Success(r.w)
  {
    assert ([[COMPONENT_LINE], [HostLine(host)]] + body)[2..] == body;
  }

  /** For every watcher: a freshly constructed watcher with as many monitors that
      reads its dump has the same included, excluded and parent folders; the
      non-empty monitors move up, each entry whole with its type and time and
      with exactly the children listed with it; every included folder without a
      folder entry is pending again. */
  lemma DumpRecoverRoundTrip(host: string, w: Watched, u: Watched) returns (rows: seq<Row>)
    requires w.monitors != [] && NoTags(w)
    requires u.monitors == EmptyMonitors(|w.monitors|) && u.monitorByFolder == map[] && u.includePaths == {}
    ensures rows == Dump(host, w) && Recover(host, u, rows) == Success(Recovered(w))
  {
    rows := Dump(host, w);
    var r := ReadBody(u, w);
    ReadHeader(host, u, Body(w), r);
    RewrittenFresh(u, w);
  }

  lemma HostLinesDiffer(host: string, other: string)
    requires host != other
    ensures HostLine(host) != HostLine(other)
  {
    var prefix := |"Hostname:"|;
    assert HostLine(host)[prefix..] == host && HostLine(other)[prefix..] == other;
  }

  lemma HeaderRefused(host: string, u: Watched, rows: seq<Row>, line: string)
    requires u.monitors != [] && |rows| >= 2 && rows[0] == [COMPONENT_LINE] && rows[1] == [line] && line != HostLine(host)
    ensures Recover(host, u, rows) == Failure(IllegalState)
  {}

  /** A dump without two header rows is not read, the first row that is missing or empty
      deciding the error; any other is read exactly if they are the component's and the
      host's. */
  lemma HeaderMeaning(host: string, u: Watched, rows: seq<Row>)
    requires u.monitors != []
    ensures rows == [] || (|rows| == 1 && rows[0] != []) ==> Recover(host, u, rows) == Failure(NullPointer)
    ensures rows != [] && (rows[0] == [] || (|rows| > 1 && rows[1] == [])) ==> Recover(host, u, rows) == Failure(IndexOutOfBounds)
    ensures |rows| >= 2 && rows[0] != [] && rows[1] != [] ==>
              if rows[0][0] == "ComponentType:FileWatcher" && rows[1][0] == "Hostname:" + host
              then Recover(host, u, rows) == match Read(StartReading(u), rows[2..])
                                             case Failure(e) => Failure(e)
                                             case Success(r) => Success(r.w)
              else Recover(host, u, rows) == Failure(IllegalState)
  {}

  /** The dump of another host is refused. */
  lemma ForeignDumpRefused(host: string, other: string, w: Watched, u: Watched) returns (rows: seq<Row>)
    requires u.monitors != [] && host != other
    ensures rows == Dump(other, w) && Recover(host, u, rows) == Failure(IllegalState)
  {
    rows := Dump(other, w);
    HostLinesDiffer(host, other);
    HeaderRefused(host, u, rows, HostLine(other));
  }

  /*** What the recovered watcher means ***/

  /** Monitor `i`, if it has entries, is found whole at its rank among those that have. */
  lemma MonitorLandsWhole(ms: seq<Monitor>, i: nat) returns (k: nat)
    requires i < |ms| && ms[i] != map[]
    ensures k == NewPlace(ms, i) && k < |ms| && Compacted(ms, |ms|)[k] == Rebuilt(ms[i], ms[i].Keys)
  {
    k := NewPlace(ms, i);
    FilledPrefix(ms, i + 1);
    assert ms[..i + 1][..i] == ms[..i] && ms[..i + 1][i] == ms[i];
    assert ms[..|ms|] == ms;
  }

  lemma {:induction false} FilledPrefix(ms: seq<Monitor>, i: nat)
    requires i <= |ms|
    ensures Filled(ms[..i]) <= Filled(ms)
    decreases |ms|
  {
    if i == |ms| {
      assert ms[..i] == ms;
    } else {
      var init := ms[..|ms| - 1];
      assert init[..i] == ms[..i];
      FilledPrefix(init, i);
    }
  }

  /** The entry of a recovered monitor at `p`: its type and time are kept, and its
      children are exactly the entries whose parent it is. */
  lemma EntryLandsWhole(m: Monitor, p: string)
    requires p in m
    ensures
      var e := Rebuilt(m, m.Keys)[p];
      && e.fileType == m[p].fileType && e.timestamp == m[p].timestamp && e.present && e.recovered
      && (forall c :: c in m && Parent(c) == Some(p) <==> e.children.Some? && c in e.children.value)
      && Rebuilt(m, m.Keys).Keys == m.Keys
  {
    var children := set c | c in m.Keys && Parent(c) == Some(p);
    assert ChildrenAmong(m.Keys, p) == if children == {} then None else Some(children);
    assert forall c :: c in m && Parent(c) == Some(p) <==> c in children;
  }

  lemma {:induction false} AccountedMeaning(ms: seq<Monitor>, i: nat, f: string)
    requires i <= |ms|
    ensures f in AccountedFrom(ms, i) <==>
              exists k, p :: i <= k < |ms| && p in ms[k] && Slashed(p) == f
                             && (ms[k][p].fileType == FOLDER || ms[k][p].fileType == IMAGINARY)
    decreases |ms| - i
  {
    if i < |ms| {
      AccountedMeaning(ms, i + 1, f);
      if f in Accounted(ms[i], ms[i].Keys) {
        var p :| p in ms[i] && (ms[i][p].fileType == FOLDER || ms[i][p].fileType == IMAGINARY) && Slashed(p) == f;
        assert p in ms[i];
      }
    }
  }

  /** An included folder is pending after recovery exactly when no entry of type
      FOLDER or IMAGINARY stands for it. */
  lemma PendingAfterRecovery(w: Watched, f: string)
    requires w.monitors != []
    ensures f in Recovered(w).includePaths <==>
              && f in w.included
              && !exists k, p :: 0 <= k < |w.monitors| && p in w.monitors[k] && Slashed(p) == f
                                 && (w.monitors[k][p].fileType == FOLDER || w.monitors[k][p].fileType == IMAGINARY)
  {
    AccountedMeaning(w.monitors, 0, f);
  }

  /** An entry stands for a folder whose slash-terminated name is its own, with a slash
      added if it has none. */
  lemma StandsFor(p: string, f: string)
    ensures Slashed(p) == f <==> if exists s :: p == s + "/" then f == p else f == p + "/"
  {
    if p != "" && p[|p| - 1] == '/' {
      assert p == p[..|p| - 1] + "/";
    }
  }

  lemma OneListed(x: string)
    ensures Listing({x}) == [x]
  {}

  lemma FolderSetText(w: Watched, a: string, x: string)
    requires w.included == {a} && w.excluded == {x} && w.parents == map[x := a]
    ensures FolderSetRows(w) ==
      [["<IncludeFolder>"], [a], ["</IncludeFolder>"], ["<ExcludeFolder>"], [x], ["</ExcludeFolder>"],
       ["<RootFolder>"], [x, a], ["</RootFolder>"]]
  {
    OneListed(a);
    OneListed(x);
    assert w.parents.Keys == {x};
    assert Single([a]) == [[a]] && Single([x]) == [[x]] && Pairs([x], w.parents) == [[x, a]];
  }

  lemma MonitorText(w: Watched, a: string, name: string, e: Entry)
    requires w.monitors == [map[name := e]] && w.monitorByFolder == map[a := 0]
    ensures AllMonitorRows(w, 0) ==
      [["<FileMonitor>"], [a], ["<FileObject>"], [TypeName(e.fileType), name, Render(e.timestamp)],
       ["</FileObject>"], ["</FileMonitor>"]]
  {
    var m: Monitor := map[name := e];
    OneListed(a);
    OneListed(name);
    assert FoldersOf(w.monitorByFolder, 0) == {a} && m.Keys == {name};
    assert name in m;
    assert Single([a]) == [[a]] && EntryRows([name], m) == [EntryRow(name, e)];
    assert AllMonitorRows(w, 1) == [];
    assert RowsAt(w, 0) == MonitorRows({a}, m);
  }

  lemma PendingText(w: Watched, a: string, b: string, name: string, e: Entry)
    requires w.monitors == [map[name := e]] && w.monitorByFolder == map[a := 0] && w.includePaths == {a, b} && a != b
    ensures PendingRows(Listing(w.includePaths - Registered(w))) ==
      [["<FileMonitor>"], [b], ["<FileObject>"], [b], ["</FileObject>"], ["</FileMonitor>"]]
  {
    var m: Monitor := map[name := e];
    assert name in m;
    assert Registered(w) == {a};
    assert w.includePaths - Registered(w) == {b};
    OneListed(b);
    assert [b][1..] == [];
    assert PendingRows([b]) == PendingRowsOf(b) + [];
  }

  /** The rows of a watcher with an included folder `a`, an exclusion `x` in it, one
      monitor with one entry, and a pending folder `b`. */
  lemma DumpText(w: Watched, host: string, a: string, x: string, b: string, name: string, t: long)
    requires a != b
    requires w == Watched({a}, {x}, map[x := a], {a, b}, [map[name := Entry(FOLDER, t, None, true, false)]], map[a := 0])
    ensures Dump(host, w) ==
      [["ComponentType:FileWatcher"], ["Hostname:" + host]]
      + ([["<IncludeFolder>"], [a], ["</IncludeFolder>"], ["<ExcludeFolder>"], [x], ["</ExcludeFolder>"],
          ["<RootFolder>"], [x, a], ["</RootFolder>"]]
         + [["<FileMonitor>"], [a], ["<FileObject>"], ["FOLDER", name, Render(t)], ["</FileObject>"], ["</FileMonitor>"]]
         + [["<FileMonitor>"], [b], ["<FileObject>"], [b], ["</FileObject>"], ["</FileMonitor>"]])
  {
    FolderSetText(w, a, x);
    MonitorText(w, a, name, Entry(FOLDER, t, None, true, false));
    PendingText(w, a, b, name, Entry(FOLDER, t, None, true, false));
  }

  /** The rows at which reading fails: an empty row; within a segment the opening tag of
      another one, an object tag anywhere but in a monitor, a link without its second
      cell, and what belongs to a monitor when no monitor has been chosen. */
  lemma StepFails(r: Reading, row: Row)
    requires Sound(r)
    ensures Step(r, row).Failure? <==>
              || row == []
              || (r.segment.Some?
                  && (|| row[0] in {"<IncludeFolder>", "<ExcludeFolder>", "<RootFolder>", "<FileMonitor>"}
                      || (row[0] == "<FileObject>" && r.segment != Some(FILE_MONITOR))
                      || (row[0] == "</FileMonitor>" && r.target == None && r.entries != map[])
                      || (!IsTag(row[0]) && r.segment == Some(ROOT_FOLDER) && |row| < 2)
                      || (!IsTag(row[0]) && r.segment == Some(FILE_MONITOR) && r.target == None)))
    ensures Step(r, row).Failure? ==>
              Step(r, row).error
              == if row == [] || (!IsTag(row[0]) && r.segment == Some(ROOT_FOLDER)) then IndexOutOfBounds
                 else if row[0] == "</FileMonitor>" || !IsTag(row[0]) then NullPointer
                 else IllegalState
  {
    TagsDistinct();
  }

  /** A recovered watcher that is shut down again and recovered keeps its monitors. */
  lemma SecondCycleKeepsMonitors(w: Watched) returns (once: Watched, twice: Watched)
    requires w.monitors != []
    ensures once == Recovered(w) && once.monitors != [] && twice == Recovered(once)
    ensures twice.monitors == once.monitors
  {
    once := Recovered(w);
    twice := Recovered(once);
    CompactedTwice(w.monitors);
  }

  lemma CompactedTwice(ms: seq<Monitor>)
    ensures
      var c := Compacted(ms, |ms|);
      Compacted(c, |c|) == c
  {
    var f, c := Filled(ms), Compacted(ms, |ms|);
    assert ms[..|ms|] == ms && c[..|c|] == c;
    FilledRebuilt(ms);
    FilledConcat(f, EmptyMonitors(|ms| - |f|));
    FilledEmpty(|ms| - |f|);
  }

  lemma {:induction false} FilledConcat(a: seq<Monitor>, b: seq<Monitor>)
    ensures Filled(a + b) == Filled(a) + Filled(b)
  {
    if b == [] {
      assert a + b == a;
    } else {
      assert (a + b)[..|a + b| - 1] == a + b[..|b| - 1];
      FilledConcat(a, b[..|b| - 1]);
    }
  }

  lemma {:induction false} FilledEmpty(n: nat)
    ensures Filled(EmptyMonitors(n)) == []
  {
    if n > 0 {
      assert EmptyMonitors(n)[..n - 1] == EmptyMonitors(n - 1);
      FilledEmpty(n - 1);
    }
  }

  lemma RebuiltTwice(m: Monitor)
    ensures Rebuilt(Rebuilt(m, m.Keys), m.Keys) == Rebuilt(m, m.Keys)
  {}

  lemma {:induction false} FilledRebuilt(ms: seq<Monitor>)
    ensures Filled(Filled(ms)) == Filled(ms)
  {
    if ms != [] {
      var init, last := ms[..|ms| - 1], ms[|ms| - 1];
      FilledRebuilt(init);
      if last != map[] {
        var rebuilt := Rebuilt(last, last.Keys);
        RebuiltTwice(last);
        assert rebuilt.Keys == last.Keys;
        assert Filled(ms)[..|Filled(ms)| - 1] == Filled(init);
      }
    }
  }
}
