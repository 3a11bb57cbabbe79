/** The watcher's dump and recovery, as the loops that write and read it. */
module WatcherRecovery {
  import opened Wrappers
  import opened Decimal
  import opened StringOrder
  import opened LoadBalance
  import opened RecoveryModel
  import opened RecoveryRoundTrip

  /** The first `i` of `names`, without those outside `s`. */
  function Kept(names: seq<string>, i: nat, s: set<string>): seq<string>
    requires i <= |names|
  {
    if i == 0 then [] else Kept(names, i - 1, s) + if names[i - 1] in s then [names[i - 1]] else []
  }

  lemma {:induction false} KeptSorted(names: seq<string>, i: nat, s: set<string>)
    requires i <= |names| && Sorted(names)
    ensures Sorted(Kept(names, i, s))
    ensures forall n :: n in Kept(names, i, s) <==> n in names[..i] && n in s
  {
    if i > 0 {
      var before := Kept(names, i - 1, s);
      KeptSorted(names, i - 1, s);
      assert names[..i] == names[..i - 1] + [names[i - 1]];
      if names[i - 1] in s {
        SortedSnoc(before, names[i - 1]);
      }
    }
  }

  lemma SortedSnoc(a: seq<string>, n: string)
    requires Sorted(a) && forall x :: x in a ==> Before(x, n)
    ensures Sorted(a + [n])
  {}

  lemma KeptListing(names: seq<string>, s: set<string>)
    requires Sorted(names) && s <= Elements(names)
    ensures Kept(names, |names|, s) == Listing(s)
  {
    KeptSorted(names, |names|, s);
    assert names[..|names|] == names;
    ListingUnique(Kept(names, |names|, s));
    assert Elements(Kept(names, |names|, s)) == s;
  }

  lemma SingleSnoc(names: seq<string>, i: nat)
    requires i < |names|
    ensures Single(names[..i + 1]) == Single(names[..i]) + [[names[i]]]
  {}

  lemma PairsSnoc(names: seq<string>, i: nat, m: map<string, string>)
    requires i < |names| && forall n :: n in names ==> n in m
    ensures Pairs(names[..i + 1], m) == Pairs(names[..i], m) + [[names[i], m[names[i]]]]
  {}

  lemma EntryRowsSnoc(names: seq<string>, i: nat, m: Monitor)
    requires i < |names| && forall n :: n in names ==> n in m
    ensures EntryRows(names[..i + 1], m) == EntryRows(names[..i], m) + [EntryRow(names[i], m[names[i]])]
  {}

  lemma {:induction false} PendingRowsSnoc(names: seq<string>, i: nat)
    requires i < |names|
    ensures PendingRows(names[..i + 1]) == PendingRows(names[..i]) + PendingRowsOf(names[i])
    decreases i
  {
    if i == 0 {
      assert names[..1][1..] == [] && names[..0] == [];
      assert PendingRows(names[..1]) == PendingRowsOf(names[0]) + PendingRows([]);
    } else {
      assert names[..i + 1][1..] == names[1..][..i] && names[..i][1..] == names[1..][..i - 1];
      PendingRowsSnoc(names[1..], i - 1);
    }
  }

  lemma ConcatAssociative(a: seq<Row>, b: seq<Row>, c: seq<Row>)
    ensures a + b + c == a + (b + c)
  {}

  lemma AllMonitorRowsStep(w: Watched, i: nat, here: seq<Row>) returns (rest: seq<Row>)
    requires i < |w.monitors| && here == RowsAt(w, i)
    ensures rest == AllMonitorRows(w, i + 1)
    ensures AllMonitorRows(w, i) == here + rest
  {
    rest := AllMonitorRows(w, i + 1);
  }

  /** Writing monitor `i` leaves the later ones to be written. */
  lemma OneMonitorWritten(w: Watched, i: nat, done: seq<Row>, here: seq<Row>, all: seq<Row>)
    requires i < |w.monitors| && here == RowsAt(w, i)
    requires done + AllMonitorRows(w, i) == all
    ensures done + here + AllMonitorRows(w, i + 1) == all
  {
    var rest := AllMonitorRowsStep(w, i, here);
    ConcatAssociative(done, here, rest);
  }

  /** The included folders watched by a non-empty monitor before index `i`. */
  function RegisteredUpTo(w: Watched, i: nat): set<string>
    requires i <= |w.monitors|
  {
    set f | f in w.monitorByFolder && w.monitorByFolder[f] < i && w.monitors[w.monitorByFolder[f]] != map[]
  }

  lemma KeptSnoc(names: seq<string>, i: nat, s: set<string>)
    requires i < |names|
    ensures Single(Kept(names, i + 1, s))
            == if names[i] in s then Single(Kept(names, i, s)) + [[names[i]]] else Single(Kept(names, i, s))
  {}

  function MonitorSegment(folders: seq<Row>, entries: seq<Row>): seq<Row>
  {
    [[FILE_MONITOR_START_TAG]] + folders + ([[FILE_OBJECT_START_TAG]] + entries + [[FILE_OBJECT_END_TAG]])
    + [[FILE_MONITOR_END_TAG]]
  }

  function Header(host: string): seq<Row>
  {
    [[COMPONENT_LINE], [HostLine(host)]]
  }

  lemma PathsLeft(paths: set<string>, w: Watched, i: nat)
    requires i < |w.monitors|
    ensures paths - RegisteredUpTo(w, i + 1)
            == paths - RegisteredUpTo(w, i)
               - if w.monitors[i] == map[] then {} else FoldersOf(w.monitorByFolder, i)
  {}

  /** Which paths are pending does not matter to a monitor's segment. */
  lemma RowsAtSame(u: Watched, w: Watched, i: nat, here: seq<Row>)
    requires u == w.(includePaths := u.includePaths) && i < |w.monitors| && here == RowsAt(u, i)
    ensures here == RowsAt(w, i)
  {}

  lemma NothingLeft(w: Watched, done: seq<Row>)
    ensures done + AllMonitorRows(w, |w.monitors|) == done
    ensures RegisteredUpTo(w, |w.monitors|) == Registered(w)
  {}

  /** Where the reading of `rows` stops: at the end, or before the row that fails. */
  function Reached(r: Reading, rows: seq<Row>): Reading
    requires Sound(r)
    decreases |rows|
  {
    if rows == [] then r
    else
      match Step(r, rows[0])
      case Failure(_) => r
      case Success(r') => Reached(r', rows[1..])
  }

  predicate OwnHeader(host: string, rows: seq<Row>)
  {
    && |rows| >= 2 && rows[0] != [] && rows[1] != []
    && rows[0][0] == COMPONENT_LINE && rows[1][0] == HostLine(host)
  }

  lemma {:induction false} ReachedAtEnd(r: Reading, rows: seq<Row>)
    requires Sound(r) && Read(r, rows).Success?
    ensures Read(r, rows) == Success(Reached(r, rows))
    decreases |rows|
  {
    if rows != [] {
      var next := FirstStep(r, rows);
      ReachedAtEnd(next, rows[1..]);
    }
  }

  lemma AddedNone(was: seq<Monitor>, k: nat, entries: Monitor)
    requires k < |was|
    ensures was[k := AddAll(was[k], entries - entries.Keys)] == was
  {
    assert AddAll(was[k], entries - entries.Keys) == was[k];
  }

  lemma AddedOne(was: seq<Monitor>, k: nat, entries: Monitor, rest: set<string>, name: string)
    requires k < |was| && name in rest && rest <= entries.Keys
    ensures
      var now := AddAll(was[k], entries - rest);
      was[k := now][k := AddAll(now, map[name := entries[name]])] == was[k := AddAll(was[k], entries - (rest - {name}))]
  {
    assert AddAll(AddAll(was[k], entries - rest), map[name := entries[name]])
        == AddAll(was[k], entries - (rest - {name}));
  }

  /** What the rows of the current segments have collected so far. */
  datatype Collected = Collected(
    included: set<string>,
    excluded: set<string>,
    parents: map<string, string>,
    entries: Monitor)

  class Watcher {
    const host: string
    var includedFolders: set<string>
    var excludedFolders: set<string>
    var parentByExcludedFolder: map<string, string>
    var includePaths: set<string>
    const fileMonitors: array<Monitor>
    var fileMonitorByFolderName: map<string, nat>

    /** A watcher that has loaded no profile yet, with `n` idle monitors. */
    constructor (host: string, n: nat)
      ensures this.host == host && fresh(fileMonitors) && fileMonitors.Length == n
      ensures State() == Watched({}, {}, map[], {}, EmptyMonitors(n), map[])
    {
      this.host := host;
      includedFolders, excludedFolders, includePaths := {}, {}, {};
      parentByExcludedFolder, fileMonitorByFolderName := map[], map[];
      fileMonitors := new Monitor[n](_ => map[]);
      new;
      assert fileMonitors[..] == EmptyMonitors(n);
    }

    function State(): Watched
      reads this, fileMonitors
    {
      Watched(includedFolders, excludedFolders, parentByExcludedFolder, includePaths,
              fileMonitors[..], fileMonitorByFolderName)
    }

    /*** Writing ***/

    method DumpFolders(open: string, folders: set<string>, close: string) returns (rows: seq<Row>)
      ensures rows == [[open]] + Single(Listing(folders)) + [[close]]
    {
      rows := [];
      var names := Enumerate(folders);
      for i := 0 to |names|
        invariant rows == Single(names[..i])
      {
        SingleSnoc(names, i);
        rows := rows + [[names[i]]];
      }
      assert names[..|names|] == names;
      rows := [[open]] + rows + [[close]];
    }

    method DumpParents(open: string, close: string) returns (rows: seq<Row>)
      ensures rows == [[open]] + Pairs(Listing(parentByExcludedFolder.Keys), parentByExcludedFolder) + [[close]]
    {
      rows := [];
      var names := Enumerate(parentByExcludedFolder.Keys);
      for i := 0 to |names|
        invariant rows == Pairs(names[..i], parentByExcludedFolder)
      {
        PairsSnoc(names, i, parentByExcludedFolder);
        rows := rows + [[names[i], parentByExcludedFolder[names[i]]]];
      }
      assert names[..|names|] == names;
      rows := [[open]] + rows + [[close]];
    }

    method DumpRepositoryInfo() returns (rows: seq<Row>)
      ensures rows == FolderSetRows(State())
    {
      var included := DumpFolders(INCLUDE_FOLDER_START_TAG, includedFolders, INCLUDE_FOLDER_END_TAG);
      var excluded := DumpFolders(EXCLUDE_FOLDER_START_TAG, excludedFolders, EXCLUDE_FOLDER_END_TAG);
      var roots := DumpParents(ROOT_FOLDER_START_TAG, ROOT_FOLDER_END_TAG);
      rows := included + excluded + roots;
    }

    /** The folders that monitor `k` watches are written and no longer pending. */
    method DumpWatchedFolders(k: nat) returns (rows: seq<Row>)
      modifies this`includePaths
      ensures rows == Single(Listing(FoldersOf(fileMonitorByFolderName, k)))
      ensures includePaths == old(includePaths) - FoldersOf(fileMonitorByFolderName, k)
    {
      var names := Enumerate(fileMonitorByFolderName.Keys);
      rows := DumpChosen(names, k, FoldersOf(fileMonitorByFolderName, k));
      KeptListing(names, FoldersOf(fileMonitorByFolderName, k));
    }

    method DumpChosen(names: seq<string>, k: nat, ghost folders: set<string>) returns (rows: seq<Row>)
      requires forall n :: n in names ==> n in fileMonitorByFolderName
      requires forall n :: n in names ==> (n in folders <==> fileMonitorByFolderName[n] == k)
      requires folders <= Elements(names)
      modifies this`includePaths
      ensures rows == Single(Kept(names, |names|, folders))
      ensures includePaths == old(includePaths) - folders
    {
      rows := [];
      for i := 0 to |names|
        invariant rows == Single(Kept(names, i, folders))
        invariant old(includePaths) - folders <= includePaths <= old(includePaths)
        invariant forall j :: 0 <= j < i && names[j] in folders ==> names[j] !in includePaths
      {
        KeptSnoc(names, i, folders);
        if fileMonitorByFolderName[names[i]] == k {
          rows := rows + [[names[i]]];
          includePaths := includePaths - {names[i]};
        }
      }
      forall f | f in folders
        ensures f !in includePaths
      {
        assert f in Elements(names);
      }
    }

    method DumpEntries(m: Monitor) returns (rows: seq<Row>)
      ensures rows == EntryRows(Listing(m.Keys), m)
    {
      rows := [];
      var names := Enumerate(m.Keys);
      for i := 0 to |names|
        invariant rows == EntryRows(names[..i], m)
      {
        EntryRowsSnoc(names, i, m);
        rows := rows + [EntryRow(names[i], m[names[i]])];
      }
      assert names[..|names|] == names;
    }

    /** The segment of monitor `k`; nothing for a monitor without entries. */
    method DumpMonitor(k: nat) returns (rows: seq<Row>)
      requires k < fileMonitors.Length
      modifies this`includePaths
      ensures rows == RowsAt(old(State()), k)
      ensures includePaths == old(includePaths) - if fileMonitors[k] == map[] then {} else FoldersOf(fileMonitorByFolderName, k)
    {
      var m := fileMonitors[k];
      if m == map[] {
        rows := [];
      } else {
        var folders := DumpWatchedFolders(k);
        var entries := DumpEntries(m);
        rows := MonitorSegment(folders, entries);
      }
    }

    method DumpPending() returns (rows: seq<Row>)
      ensures rows == PendingRows(Listing(includePaths))
    {
      rows := [];
      var names := Enumerate(includePaths);
      for i := 0 to |names|
        invariant rows == PendingRows(names[..i])
      {
        PendingRowsSnoc(names, i);
        rows := rows + PendingRowsOf(names[i]);
      }
      assert names[..|names|] == names;
    }

    method DumpFileMonitorInfo() returns (monitors: seq<Row>, pending: seq<Row>)
      modifies this`includePaths
      ensures monitors == AllMonitorRows(old(State()), 0)
      ensures pending == PendingRows(Listing(old(includePaths) - Registered(old(State()))))
      ensures includePaths == old(includePaths) - Registered(old(State()))
    {
      monitors := DumpMonitors();
      pending := DumpPending();
    }

    method DumpMonitors() returns (rows: seq<Row>)
      modifies this`includePaths
      ensures rows == AllMonitorRows(old(State()), 0)
      ensures includePaths == old(includePaths) - Registered(old(State()))
    {
      ghost var w := State();
      rows := [];
      for k := 0 to fileMonitors.Length
        invariant rows + AllMonitorRows(w, k) == AllMonitorRows(w, 0)
        invariant includePaths == old(includePaths) - RegisteredUpTo(w, k)
      {
        PathsLeft(old(includePaths), w, k);
        ghost var now := State();
        var here := DumpMonitor(k);
        RowsAtSame(now, w, k, here);
        OneMonitorWritten(w, k, rows, here, AllMonitorRows(w, 0));
        rows := rows + here;
      }
      NothingLeft(w, rows);
    }

    method DumpToFile() returns (rows: seq<Row>)
      modifies this`includePaths
      ensures rows == Dump(host, old(State()))
      ensures includePaths == old(includePaths) - Registered(old(State()))
    {
      var folders := DumpRepositoryInfo();
      var monitors, pending := DumpFileMonitorInfo();
      rows := Header(host) + (folders + monitors + pending);
    }

    /*** Reading ***/

    method SelectFileMonitor() returns (k: nat)
      requires fileMonitors.Length > 0
      ensures k == LeastLoaded(fileMonitors[..])
    {
      k := 0;
      for i := 0 to fileMonitors.Length
        invariant k < fileMonitors.Length
        invariant forall j :: 0 <= j < i ==> |fileMonitors[k]| <= |fileMonitors[j]|
        invariant forall j :: 0 <= j < k ==> |fileMonitors[k]| < |fileMonitors[j]|
      {
        if |fileMonitors[i]| < |fileMonitors[k]| {
          k := i;
        }
      }
      LeastIs(fileMonitors[..], k);
    }

    /** The segments' collections as the reading state of the model. */
    function At(segment: Option<Segment>, target: Option<nat>, c: Collected): Reading
      reads this, fileMonitors
    {
      Reading(State(), segment, target, c.included, c.excluded, c.parents, c.entries)
    }

    /** A FILE_OBJECT row of three cells. */
    method RecoverFileObject(row: Row, segment: Option<Segment>, target: Option<nat>, c: Collected)
      returns (c': Collected)
      modifies this`includePaths
      ensures At(segment, target, c') == RecoverEntry(old(At(segment, target, c)), row)
    {
      c' := c;
      if |row| == 3 {
        var fileType, time := TypeOf(row[0]), Parse(row[2]);
        if fileType.Some? && time.Some? {
          var entries := c.entries[row[1] := Entry(fileType.value, time.value, None, true, true)];
          if fileType.value == FOLDER || fileType.value == IMAGINARY {
            includePaths := includePaths - {Slashed(row[1])};
          }
          var parent := Parent(row[1]);
          if parent.Some? && parent.value in entries {
            var e := entries[parent.value];
            var children := if e.children == None then {row[1]} else e.children.value + {row[1]};
            entries := entries[parent.value := e.(children := Some(children))];
          }
          c' := c.(entries := entries);
        }
      }
    }

    /** A row that is no tag goes to the collection of its segment. */
    method RecoverObject(s: Segment, row: Row, target: Option<nat>, c: Collected)
      returns (error: Option<RecoveryError>, c': Collected)
      requires row != []
      modifies this`includePaths, this`fileMonitorByFolderName
      ensures match RecoveryModel.RecoverObject(old(At(Some(s), target, c)), s, row)
              case Success(r) => error == None && At(Some(s), target, c') == r
              case Failure(e) => error == Some(e) && unchanged(this)
    {
      error, c' := None, c;
      match s
      case INCLUDE_FOLDER =>
        c' := c.(included := c.included + {row[0]});
      case EXCLUDE_FOLDER =>
        c' := c.(excluded := c.excluded + {row[0]});
      case ROOT_FOLDER =>
        if |row| < 2 {
          error := Some(IndexOutOfBounds);
        } else {
          c' := c.(parents := c.parents[row[0] := row[1]]);
        }
      case FILE_MONITOR =>
        if target == None {
          error := Some(NullPointer);
        } else {
          fileMonitorByFolderName := fileMonitorByFolderName[row[0] := target.value];
        }
      case FILE_OBJECT =>
        c' := RecoverFileObject(row, Some(s), target, c);
    }

    method AddFile(k: nat, name: string, e: Entry)
      requires k < fileMonitors.Length
      modifies fileMonitors
      ensures fileMonitors[..] == old(fileMonitors[..])[k := AddAll(old(fileMonitors[k]), map[name := e])]
    {
      if name !in fileMonitors[k] {
        fileMonitors[k] := fileMonitors[k][name := e];
      }
      assert fileMonitors[k] == AddAll(old(fileMonitors[k]), map[name := e]);
    }

    /** Those already monitored stay as they are. */
    method AddFiles(k: nat, entries: Monitor)
      requires k < fileMonitors.Length
      modifies fileMonitors
      ensures fileMonitors[..] == old(fileMonitors[..])[k := AddAll(old(fileMonitors[k]), entries)]
      ensures forall name :: name in old(fileMonitors[k]) ==>
                name in fileMonitors[k] && fileMonitors[k][name] == old(fileMonitors[k])[name]
      ensures forall name :: name in entries && name !in old(fileMonitors[k]) ==>
                name in fileMonitors[k] && fileMonitors[k][name] == entries[name]
      ensures fileMonitors[k].Keys == old(fileMonitors[k]).Keys + entries.Keys
    {
      ghost var was := fileMonitors[..];
      var rest := entries.Keys;
      AddedNone(was, k, entries);
      while rest != {}
        invariant rest <= entries.Keys
        invariant fileMonitors[..] == was[k := AddAll(was[k], entries - rest)]
      {
        var name :| name in rest;
        AddedOne(was, k, entries, rest, name);
        AddFile(k, name, entries[name]);
        rest := rest - {name};
      }
      assert entries - {} == entries;
    }

    /** The tag that opens a segment; any other row outside a segment is skipped. */
    method OpenSegment(tag: string, target: Option<nat>) returns (segment: Option<Segment>, target': Option<nat>)
      requires fileMonitors.Length > 0
      ensures forall c :: At(segment, target', c) == Open(At(None, target, c), tag)
    {
      segment, target' := None, target;
      if tag == INCLUDE_FOLDER_START_TAG {
        segment := Some(INCLUDE_FOLDER);
      } else if tag == EXCLUDE_FOLDER_START_TAG {
        segment := Some(EXCLUDE_FOLDER);
      } else if tag == ROOT_FOLDER_START_TAG {
        segment := Some(ROOT_FOLDER);
      } else if tag == FILE_MONITOR_START_TAG {
        segment := Some(FILE_MONITOR);
        var k := SelectFileMonitor();
        target' := Some(k);
      }
    }

    method CloseMonitorSegment(s: Segment, target: Option<nat>, c: Collected)
      returns (error: Option<RecoveryError>, c': Collected)
      requires fileMonitors.Length > 0 && (target.Some? ==> target.value < fileMonitors.Length)
      modifies fileMonitors
      ensures match CloseMonitor(old(At(Some(s), target, c)))
              case Success(r) => error == None && At(None, target, c') == r
              case Failure(e) => error == Some(e) && State() == old(State())
    {
      error, c' := None, c;
      if c.entries != map[] {
        if target == None {
          error := Some(NullPointer);
        } else {
          AddFiles(target.value, c.entries);
          c' := c.(entries := map[]);
        }
      } else if target.Some? {
        assert AddAll(fileMonitors[target.value], map[]) == fileMonitors[target.value];
        assert fileMonitors[..][target.value := fileMonitors[target.value]] == fileMonitors[..];
      }
    }

    method InsideSegment(s: Segment, row: Row, target: Option<nat>, c: Collected)
      returns (error: Option<RecoveryError>, segment: Option<Segment>, c': Collected)
      requires row != []
      requires fileMonitors.Length > 0 && (target.Some? ==> target.value < fileMonitors.Length)
      modifies this, fileMonitors
      ensures match Inside(old(At(Some(s), target, c)), s, row)
              case Success(r) => error == None && At(segment, target, c') == r
              case Failure(e) => error == Some(e) && State() == old(State())
    {
      error, segment, c' := None, None, c;
      var tag := row[0];
      if IsStartTag(tag) {
        error := Some(IllegalState);
      } else if tag == INCLUDE_FOLDER_END_TAG {
        includedFolders := c.included;
        includePaths := includePaths + c.included;
      } else if tag == EXCLUDE_FOLDER_END_TAG {
        excludedFolders := c.excluded;
      } else if tag == ROOT_FOLDER_END_TAG {
        parentByExcludedFolder := c.parents;
      } else if tag == FILE_MONITOR_END_TAG {
        error, c' := CloseMonitorSegment(s, target, c);
      } else if tag == FILE_OBJECT_START_TAG {
        if s == FILE_MONITOR {
          segment := Some(FILE_OBJECT);
        } else {
          error := Some(IllegalState);
        }
      } else if tag == FILE_OBJECT_END_TAG {
        segment := Some(FILE_MONITOR);
      } else {
        segment := Some(s);
        error, c' := RecoverObject(s, row, target, c);
      }
    }

    method ReadRow(row: Row, segment: Option<Segment>, target: Option<nat>, c: Collected)
      returns (error: Option<RecoveryError>, segment': Option<Segment>, target': Option<nat>, c': Collected)
      requires Sound(At(segment, target, c))
      modifies this, fileMonitors
      ensures match Step(old(At(segment, target, c)), row)
              case Success(r) => error == None && At(segment', target', c') == r
              case Failure(e) => error == Some(e) && State() == old(State())
    {
      error, segment', target', c' := None, segment, target, c;
      if row == [] {
        error := Some(IndexOutOfBounds);
      } else if segment == None {
        segment', target' := OpenSegment(row[0], target);
      } else {
        error, segment', c' := InsideSegment(segment.value, row, target, c);
      }
    }

    method RecoverRows(rows: seq<Row>) returns (error: Option<RecoveryError>)
      requires fileMonitors.Length > 0
      modifies this, fileMonitors
      ensures State() == Reached(StartReading(old(State())), rows).w
      ensures error == match Read(StartReading(old(State())), rows) case Success(_) => None case Failure(e) => Some(e)
    {
      var segment, target, c := None, None, Collected({}, {}, map[], map[]);
      ghost var start := At(segment, target, c);
      assert rows[0..] == rows;
      for i := 0 to |rows|
        invariant Sound(At(segment, target, c))
        invariant Read(start, rows) == Read(At(segment, target, c), rows[i..])
        invariant Reached(start, rows) == Reached(At(segment, target, c), rows[i..])
      {
        ghost var here := At(segment, target, c);
        assert rows[i..][0] == rows[i] && rows[i..][1..] == rows[i + 1..];
        error, segment, target, c := ReadRow(rows[i], segment, target, c);
        if error.Some? {
          return;
        }
      }
      error := None;
    }

    /** Whatever happens, the watcher is left as the rows before the failing one say. */
    method Recover(rows: seq<Row>) returns (error: Option<RecoveryError>)
      requires fileMonitors.Length > 0
      modifies this, fileMonitors
      ensures match RecoveryModel.Recover(host, old(State()), rows)
              case Success(w) => error == None && State() == w
              case Failure(e) => error == Some(e)
      ensures State() == if OwnHeader(host, rows) then Reached(StartReading(old(State())), rows[2..]).w else old(State())
    {
      if rows == [] {
        return Some(NullPointer);
      }
      if rows[0] == [] {
        return Some(IndexOutOfBounds);
      }
      if |rows| == 1 {
        return Some(NullPointer);
      }
      if rows[1] == [] {
        return Some(IndexOutOfBounds);
      }
      if rows[0][0] != COMPONENT_LINE || rows[1][0] != HostLine(host) {
        return Some(IllegalState);
      }
      error := RecoverRows(rows[2..]);
      if error == None {
        ReachedAtEnd(StartReading(old(State())), rows[2..]);
      }
    }
  }

  /** Shutdown and the next start on the same host: for every watcher, one with as
      many monitors that recovers from its dump ends as the round trip says. */
  method Restart(w: Watcher) returns (next: Watcher, error: Option<RecoveryError>)
    requires w.fileMonitors.Length > 0 && NoTags(w.State())
    modifies w`includePaths
    ensures error == None && fresh(next) && next.State() == Recovered(old(w.State()))
  {
    var dump := w.DumpToFile();
    next := new Watcher(w.host, w.fileMonitors.Length);
    ghost var dumped := DumpRecoverRoundTrip(w.host, old(w.State()), next.State());
    error := next.Recover(dump);
  }
}
