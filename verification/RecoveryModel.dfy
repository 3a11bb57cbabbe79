/** The watcher's recovery dump, on values: the rows written at shutdown, and the
    reading of such rows at the next start. */
module RecoveryModel {
  import opened Wrappers
  import opened Decimal
  import opened StringOrder
  import opened FileNames
  import opened LoadBalance

  type Row = seq<string>

  const INCLUDE_FOLDER_START_TAG := "<IncludeFolder>"
  const INCLUDE_FOLDER_END_TAG := "</IncludeFolder>"
  const EXCLUDE_FOLDER_START_TAG := "<ExcludeFolder>"
  const EXCLUDE_FOLDER_END_TAG := "</ExcludeFolder>"
  const ROOT_FOLDER_START_TAG := "<RootFolder>"
  const ROOT_FOLDER_END_TAG := "</RootFolder>"
  const FILE_MONITOR_START_TAG := "<FileMonitor>"
  const FILE_MONITOR_END_TAG := "</FileMonitor>"
  const FILE_OBJECT_START_TAG := "<FileObject>"
  const FILE_OBJECT_END_TAG := "</FileObject>"
  const COMPONENT_LINE := "ComponentType:FileWatcher"

  function HostLine(host: string): string
  {
    "Hostname:" + host
  }

  /*** What is monitored ***/

  datatype FileType = FILE | FOLDER | IMAGINARY | FILE_OR_FOLDER

  function TypeName(t: FileType): string
  {
    match t
    case FILE => "FILE"
    case FOLDER => "FOLDER"
    case IMAGINARY => "IMAGINARY"
    case FILE_OR_FOLDER => "FILE_OR_FOLDER"
  }

  /** FileType.valueOf; None stands for IllegalArgumentException. */
  function TypeOf(name: string): Option<FileType>
  {
    if name == "FILE" then Some(FILE)
    else if name == "FOLDER" then Some(FOLDER)
    else if name == "IMAGINARY" then Some(IMAGINARY)
    else if name == "FILE_OR_FOLDER" then Some(FILE_OR_FOLDER)
    else None
  }

  datatype Entry = Entry(
    fileType: FileType,
    timestamp: long,
    children: Option<set<string>>,
    present: bool,
    recovered: bool)

  type Monitor = map<string, Entry>

  const VFS_ROOT := "file:///"

  /** The name of a file's parent folder; the file system's root has none. */
  function Parent(name: string): (p: Option<string>)
    ensures p.Some? ==> p.value < name
  {
    var i := LastIndexOf(name, '/');
    if i >= |VFS_ROOT| then Some(name[..i])
    else if VFS_ROOT < name then Some(VFS_ROOT)
    else None
  }

  function Slashed(name: string): string
  {
    if name != "" && name[|name| - 1] == '/' then name else name + "/"
  }

  /** The watcher's profile, its monitors, which monitor watches which included
      folder, and the included folders that could not be registered yet. */
  datatype Watched = Watched(
    included: set<string>,
    excluded: set<string>,
    parents: map<string, string>,
    includePaths: set<string>,
    monitors: seq<Monitor>,
    monitorByFolder: map<string, nat>)

  /*** Writing ***/

  function Single(names: seq<string>): (rows: seq<Row>)
    ensures |rows| == |names|
  {
    seq(|names|, i requires 0 <= i < |names| => [names[i]])
  }

  function Pairs(names: seq<string>, m: map<string, string>): (rows: seq<Row>)
    requires forall n :: n in names ==> n in m
    ensures |rows| == |names|
  {
    seq(|names|, i requires 0 <= i < |names| => [names[i], m[names[i]]])
  }

  function EntryRow(name: string, e: Entry): Row
  {
    [TypeName(e.fileType), name, Render(e.timestamp)]
  }

  function EntryRows(names: seq<string>, m: Monitor): (rows: seq<Row>)
    requires forall n :: n in names ==> n in m
    ensures |rows| == |names|
  {
    seq(|names|, i requires 0 <= i < |names| => EntryRow(names[i], m[names[i]]))
  }

  ghost function IncludeRows(w: Watched): seq<Row>
  {
    [[INCLUDE_FOLDER_START_TAG]] + Single(Listing(w.included)) + [[INCLUDE_FOLDER_END_TAG]]
  }

  ghost function ExcludeRows(w: Watched): seq<Row>
  {
    [[EXCLUDE_FOLDER_START_TAG]] + Single(Listing(w.excluded)) + [[EXCLUDE_FOLDER_END_TAG]]
  }

  ghost function RootRows(w: Watched): seq<Row>
  {
    [[ROOT_FOLDER_START_TAG]] + Pairs(Listing(w.parents.Keys), w.parents) + [[ROOT_FOLDER_END_TAG]]
  }

  function FoldersOf(monitorByFolder: map<string, nat>, i: nat): set<string>
  {
    set f | f in monitorByFolder && monitorByFolder[f] == i
  }

  ghost function MonitorHead(folders: set<string>): seq<Row>
  {
    [[FILE_MONITOR_START_TAG]] + Single(Listing(folders))
  }

  ghost function MonitorObjects(m: Monitor): seq<Row>
  {
    [[FILE_OBJECT_START_TAG]] + EntryRows(Listing(m.Keys), m) + [[FILE_OBJECT_END_TAG]]
  }

  ghost function MonitorRows(folders: set<string>, m: Monitor): seq<Row>
  {
    MonitorHead(folders) + MonitorObjects(m) + [[FILE_MONITOR_END_TAG]]
  }

  /** A monitor without entries is not written. */
  ghost function RowsAt(w: Watched, i: nat): seq<Row>
    requires i < |w.monitors|
  {
    if w.monitors[i] == map[] then [] else MonitorRows(FoldersOf(w.monitorByFolder, i), w.monitors[i])
  }

  /** The segments of the monitors from index `i` on. */
  ghost function AllMonitorRows(w: Watched, i: nat): seq<Row>
    requires i <= |w.monitors|
    decreases |w.monitors| - i
  {
    if i == |w.monitors| then [] else RowsAt(w, i) + AllMonitorRows(w, i + 1)
  }

  function PendingRowsOf(name: string): seq<Row>
  {
    [[FILE_MONITOR_START_TAG], [name], [FILE_OBJECT_START_TAG], [name], [FILE_OBJECT_END_TAG], [FILE_MONITOR_END_TAG]]
  }

  function PendingRows(names: seq<string>): seq<Row>
  {
    if names == [] then [] else PendingRowsOf(names[0]) + PendingRows(names[1..])
  }

  /** The included folders that a monitor with entries watches. */
  function Registered(w: Watched): set<string>
  {
    set f | f in w.monitorByFolder && w.monitorByFolder[f] < |w.monitors| && w.monitors[w.monitorByFolder[f]] != map[]
  }

  ghost function FolderSetRows(w: Watched): seq<Row>
  {
    IncludeRows(w) + ExcludeRows(w) + RootRows(w)
  }

  ghost function Body(w: Watched): seq<Row>
  {
    FolderSetRows(w) + AllMonitorRows(w, 0) + PendingRows(Listing(w.includePaths - Registered(w)))
  }

  ghost function Dump(host: string, w: Watched): seq<Row>
  {
    [[COMPONENT_LINE], [HostLine(host)]] + Body(w)
  }

  /*** Reading ***/

  datatype Segment = INCLUDE_FOLDER | EXCLUDE_FOLDER | ROOT_FOLDER | FILE_MONITOR | FILE_OBJECT

  datatype RecoveryError = IllegalState | IndexOutOfBounds | NullPointer

  /** The state of the reading loop: the watcher so far, the current segment, the
      monitor of the latest monitor segment, and what the segments have collected. */
  datatype Reading = Reading(
    w: Watched,
    segment: Option<Segment>,
    target: Option<nat>,
    included: set<string>,
    excluded: set<string>,
    parents: map<string, string>,
    entries: Monitor)

  type Outcome = Result<Reading, RecoveryError>

  /** addFile for every entry: those already monitored stay as they are. */
  function AddAll(m: Monitor, entries: Monitor): Monitor
  {
    entries + m
  }

  predicate IsStartTag(s: string)
  {
    s == INCLUDE_FOLDER_START_TAG || s == EXCLUDE_FOLDER_START_TAG ||
    s == ROOT_FOLDER_START_TAG || s == FILE_MONITOR_START_TAG
  }

  predicate IsTag(s: string)
  {
    || IsStartTag(s)
    || s == INCLUDE_FOLDER_END_TAG || s == EXCLUDE_FOLDER_END_TAG
    || s == ROOT_FOLDER_END_TAG || s == FILE_MONITOR_END_TAG
    || s == FILE_OBJECT_START_TAG || s == FILE_OBJECT_END_TAG
  }

  function Open(r: Reading, tag: string): Reading
    requires r.w.monitors != []
  {
    if tag == INCLUDE_FOLDER_START_TAG then r.(segment := Some(INCLUDE_FOLDER))
    else if tag == EXCLUDE_FOLDER_START_TAG then r.(segment := Some(EXCLUDE_FOLDER))
    else if tag == ROOT_FOLDER_START_TAG then r.(segment := Some(ROOT_FOLDER))
    else if tag == FILE_MONITOR_START_TAG then
      r.(segment := Some(FILE_MONITOR), target := Some(LeastLoaded(r.w.monitors)))
    else r
  }

  function AddChild(entries: Monitor, parent: Option<string>, child: string): Monitor
  {
    if parent.Some? && parent.value in entries then
      var e := entries[parent.value];
      entries[parent.value := e.(children := Some(if e.children.Some? then e.children.value + {child} else {child}))]
    else entries
  }

  /** A FILE_OBJECT row of three cells; any other row, an unknown type or an
      unreadable time is skipped. */
  function RecoverEntry(r: Reading, row: Row): Reading
  {
    if |row| != 3 then r
    else
      match (TypeOf(row[0]), Parse(row[2]))
      case (Some(t), Some(time)) =>
        var entries := r.entries[row[1] := Entry(t, time, None, true, true)];
        var pending :=
          if t == FOLDER || t == IMAGINARY then r.w.includePaths - {Slashed(row[1])} else r.w.includePaths;
        r.(entries := AddChild(entries, Parent(row[1]), row[1]), w := r.w.(includePaths := pending))
      case _ => r
  }

  function RecoverObject(r: Reading, s: Segment, row: Row): Outcome
    requires row != []
  {
    match s
    case INCLUDE_FOLDER => Success(r.(included := r.included + {row[0]}))
    case EXCLUDE_FOLDER => Success(r.(excluded := r.excluded + {row[0]}))
    case ROOT_FOLDER =>
      if |row| < 2 then Failure(IndexOutOfBounds) else Success(r.(parents := r.parents[row[0] := row[1]]))
    case FILE_MONITOR =>
      if r.target == None then Failure(NullPointer)
      else Success(r.(w := r.w.(monitorByFolder := r.w.monitorByFolder[row[0] := r.target.value])))
    case FILE_OBJECT => Success(RecoverEntry(r, row))
  }

  function CloseMonitor(r: Reading): Outcome
    requires Sound(r)
  {
    if r.target == None then
      if r.entries == map[] then Success(r.(segment := None)) else Failure(NullPointer)
    else
      var i := r.target.value;
      Success(r.(segment := None, entries := map[],
                 w := r.w.(monitors := r.w.monitors[i := AddAll(r.w.monitors[i], r.entries)])))
  }

  /** One row inside segment `s`. */
  function Inside(r: Reading, s: Segment, row: Row): Outcome
    requires row != [] && Sound(r)
  {
    var tag := row[0];
    if IsStartTag(tag) then Failure(IllegalState)
    else if tag == INCLUDE_FOLDER_END_TAG then
      Success(r.(segment := None,
                 w := r.w.(included := r.included, includePaths := r.w.includePaths + r.included)))
    else if tag == EXCLUDE_FOLDER_END_TAG then
      Success(r.(segment := None, w := r.w.(excluded := r.excluded)))
    else if tag == ROOT_FOLDER_END_TAG then
      Success(r.(segment := None, w := r.w.(parents := r.parents)))
    else if tag == FILE_MONITOR_END_TAG then
      CloseMonitor(r)
    else if tag == FILE_OBJECT_START_TAG then
      if s == FILE_MONITOR then Success(r.(segment := Some(FILE_OBJECT))) else Failure(IllegalState)
    else if tag == FILE_OBJECT_END_TAG then Success(r.(segment := Some(FILE_MONITOR)))
    else RecoverObject(r, s, row)
  }

  predicate Sound(r: Reading)
  {
    r.w.monitors != [] && (r.target.Some? ==> r.target.value < |r.w.monitors|)
  }

  function Step(r: Reading, row: Row): (o: Outcome)
    requires Sound(r)
    ensures o.Success? ==> Sound(o.value) && |o.value.w.monitors| == |r.w.monitors|
  {
    if row == [] then Failure(IndexOutOfBounds)
    else
      match r.segment
      case None => Success(Open(r, row[0]))
      case Some(s) => Inside(r, s, row)
  }

  function Read(r: Reading, rows: seq<Row>): (o: Outcome)
    requires Sound(r)
    ensures o.Success? ==> Sound(o.value) && |o.value.w.monitors| == |r.w.monitors|
    decreases |rows|
  {
    if rows == [] then Success(r)
    else
      match Step(r, rows[0])
      case Failure(e) => Failure(e)
      case Success(r') => Read(r', rows[1..])
  }

  function EmptyMonitors(n: nat): (ms: seq<Monitor>)
    ensures |ms| == n
  {
    seq(n, _ => map[])
  }

  function StartReading(w: Watched): Reading
  {
    Reading(w, None, None, {}, {}, map[], map[])
  }

  /** recover: the header must be the watcher's own. */
  function Recover(host: string, w: Watched, rows: seq<Row>): Result<Watched, RecoveryError>
    requires w.monitors != []
  {
    if rows == [] then Failure(NullPointer)
    else if rows[0] == [] then Failure(IndexOutOfBounds)
    else if |rows| == 1 then Failure(NullPointer)
    else if rows[1] == [] then Failure(IndexOutOfBounds)
    else if rows[0][0] != COMPONENT_LINE || rows[1][0] != HostLine(host) then Failure(IllegalState)
    else
      match Read(StartReading(w), rows[2..])
      case Failure(e) => Failure(e)
      case Success(r) => Success(r.w)
  }
}
