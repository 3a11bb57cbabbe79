/** What one rule execution does to the documents it matches, on values: the
    world it acts on, the actions of the rule, and the course of one document. */
module RuleModel {
  import opened Wrappers
  import opened FileNames

  type Path = string

  datatype Content = Content(bytes: seq<int>, modified: int)

  /** The shared folders, and everything else an action can change. */
  datatype World = World(files: map<Path, Content>, outside: map<string, string>)

  predicate Exists(w: World, p: Path)
  {
    p != "" && p in w.files
  }

  predicate Holds(w: World, p: Path, c: Content)
  {
    p in w.files && w.files[p] == c
  }

  /*** Actions ***/

  datatype Verdict = SUCCESS | FAIL

  /** How `execute` ends. */
  datatype Reply = Outcome(verdict: Verdict) | NullOutcome | Threw

  /** How `rollback` ends: only RollbackException is caught by the task. */
  datatype Undo = Undone | ThrewRollbackException | ThrewOther

  datatype Kind = OncePerFile | OncePerRule | NeitherKind

  datatype Action = Action(
    id: int,
    displayName: string,
    fireOnce: bool,
    kind: Kind,
    execute: (World, string) -> (World, Reply),
    rollback: World -> (World, Undo))

  function Invoke(a: Action, w: World, doc: Path, query: string): (World, Reply)
  {
    match a.kind
    case OncePerFile => a.execute(w, doc)
    case OncePerRule => a.execute(w, query)
    case NeitherKind => (w, NullOutcome)
  }

  function VerdictOf(r: Reply): Verdict
  {
    if r == Outcome(SUCCESS) then SUCCESS else FAIL
  }

  function LowerChar(c: char): char
  {
    if 'A' <= c <= 'Z' then c + 32 as char else c
  }

  function Lower(s: string): string
  {
    seq(|s|, i requires 0 <= i < |s| => LowerChar(s[i]))
  }

  predicate EmailAt(name: string, i: nat)
  {
    i + 5 <= |name| && Lower(name)[i..i + 5] == "email"
  }

  predicate MentionsEmail(name: string)
  {
    exists i: nat :: i <= |name| && EmailAt(name, i)
  }

  predicate EmailOnly(actions: seq<Action>)
  {
    |actions| == 1 && Lower(actions[0].displayName) == "email notification"
  }

  /*** Events ***/

  datatype Status = LogSuccess | LogFail | LogRollback

  datatype Event = Event(doc: Path, action: int, actionName: string, status: Status)

  /** Which action events the configuration asks for. */
  datatype Logging = Logging(ofSuccess: bool, ofFailure: bool)

  function ActionEvent(l: Logging, doc: Path, a: Action, v: Verdict): seq<Event>
  {
    match v
    case SUCCESS => if l.ofSuccess then [Event(doc, a.id, a.displayName, LogSuccess)] else []
    case FAIL => if l.ofFailure then [Event(doc, a.id, a.displayName, LogFail)] else []
  }

  /** logActionExecutionEvent: after a rollback a success is reported as rolled
      back, except that a sent email is not reported at all. */
  function Published(events: seq<Event>, rolledBack: bool): seq<Event>
  {
    if events == [] then []
    else
      var e := events[0];
      var first :=
        if rolledBack && e.status == LogSuccess then
          if MentionsEmail(e.actionName) then [] else [e.(status := LogRollback)]
        else [e];
      first + Published(events[1..], rolledBack)
  }

  /*** The task's state ***/

  datatype Call =
    | Executed(doc: Path, action: int, once: bool, reply: Reply)
    | RolledBack(action: int, undo: Undo)

  /** `past` is every world there has been, in order; `calls` every call made on
      an action; `visited` every document taken from the index. */
  datatype Task = Task(
    world: World,
    fireOnce: map<int, Verdict>,
    success: bool,
    fail: bool,
    log: seq<Event>,
    calls: seq<Call>,
    past: seq<World>,
    visited: seq<Path>)

  function Move(t: Task, w: World): Task
  {
    t.(world := w, past := t.past + [w])
  }

  /*** Files ***/

  datatype Residue = Untouched | Missing | Partial(content: Content)

  /** How a file copy goes: a copy that throws may leave anything at its target. */
  datatype Copying = Copied | IOFault(left: Residue) | OtherFault(left: Residue)

  datatype CopyEnd = CopyDone | CopyIOException | CopyOtherException

  /** The disk's behaviour while one document is processed. */
  datatype Disk = Disk(backupCopy: Copying, quietDelete: bool, restoreCopy: Copying, backupDelete: bool)

  function Remove(w: World, p: Path): World
  {
    w.(files := w.files - {p})
  }

  function Leave(w: World, p: Path, left: Residue): World
  {
    match left
    case Untouched => w
    case Missing => Remove(w, p)
    case Partial(c) => w.(files := w.files[p := c])
  }

  function CopyFile(w: World, from: Path, to: Path, how: Copying): (World, CopyEnd)
  {
    if !Exists(w, from) || to == "" || from == to then (w, CopyIOException)
    else
      match how
      case Copied => (w.(files := w.files[to := w.files[from]]), CopyDone)
      case IOFault(left) => (Leave(w, to, left), CopyIOException)
      case OtherFault(left) => (Leave(w, to, left), CopyOtherException)
  }

  /** createBackupFile: whatever the copy throws is swallowed. */
  function CreateBackup(t: Task, doc: Path, disk: Disk): Task
  {
    Move(t, CopyFile(t.world, doc, BackupPath(doc), disk.backupCopy).0)
  }

  datatype RestoreEnd = Restored | NotRestored | RestoreThrew

  function RestoreOriginal(t: Task, backup: Path, original: Path, disk: Disk): (Task, RestoreEnd)
  {
    if !Exists(t.world, backup) then (t, NotRestored)
    else
      var cleared :=
        if Exists(t.world, original) && disk.quietDelete then Move(t, Remove(t.world, original)) else t;
      var (w, end) := CopyFile(cleared.world, backup, original, disk.restoreCopy);
      (Move(cleared, w),
       match end
       case CopyDone => Restored
       case CopyIOException => NotRestored
       case CopyOtherException => RestoreThrew)
  }

  function DeleteBackup(t: Task, backup: Path, disk: Disk): Task
  {
    if disk.backupDelete then Move(t, Remove(t.world, backup)) else t
  }

  /*** One document ***/

  datatype Document = Document(id: Path, lastModified: Option<int>)

  predicate UpToDate(w: World, d: Document)
  {
    Exists(w, d.id) && d.lastModified == Some(w.files[d.id].modified)
  }

  /** What stays the same throughout an execution. */
  datatype Job = Job(actions: seq<Action>, query: string, logging: Logging)

  /** The state after `execute` on `a` has ended with `r` in world `w`. */
  function AfterReply(t: Task, doc: Path, a: Action, w: World, r: Reply): Task
  {
    Move(t, w).(
    success := t.success || r == Outcome(SUCCESS),
    fail := t.fail || r != Outcome(SUCCESS),
    fireOnce := if a.fireOnce && r.Outcome? then t.fireOnce[a.id := r.verdict] else t.fireOnce,
    calls := t.calls + [Executed(doc, a.id, a.fireOnce, r)])
  }

  /** Some action failed in a way that asks for a rollback iff `failed`. */
  datatype Run = Run(task: Task, performed: seq<Action>, events: seq<Event>, failed: bool)

  predicate AlreadyFired(t: Task, a: Action)
  {
    a.fireOnce && a.id in t.fireOnce
  }

  /** The actions from here on, in order. */
  function Perform(r: Run, actions: seq<Action>, doc: Path, job: Job): Run
    decreases |actions|
  {
    if actions == [] || r.failed then r
    else Perform(PerformOne(r, actions[0], doc, job), actions[1..], doc, job)
  }

  function PerformOne(r: Run, a: Action, doc: Path, job: Job): Run
  {
    if AlreadyFired(r.task, a) then
      r.(events := r.events + ActionEvent(job.logging, doc, a, r.task.fireOnce[a.id]))
    else
      var (w, reply) := Invoke(a, r.task.world, doc, job.query);
      Run(
        AfterReply(r.task, doc, a, w, reply),
        if reply.Threw? then r.performed else r.performed + [a],
        r.events + ActionEvent(job.logging, doc, a, VerdictOf(reply)),
        VerdictOf(reply) == FAIL && !EmailOnly(job.actions))
  }

  /** A rule that only sends an email is never rolled back. */
  lemma {:induction false} EmailNeverFails(r: Run, actions: seq<Action>, doc: Path, job: Job)
    requires !r.failed
    ensures EmailOnly(job.actions) ==> !Perform(r, actions, doc, job).failed
    decreases |actions|
  {
    if actions != [] && EmailOnly(job.actions) {
      EmailNeverFails(PerformOne(r, actions[0], doc, job), actions[1..], doc, job);
    }
  }

  datatype UndoEnd = AllUndone | UndoThrew

  /** rollback on every performed action, the last one first. */
  function RollBack(t: Task, performed: seq<Action>): (Task, UndoEnd)
    decreases |performed|
  {
    if performed == [] then (t, AllUndone)
    else
      var a := performed[|performed| - 1];
      var (w, undo) := a.rollback(t.world);
      var t' := Move(t, w).(calls := t.calls + [RolledBack(a.id, undo)]);
      if undo == ThrewOther then (t', UndoThrew) else RollBack(t', performed[..|performed| - 1])
  }

  function Publish(t: Task, events: seq<Event>, rolledBack: bool): Task
  {
    t.(log := t.log + Published(events, rolledBack))
  }

  /** Finished with the backup no longer needed, finished with the backup kept,
      or left by an exception. */
  datatype Ending = Disposable | Kept | Abandoned

  function Start(t: Task): Run
  {
    Run(t, [], [], false)
  }

  /** Once the actions are rolled back: restore the file, then report. */
  function Settle(undone: Task, events: seq<Event>, doc: Path, disk: Disk): (Task, Ending)
  {
    var (restored, how) := RestoreOriginal(undone, BackupPath(doc), doc, disk);
    if how == RestoreThrew then (restored, Abandoned)
    else (Publish(restored, events, true), if how == Restored then Disposable else Kept)
  }

  function Conclusion(run: Run, doc: Path, disk: Disk): (Task, Ending)
  {
    if !run.failed then (Publish(run.task, run.events, false), Disposable)
    else
      var (undone, end) := RollBack(run.task, run.performed);
      if end == UndoThrew then (undone, Abandoned) else Settle(undone, run.events, doc, disk)
  }

  /** From a backed-up document to the point where the backup may be deleted. */
  function Attempt(t: Task, doc: Path, disk: Disk, job: Job): (Task, Ending)
  {
    Conclusion(Perform(Start(t), job.actions, doc, job), doc, disk)
  }

  function Process(t: Task, d: Document, disk: Disk, job: Job): Task
  {
    var seen := t.(visited := t.visited + [d.id]);
    if !UpToDate(t.world, d) then seen
    else if EmailOnly(job.actions) then Attempt(seen, d.id, disk, job).0
    else
      var backedUp := CreateBackup(seen, d.id, disk);
      if !Exists(backedUp.world, BackupPath(d.id)) then backedUp
      else
        var (attempted, ending) := Attempt(backedUp, d.id, disk, job);
        if ending == Disposable then DeleteBackup(attempted, BackupPath(d.id), disk) else attempted
  }

  function ProcessAll(t: Task, docs: seq<Document>, disks: Path -> Disk, job: Job): Task
    decreases |docs|
  {
    if docs == [] then t
    else ProcessAll(Process(t, docs[0], disks(docs[0].id), job), docs[1..], disks, job)
  }

  lemma {:induction false} ProcessAllConcat(t: Task, a: seq<Document>, b: seq<Document>,
                                            disks: Path -> Disk, job: Job)
    ensures ProcessAll(t, a + b, disks, job) == ProcessAll(ProcessAll(t, a, disks, job), b, disks, job)
    decreases |a|
  {
    if a == [] {
      assert a + b == b;
    } else {
      assert (a + b)[1..] == a[1..] + b;
      ProcessAllConcat(Process(t, a[0], disks(a[0].id), job), a[1..], b, disks, job);
    }
  }

  /*** The outcome of the execution ***/

  datatype RuleOutcome = RuleSuccess | RulePartialFailed | RuleFailed

  function Conclude(success: bool, fail: bool): RuleOutcome
  {
    if success && !fail then RuleSuccess
    else if success && fail then RulePartialFailed
    else RuleFailed
  }
}
