/** RuleExecutionTask: the loops over pages, documents, actions and rollbacks,
    each proved to do what the model says. */
module RuleExecutionTasks {
  import opened Wrappers
  import opened FileNames
  import opened RuleModel
  import opened Paging

  datatype Escape = NullPointerException

  class RuleExecutionTask {
    var success: bool
    var fail: bool
    var documentNotFound: bool
    var errMessage: Option<string>
    var world: World
    var fireOnceActions: map<int, Verdict>
    var log: seq<Event>
    ghost var calls: seq<Call>
    ghost var past: seq<World>
    ghost var visited: seq<Path>

    constructor (w: World)
      ensures State() == Task(w, map[], false, false, [], [], [], [])
      ensures !documentNotFound && errMessage == None
    {
      success, fail, documentNotFound, errMessage := false, false, false, None;
      world, fireOnceActions, log := w, map[], [];
      calls, past, visited := [], [], [];
    }

    ghost function State(): Task
      reads this
    {
      Task(world, fireOnceActions, success, fail, log, calls, past, visited)
    }

    method MoveTo(w: World)
      modifies `world, `past
      ensures State() == Move(old(State()), w)
    {
      world, past := w, past + [w];
    }

    method CreateBackupFile(doc: Path, disk: Disk) returns (backup: Path)
      modifies `world, `past
      ensures backup == BackupPath(doc)
      ensures State() == CreateBackup(old(State()), doc, disk)
    {
      backup := BackupPath(doc);
      MoveTo(CopyFile(world, doc, backup, disk.backupCopy).0);
    }

    method RestoreOriginalFile(backup: Path, original: Path, disk: Disk) returns (end: RestoreEnd)
      modifies `world, `past
      ensures (State(), end) == RestoreOriginal(old(State()), backup, original, disk)
    {
      if !Exists(world, backup) {
        return NotRestored;
      }
      if Exists(world, original) && disk.quietDelete {
        MoveTo(Remove(world, original));
      }
      var (w, copied) := CopyFile(world, backup, original, disk.restoreCopy);
      MoveTo(w);
      match copied
      case CopyDone => return Restored;
      case CopyIOException => return NotRestored;
      case CopyOtherException => return RestoreThrew;
    }

    method RollBackActions(performed: seq<Action>) returns (end: UndoEnd)
      modifies `world, `past, `calls
      ensures (State(), end) == RollBack(old(State()), performed)
    {
      var i := |performed|;
      assert performed[..i] == performed;
      while i > 0
        invariant 0 <= i <= |performed|
        invariant RollBack(State(), performed[..i]) == RollBack(old(State()), performed)
        invariant fireOnceActions == old(fireOnceActions)
      {
        var action := performed[i - 1];
        assert performed[..i][..i - 1] == performed[..i - 1];
        var (w, undo) := action.rollback(world);
        MoveTo(w);
        calls := calls + [RolledBack(action.id, undo)];
        if undo == ThrewOther {
          return UndoThrew;
        }
        i := i - 1;
      }
      return AllUndone;
    }

    method PerformActions(doc: Path, job: Job)
        returns (performed: seq<Action>, events: seq<Event>, failed: bool)
      modifies `world, `past, `calls, `success, `fail, `fireOnceActions
      ensures Run(State(), performed, events, failed)
           == Perform(Start(old(State())), job.actions, doc, job)
    {
      performed, events, failed := [], [], false;
      var actions := job.actions;
      var i := 0;
      while i < |actions|
        invariant 0 <= i <= |actions|
        invariant !failed
        invariant Perform(Run(State(), performed, events, failed), actions[i..], doc, job)
               == Perform(Start(old(State())), actions, doc, job)
      {
        var a := actions[i];
        assert actions[i..][0] == a && actions[i..][1..] == actions[i + 1..];
        i := i + 1;
        if a.fireOnce && a.id in fireOnceActions {
          events := events + ActionEvent(job.logging, doc, a, fireOnceActions[a.id]);
          continue;
        }
        var (w, reply) := Invoke(a, world, doc, job.query);
        MoveTo(w);
        calls := calls + [Executed(doc, a.id, a.fireOnce, reply)];
        if !reply.Threw? {
          performed := performed + [a];
        }
        if reply == Outcome(SUCCESS) {
          success := true;
        } else {
          fail := true;
        }
        if a.fireOnce && reply.Outcome? {
          fireOnceActions := fireOnceActions[a.id := reply.verdict];
        }
        events := events + ActionEvent(job.logging, doc, a, VerdictOf(reply));
        if VerdictOf(reply) == FAIL && !EmailOnly(job.actions) {
          failed := true;
          return;
        }
      }
    }

    method LogActionExecutionEvents(events: seq<Event>, rolledBack: bool)
      modifies `log
      ensures State() == Publish(old(State()), events, rolledBack)
    {
      var i := 0;
      while i < |events|
        invariant 0 <= i <= |events|
        invariant log + Published(events[i..], rolledBack) == old(log) + Published(events, rolledBack)
      {
        var e := events[i];
        assert events[i..][0] == e && events[i..][1..] == events[i + 1..];
        i := i + 1;
        if rolledBack && e.status == LogSuccess {
          if MentionsEmail(e.actionName) {
            continue;
          }
          e := e.(status := LogRollback);
        }
        log := log + [e];
      }
    }

    /** Everything between the backup and its deletion. */
    method AttemptDocument(doc: Path, backup: Path, disk: Disk, job: Job) returns (ending: Ending)
      requires backup == BackupPath(doc) || EmailOnly(job.actions)
      modifies `world, `past, `calls, `success, `fail, `fireOnceActions, `log
      ensures (State(), ending) == Attempt(old(State()), doc, disk, job)
    {
      var fileRestored, rolledBack := true, false;
      var performed, events, failed := PerformActions(doc, job);
      if failed {
        EmailNeverFails(Start(old(State())), job.actions, doc, job);
        rolledBack := true;
        var end := RollBackActions(performed);
        if end == UndoThrew {
          return Abandoned;
        }
        var restored := RestoreOriginalFile(backup, doc, disk);
        if restored == RestoreThrew {
          return Abandoned;
        }
        fileRestored := restored == Restored;
      }
      LogActionExecutionEvents(events, rolledBack);
      return if fileRestored then Disposable else Kept;
    }

    method ProcessDocument(d: Document, disk: Disk, job: Job)
      modifies `world, `past, `calls, `success, `fail, `fireOnceActions, `log, `visited
      ensures State() == Process(old(State()), d, disk, job)
    {
      visited := visited + [d.id];
      if !UpToDate(world, d) {
        return;
      }
      var backup := "";
      if !EmailOnly(job.actions) {
        backup := CreateBackupFile(d.id, disk);
      }
      if EmailOnly(job.actions) || Exists(world, backup) {
        var ending := AttemptDocument(d.id, backup, disk, job);
        if !EmailOnly(job.actions) && ending == Disposable && disk.backupDelete {
          MoveTo(Remove(world, backup));
        }
      }
    }

    /** One page of the index; `done` when the cursor repeats. */
    method NextPage(index: seq<Document>, cursor: Cursor, disks: Path -> Disk, job: Job,
                    ghost start: Task, ghost pages: nat)
        returns (done: bool, nextCursor: Cursor)
      requires SortedById(index) && pages < PageCount(|index|)
      requires cursor == CursorAt(index, Delivered(|index|, pages))
      requires State() == Progress(start, index, pages, disks, job)
      modifies this
      ensures State() == Progress(start, index, pages + 1, disks, job)
      ensures nextCursor == CursorAt(index, Delivered(|index|, pages + 1))
      ensures done <==> pages + 1 == PageCount(|index|)
      ensures documentNotFound == (old(documentNotFound) || index == [])
    {
      PageResumes(index, pages);
      PageProgress(start, index, pages, disks, job);
      var page := Page(index, cursor);
      nextCursor := NextCursor(page, cursor);
      if cursor == CursorStart && |page| == 0 {
        documentNotFound := true;
        success := true;
      }
      ProcessPage(page, disks, job);
      done := cursor == nextCursor;
    }

    /** Pages until the cursor repeats or a query throws. */
    method ReadPages(index: seq<Document>, disks: Path -> Disk, job: Job, fetch: nat -> Fetching)
        returns (pages: nat)
      requires SortedById(index)
      modifies this
      ensures pages == FirstFault(fetch, 0, PageCount(|index|))
      ensures State() == Progress(old(State()), index, pages, disks, job)
      ensures documentNotFound == (old(documentNotFound) || (index == [] && pages > 0))
    {
      var cursor := CursorStart;
      var done := false;
      pages := 0;
      while !done && fetch(pages) == FetchDone
        invariant pages <= PageCount(|index|)
        invariant done <==> pages == PageCount(|index|)
        invariant cursor == CursorAt(index, Delivered(|index|, pages))
        invariant State() == Progress(old(State()), index, pages, disks, job)
        invariant documentNotFound == (old(documentNotFound) || (index == [] && pages > 0))
        invariant forall i: nat :: i < pages ==> fetch(i) == FetchDone
        decreases PageCount(|index|) - pages
      {
        done, cursor := NextPage(index, cursor, disks, job, old(State()), pages);
        pages := pages + 1;
      }
    }

    /** A query that throws ends the execution; reading the message of an absent
        cause throws once more, out of the method. */
    method Execute(index: seq<Document>, actions: Option<seq<Action>>, query: string, logging: Logging,
                   disks: Path -> Disk, fetch: nat -> Fetching)
        returns (r: Result<RuleOutcome, Escape>)
      requires SortedById(index)
      modifies this
      ensures actions.None? ==> State() == old(State()) && r == Success(Conclude(success, fail))
      ensures actions.Some? ==>
                var fault := FirstFault(fetch, 0, PageCount(|index|));
                && State() == Progress(old(State()), index, fault, disks, Job(actions.value, query, logging))
                && documentNotFound == (old(documentNotFound) || (index == [] && fault > 0))
                && r == if fault < PageCount(|index|) && fetch(fault) == FetchThrew(false)
                        then Failure(NullPointerException)
                        else Success(Conclude(success, fail))
    {
      if actions.None? {
        errMessage := Some("Unable to resolve action");
        return Success(Conclude(success, fail));
      }
      var pages := ReadPages(index, disks, Job(actions.value, query, logging), fetch);
      if pages < PageCount(|index|) {
        if fetch(pages) == FetchThrew(false) {
          return Failure(NullPointerException);
        }
        errMessage := Some("Query failed");
      }
      return Success(Conclude(success, fail));
    }

    method ProcessPage(page: seq<Document>, disks: Path -> Disk, job: Job)
      modifies `world, `past, `calls, `success, `fail, `fireOnceActions, `log, `visited
      ensures State() == ProcessAll(old(State()), page, disks, job)
    {
      var i := 0;
      while i < |page|
        invariant 0 <= i <= |page|
        invariant ProcessAll(State(), page[i..], disks, job) == ProcessAll(old(State()), page, disks, job)
      {
        assert page[i..][0] == page[i] && page[i..][1..] == page[i + 1..];
        ProcessDocument(page[i], disks(page[i].id), job);
        i := i + 1;
      }
    }

    /** run: an exception that escapes counts as a failed execution. */
    method RunRule(index: seq<Document>, actions: Option<seq<Action>>, query: string, logging: Logging,
                   disks: Path -> Disk, fetch: nat -> Fetching)
        returns (outcome: RuleOutcome)
      requires SortedById(index)
      modifies this
      ensures actions.Some? ==>
                var fault := FirstFault(fetch, 0, PageCount(|index|));
                && State() == Progress(old(State()), index, fault, disks, Job(actions.value, query, logging))
                && outcome == if fault < PageCount(|index|) && fetch(fault) == FetchThrew(false)
                              then RuleFailed else Conclude(success, fail)
      ensures actions.None? ==> State() == old(State()) && outcome == Conclude(success, fail)
    {
      var r := Execute(index, actions, query, logging, disks, fetch);
      match r
      case Success(o) => outcome := o;
      case Failure(_) => outcome := RuleFailed;
    }
  }
}
