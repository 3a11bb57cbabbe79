/** What a rule execution promises about the documents it touches: no original
    is lost, a failure is undone in reverse, and the outcome tells the truth. */
module RuleProperties {
  import opened Wrappers
  import opened FileNames
  import opened RuleModel
  import opened Paging

  /*** No lost original ***/

  predicate SameAt(w: World, w': World, p: Path)
  {
    (p in w.files <==> p in w'.files) && (p in w.files ==> w.files[p] == w'.files[p])
  }

  /** Neither running nor rolling back the action touches path `p`. */
  ghost predicate Leaves(a: Action, p: Path)
  {
    && (forall w, arg :: SameAt(w, a.execute(w, arg).0, p))
    && (forall w :: SameAt(w, a.rollback(w).0, p))
  }

  ghost predicate AllLeave(actions: seq<Action>, p: Path)
  {
    forall i :: 0 <= i < |actions| ==> Leaves(actions[i], p)
  }

  /** Every world between the two states has content `c` at `p`. */
  ghost predicate HeldSince(before: Task, after: Task, p: Path, c: Content)
  {
    && before.past <= after.past
    && (forall k :: |before.past| <= k < |after.past| ==> Holds(after.past[k], p, c))
    && Holds(after.world, p, c)
  }

  lemma {:induction false} PerformHolds(r: Run, actions: seq<Action>, doc: Path, job: Job, p: Path, c: Content)
    requires AllLeave(actions, p) && AllLeave(r.performed, p) && Holds(r.task.world, p, c)
    ensures HeldSince(r.task, Perform(r, actions, doc, job).task, p, c)
    ensures AllLeave(Perform(r, actions, doc, job).performed, p)
    decreases |actions|
  {
    if actions != [] && !r.failed {
      var a := actions[0];
      assert Leaves(a, p);
      var next := PerformOne(r, a, doc, job);
      assert Holds(next.task.world, p, c);
      assert AllLeave(next.performed, p);
      PerformHolds(next, actions[1..], doc, job, p, c);
    }
  }

  lemma {:induction false} RollBackHolds(t: Task, performed: seq<Action>, p: Path, c: Content)
    requires AllLeave(performed, p) && Holds(t.world, p, c)
    ensures HeldSince(t, RollBack(t, performed).0, p, c)
    decreases |performed|
  {
    if performed != [] {
      var a := performed[|performed| - 1];
      assert Leaves(a, p);
      var (w, undo) := a.rollback(t.world);
      var t' := Move(t, w).(calls := t.calls + [RolledBack(a.id, undo)]);
      if undo != ThrewOther {
        RollBackHolds(t', performed[..|performed| - 1], p, c);
      }
    }
  }

  lemma RestoreHolds(t: Task, backup: Path, original: Path, disk: Disk, c: Content)
    requires Holds(t.world, backup, c) && backup != "" && backup != original
    ensures HeldSince(t, RestoreOriginal(t, backup, original, disk).0, backup, c)
    ensures RestoreOriginal(t, backup, original, disk).1 == Restored ==>
              Holds(RestoreOriginal(t, backup, original, disk).0.world, original, c)
  {}

  /** What a copy leaves at its target: what it copied, or what the failed copy left. */
  lemma CopyMeaning(w: World, from: Path, to: Path, how: Copying) returns (after: World, end: CopyEnd)
    requires Exists(w, from) && to != "" && from != to
    ensures (after, end) == CopyFile(w, from, to, how) && after.outside == w.outside
    ensures forall p :: p != to ==> SameAt(w, after, p)
    ensures end == CopyDone <==> how == Copied
    ensures end == CopyIOException <==> how.IOFault?
    ensures match how
            case Copied => Holds(after, to, w.files[from])
            case _ =>
              match how.left
              case Untouched => SameAt(w, after, to)
              case Missing => to !in after.files
              case Partial(c) => Holds(after, to, c)
  {
    var (left, how') := CopyFile(w, from, to, how);
    after, end := left, how';
  }

  /** How a restore ends: without a backup nothing is done; with one the original is deleted
      if it is there and the disk deletes it, and then written from the backup, or is left
      to what the failed copy leaves. */
  lemma RestoreMeaning(t: Task, backup: Path, original: Path, disk: Disk) returns (after: Task, end: RestoreEnd)
    requires backup != "" && original != "" && backup != original
    ensures (after, end) == RestoreOriginal(t, backup, original, disk)
    ensures backup !in t.world.files ==> after == t && end == NotRestored
    ensures backup in t.world.files ==>
              && (end == Restored <==> disk.restoreCopy == Copied)
              && (end == NotRestored <==> disk.restoreCopy.IOFault?)
              && (forall p :: p != original ==> SameAt(t.world, after.world, p))
              && after.world.outside == t.world.outside
    ensures backup in t.world.files ==>
              match disk.restoreCopy
              case Copied => Holds(after.world, original, t.world.files[backup])
              case _ =>
                match disk.restoreCopy.left
                case Untouched => if disk.quietDelete then original !in after.world.files else SameAt(t.world, after.world, original)
                case Missing => original !in after.world.files
                case Partial(c) => Holds(after.world, original, c)
  {
    var (restored, how) := RestoreOriginal(t, backup, original, disk);
    after, end := restored, how;
    if backup in t.world.files {
      var cleared := if Exists(t.world, original) && disk.quietDelete then Remove(t.world, original) else t.world;
      var w, _ := CopyMeaning(cleared, backup, original, disk.restoreCopy);
      assert after.world == w;
    }
  }

  /** From the moment the backup holds the original until the moment it may be
      deleted, every world in between still has the original in the backup,
      however the actions, their rollbacks and the disk behave. */
  lemma BackupHeldThroughout(t: Task, doc: Path, disk: Disk, job: Job, c: Content)
    requires BackupPath(doc) != "" && Holds(t.world, BackupPath(doc), c)
    requires AllLeave(job.actions, BackupPath(doc))
    ensures HeldSince(t, Attempt(t, doc, disk, job).0, BackupPath(doc), c)
    ensures
      var failed := Perform(Start(t), job.actions, doc, job).failed;
      failed && Attempt(t, doc, disk, job).1 == Disposable ==>
        Holds(Attempt(t, doc, disk, job).0.world, doc, c)
  {
    var b := BackupPath(doc);
    PerformHolds(Start(t), job.actions, doc, job, b, c);
    var run := Perform(Start(t), job.actions, doc, job);
    var after, ending := ConclusionHolds(run, doc, disk, c);
    HeldOn(t, run.task, after, b, c);
  }

  lemma HeldOn(before: Task, between: Task, after: Task, p: Path, c: Content)
    requires HeldSince(before, between, p, c) && HeldSince(between, after, p, c)
    ensures HeldSince(before, after, p, c)
  {}

  lemma ConclusionHolds(run: Run, doc: Path, disk: Disk, c: Content) returns (after: Task, ending: Ending)
    requires BackupPath(doc) != "" && Holds(run.task.world, BackupPath(doc), c) && AllLeave(run.performed, BackupPath(doc))
    ensures (after, ending) == Conclusion(run, doc, disk) && HeldSince(run.task, after, BackupPath(doc), c)
    ensures run.failed && ending == Disposable ==> Holds(after.world, doc, c)
  {
    var b := BackupPath(doc);
    BackupInjective(doc, doc);
    var (end, how) := Conclusion(run, doc, disk);
    after, ending := end, how;
    if run.failed {
      var (undone, undo) := RollBack(run.task, run.performed);
      RollBackHolds(run.task, run.performed, b, c);
      if undo != UndoThrew {
        RestoreHolds(undone, b, doc, disk, c);
        HeldOn(run.task, undone, RestoreOriginal(undone, b, doc, disk).0, b, c);
      }
    }
  }

  /** The document is not skipped and not merely mailed about. */
  predicate Attempted(t: Task, d: Document, disk: Disk, job: Job)
  {
    && UpToDate(t.world, d)
    && !EmailOnly(job.actions)
    && BackupPath(d.id) != ""
    && Exists(CreateBackup(t, d.id, disk).world, BackupPath(d.id))
  }

  /** What the check made after backing up does not look at: what is in the file. */
  predicate Faithful(t: Task, d: Document, disk: Disk)
    requires UpToDate(t.world, d)
  {
    Holds(CreateBackup(t, d.id, disk).world, BackupPath(d.id), t.world.files[d.id])
  }

  /** An executed action of this document did not succeed. */
  ghost predicate SomeActionFailed(before: Task, after: Task)
  {
    exists k :: |before.calls| <= k < |after.calls| && FailedCall(after.calls[k])
  }

  predicate FailedCall(c: Call)
  {
    c.Executed? && c.reply != Outcome(SUCCESS)
  }

  /** The original content is at its path or in the backup. */
  predicate Recoverable(w: World, doc: Path, c: Content)
  {
    Holds(w, doc, c) || Holds(w, BackupPath(doc), c)
  }

  ghost predicate RecoverableSince(before: Task, after: Task, doc: Path, c: Content)
  {
    && before.past <= after.past
    && (forall k :: |before.past| <= k < |after.past| ==> Recoverable(after.past[k], doc, c))
    && Recoverable(after.world, doc, c)
  }

  /** What becomes of the backup once the attempt has ended. */
  function CleanUp(t: Task, ending: Ending, doc: Path, disk: Disk): Task
  {
    if ending == Disposable then DeleteBackup(t, BackupPath(doc), disk) else t
  }

  lemma FailedAttemptKeeps(t: Task, doc: Path, disk: Disk, job: Job, c: Content) returns (after: Task)
    requires BackupPath(doc) != "" && Holds(t.world, BackupPath(doc), c)
    requires AllLeave(job.actions, BackupPath(doc))
    ensures var (attempted, ending) := Attempt(t, doc, disk, job);
            after == CleanUp(attempted, ending, doc, disk)
    ensures Perform(Start(t), job.actions, doc, job).failed ==> RecoverableSince(t, after, doc, c)
  {
    BackupHeldThroughout(t, doc, disk, job, c);
    BackupInjective(doc, doc);
    var (attempted, ending) := Attempt(t, doc, disk, job);
    after := CleanUp(attempted, ending, doc, disk);
  }

  /** No document loses its original to a failed action: at every world from the
      backup on, and at the exit taken, whichever it is, the original content is
      at its path or in the backup. */
  lemma NoLostOriginal(t: Task, d: Document, disk: Disk, job: Job)
    requires Attempted(t, d, disk, job) && Faithful(t, d, disk)
    requires AllLeave(job.actions, BackupPath(d.id))
    ensures SomeActionFailed(t, Process(t, d, disk, job)) ==>
              RecoverableSince(t, Process(t, d, disk, job), d.id, t.world.files[d.id])
  {
    var c := t.world.files[d.id];
    var backedUp := CreateBackup(t.(visited := t.visited + [d.id]), d.id, disk);
    FailureSeen(t, d, disk, job);
    var after := FailedAttemptKeeps(backedUp, d.id, disk, job, c);
    assert after == Process(t, d, disk, job);
    assert backedUp.past == t.past + [backedUp.world];
  }

  /*** An unfaithful backup ***/

  /** An action that changes nothing and reports failure. */
  const HARMLESS: Action :=
    Action(1, "classify", false, OncePerFile, (w: World, arg: string) => (w, Outcome(FAIL)),
           (w: World) => (w, Undone))

  /** When the copy threw but left a file, the check lets the document through.
      The original is then safe against every rule exactly when that file has
      the original's content: otherwise even an action that does nothing but
      fail replaces a sound original by the broken copy and deletes the copy. */
  lemma UnfaithfulBackupLosesOriginal(t: Task, d: Document, disk: Disk)
    requires Attempted(t, d, disk, Job([HARMLESS], "", Logging(true, true)))
    requires disk.restoreCopy == Copied
    ensures
      var c := t.world.files[d.id];
      var after := Process(t, d, disk, Job([HARMLESS], "", Logging(true, true)));
      && AllLeave([HARMLESS], BackupPath(d.id))
      && SomeActionFailed(t, after)
      && ((Holds(after.world, d.id, c) || Holds(after.world, BackupPath(d.id), c)) <==> Faithful(t, d, disk))
  {
    var job := Job([HARMLESS], "", Logging(true, true));
    var seen := t.(visited := t.visited + [d.id]);
    var b := BackupPath(d.id);
    BackupInjective(d.id, d.id);
    var backedUp := CreateBackup(seen, d.id, disk);
    var run := PerformOne(Start(backedUp), HARMLESS, d.id, job);
    assert run.performed == [HARMLESS];
    assert Perform(Start(backedUp), job.actions, d.id, job) == run;
    assert HARMLESS.rollback(backedUp.world) == (backedUp.world, Undone);
    var undone := Move(run.task, backedUp.world).(calls := run.task.calls + [RolledBack(1, Undone)]);
    assert run.performed[..0] == [];
    assert RollBack(undone, []) == (undone, AllUndone);
    assert RollBack(run.task, run.performed) == (undone, AllUndone);
    var (restored, how) := RestoreOriginal(undone, b, d.id, disk);
    var broken := backedUp.world.files[b];
    assert how == Restored && Holds(restored.world, d.id, broken) && Holds(restored.world, b, broken);
    var after := Process(t, d, disk, job);
    assert after.calls[|t.calls|] == Executed(d.id, 1, false, Outcome(FAIL));
    assert FailedCall(after.calls[|t.calls|]);
  }

  /** An input that fails: the copy of a document breaks off and leaves other content in
      the backup file. Afterwards the original is nowhere. */
  lemma OriginalLost(c: Content, broken: Content) returns (t: Task, d: Document, disk: Disk)
    requires c != broken
    ensures t == Task(World(map["/a/b" := c], map[]), map[], false, false, [], [], [], [])
    ensures d == Document("/a/b", Some(c.modified)) && disk == Disk(IOFault(Partial(broken)), true, Copied, true)
    ensures Attempted(t, d, disk, Job([HARMLESS], "", Logging(true, true))) && !Faithful(t, d, disk)
    ensures
      var after := Process(t, d, disk, Job([HARMLESS], "", Logging(true, true)));
      !Holds(after.world, d.id, c) && !Holds(after.world, BackupPath(d.id), c)
  {
    t := Task(World(map["/a/b" := c], map[]), map[], false, false, [], [], [], []);
    d, disk := Document("/a/b", Some(c.modified)), Disk(IOFault(Partial(broken)), true, Copied, true);
    assert d.id[1] == 'a' && '/' in d.id;
    LastIndexUnique(d.id, '/', 2);
    BackupInjective(d.id, d.id);
    assert CreateBackup(t, d.id, disk).world.files == map[d.id := c, BackupPath(d.id) := broken];
    UnfaithfulBackupLosesOriginal(t, d, disk);
  }

  /** A copy that returns normally is always faithful. */
  lemma CopiedIsFaithful(t: Task, d: Document, disk: Disk)
    requires UpToDate(t.world, d) && BackupPath(d.id) != "" && disk.backupCopy == Copied
    ensures Faithful(t, d, disk)
  {
    BackupInjective(d.id, d.id);
  }

  /*** Undo in reverse ***/

  /** The ids of the executions that returned, in order. */
  function Returned(calls: seq<Call>): seq<int>
  {
    if calls == [] then []
    else
      Returned(calls[..|calls| - 1]) +
      (var c := calls[|calls| - 1]; if c.Executed? && c.reply != Threw then [c.action] else [])
  }

  function Ids(actions: seq<Action>): seq<int>
  {
    seq(|actions|, i requires 0 <= i < |actions| => actions[i].id)
  }

  /** Only the last execution can have failed, and the stack of performed
      actions is the executions that returned. */
  ghost predicate Orderly(before: Task, r: Run)
  {
    && before.calls <= r.task.calls
    && Ids(r.performed) == Returned(r.task.calls[|before.calls|..])
    && (forall k :: |before.calls| <= k < |r.task.calls| ==> r.task.calls[k].Executed?)
    && (forall k :: |before.calls| <= k < |r.task.calls| && FailedCall(r.task.calls[k]) ==>
          r.failed && k == |r.task.calls| - 1)
    && (r.failed ==> |before.calls| < |r.task.calls| && FailedCall(r.task.calls[|r.task.calls| - 1]))
  }

  lemma {:induction false} PerformOrderly(before: Task, r: Run, actions: seq<Action>, doc: Path, job: Job)
    requires Orderly(before, r) && !EmailOnly(job.actions)
    ensures Orderly(before, Perform(r, actions, doc, job))
    decreases |actions|
  {
    if actions != [] && !r.failed {
      var next := PerformOne(r, actions[0], doc, job);
      if !AlreadyFired(r.task, actions[0]) {
        var was, now := r.task.calls[|before.calls|..], next.task.calls[|before.calls|..];
        assert now[..|now| - 1] == was;
        assert next.task.calls == r.task.calls + [now[|now| - 1]];
      }
      assert Orderly(before, next);
      PerformOrderly(before, next, actions[1..], doc, job);
    }
  }

  function Reverse(s: seq<int>): seq<int>
  {
    seq(|s|, i requires 0 <= i < |s| => s[|s| - 1 - i])
  }

  function UndoneIds(calls: seq<Call>): seq<int>
  {
    seq(|calls|, i requires 0 <= i < |calls| =>
        if calls[i].RolledBack? then calls[i].action else 0)
  }

  ghost predicate OnlyUndos(calls: seq<Call>)
  {
    forall k :: 0 <= k < |calls| ==> calls[k].RolledBack?
  }

  lemma LastIdFirst(performed: seq<Action>)
    requires performed != []
    ensures Reverse(Ids(performed)) == [performed[|performed| - 1].id] + Reverse(Ids(performed[..|performed| - 1]))
  {}

  lemma OneMoreUndo(id: int, undo: Undo, rest: seq<Call>)
    requires OnlyUndos(rest)
    ensures OnlyUndos([RolledBack(id, undo)] + rest)
    ensures UndoneIds([RolledBack(id, undo)] + rest) == [id] + UndoneIds(rest)
  {}

  /** Rolling back adds one call for each performed action, last one first; an
      exception other than RollbackException stops it early. */
  lemma {:induction false} RollBackOrder(t: Task, performed: seq<Action>)
    ensures
      var (t', end) := RollBack(t, performed);
      && t.calls <= t'.calls
      && OnlyUndos(t'.calls[|t.calls|..])
      && (UndoneIds(t'.calls[|t.calls|..]) <= Reverse(Ids(performed)))
      && (end == AllUndone ==> UndoneIds(t'.calls[|t.calls|..]) == Reverse(Ids(performed)))
    decreases |performed|
  {
    if performed != [] {
      var n := |performed| - 1;
      var a := performed[n];
      var (w, undo) := a.rollback(t.world);
      var t1 := Move(t, w).(calls := t.calls + [RolledBack(a.id, undo)]);
      LastIdFirst(performed);
      if undo != ThrewOther {
        RollBackOrder(t1, performed[..n]);
        var t' := RollBack(t1, performed[..n]).0;
        assert t'.calls[|t.calls|..] == [RolledBack(a.id, undo)] + t'.calls[|t1.calls|..];
        OneMoreUndo(a.id, undo, t'.calls[|t1.calls|..]);
      } else {
        assert t1.calls[|t.calls|..] == [RolledBack(a.id, undo)];
      }
    }
  }

  lemma CallsOfAttempt(t: Task, doc: Path, disk: Disk, job: Job)
    requires !EmailOnly(job.actions)
    ensures
      var run := Perform(Start(t), job.actions, doc, job);
      var after := Attempt(t, doc, disk, job).0;
      && Orderly(t, run)
      && run.task.calls <= after.calls
      && OnlyUndos(after.calls[|run.task.calls|..])
      && (!run.failed ==> after.calls == run.task.calls)
      && (run.failed <==> SomeActionFailed(t, after))
  {
    assert t.calls[|t.calls|..] == [];
    PerformOrderly(t, Start(t), job.actions, doc, job);
    var run := Perform(Start(t), job.actions, doc, job);
    var after := Attempt(t, doc, disk, job).0;
    if run.failed {
      RollBackOrder(run.task, run.performed);
      assert FailedCall(after.calls[|run.task.calls| - 1]);
    } else {
      forall k | |t.calls| <= k < |after.calls|
        ensures !FailedCall(after.calls[k])
      {
      }
    }
  }

  /** What happened to a document whose last action failed. */
  ghost predicate UndoneInReverse(before: Task, run: Run, after: Task, complete: bool)
  {
    && before.calls <= run.task.calls <= after.calls
    && var ran, undone := run.task.calls[|before.calls|..], after.calls[|run.task.calls|..];
    && ran != [] && FailedCall(ran[|ran| - 1])
    && (forall k :: 0 <= k < |ran| - 1 ==> Succeeded(ran[k]))
    && OnlyUndos(undone)
    && UndoneIds(undone) <= Reverse(Returned(ran))
    && (complete ==> UndoneIds(undone) == Reverse(Returned(ran)))
  }

  /** Once an action fails, no later action runs on the document. The executions
      that returned, the failed one included, are then rolled back once each, in
      reverse, unless a rollback throws something other than RollbackException. */
  lemma UndoInReverse(t: Task, doc: Path, disk: Disk, job: Job) returns (run: Run, end: UndoEnd, after: Task, ending: Ending)
    requires !EmailOnly(job.actions)
    ensures run == Perform(Start(t), job.actions, doc, job) && end == RollBack(run.task, run.performed).1
    ensures (after, ending) == Attempt(t, doc, disk, job)
    ensures SomeActionFailed(t, after) ==> UndoneInReverse(t, run, after, end == AllUndone)
    ensures ending != Abandoned && SomeActionFailed(t, after) ==> end == AllUndone
  {
    run := Perform(Start(t), job.actions, doc, job);
    var (undone, how) := RollBack(run.task, run.performed);
    var (attempted, exit) := Attempt(t, doc, disk, job);
    end, after, ending := how, attempted, exit;
    CallsOfAttempt(t, doc, disk, job);
    if run.failed {
      UndoOrderly(t, run);
      assert after.calls == undone.calls;
    }
  }

  lemma UndoOrderly(t: Task, run: Run)
    requires Orderly(t, run) && run.failed
    ensures UndoneInReverse(t, run, RollBack(run.task, run.performed).0,
                            RollBack(run.task, run.performed).1 == AllUndone)
  {
    RollBackOrder(run.task, run.performed);
    var ran := run.task.calls[|t.calls|..];
    forall k | 0 <= k < |ran| - 1
      ensures Succeeded(ran[k])
    {
      assert ran[k] == run.task.calls[|t.calls| + k];
    }
  }

  /** Rolling back inverts an execution that returned; one that threw, or was
      never started, has no effect. */
  ghost predicate Inverts(a: Action)
  {
    && (forall w, doc, query ::
          var (w1, r) := Invoke(a, w, doc, query);
          if r == Threw then w1 == w else a.rollback(w1).0 == w && a.rollback(w1).1 != ThrewOther)
  }

  ghost predicate AllInvert(actions: seq<Action>)
  {
    forall i :: 0 <= i < |actions| ==> Inverts(actions[i])
  }

  /** Undoing the stack from world `w` succeeds and ends in world `origin`. */
  ghost predicate Unwinds(performed: seq<Action>, w: World, origin: World)
    decreases |performed|
  {
    if performed == [] then w == origin
    else
      var (w', undo) := performed[|performed| - 1].rollback(w);
      undo != ThrewOther && Unwinds(performed[..|performed| - 1], w', origin)
  }

  lemma {:induction false} PerformUnwinds(r: Run, actions: seq<Action>, doc: Path, job: Job, origin: World)
    requires AllInvert(actions) && Unwinds(r.performed, r.task.world, origin)
    ensures
      var r' := Perform(r, actions, doc, job);
      Unwinds(r'.performed, r'.task.world, origin)
    decreases |actions|
  {
    if actions != [] && !r.failed {
      var a := actions[0];
      assert Inverts(a);
      var next := PerformOne(r, a, doc, job);
      if !AlreadyFired(r.task, a) {
        var (w, reply) := Invoke(a, r.task.world, doc, job.query);
        assert (r.performed + [a])[..|r.performed|] == r.performed;
        assert Unwinds(next.performed, next.task.world, origin);
      }
      PerformUnwinds(next, actions[1..], doc, job, origin);
    }
  }

  lemma {:induction false} RollBackUnwinds(t: Task, performed: seq<Action>, origin: World)
    requires Unwinds(performed, t.world, origin)
    ensures RollBack(t, performed).1 == AllUndone
    ensures RollBack(t, performed).0.world == origin
    decreases |performed|
  {
    if performed != [] {
      var a := performed[|performed| - 1];
      var (w, undo) := a.rollback(t.world);
      RollBackUnwinds(Move(t, w).(calls := t.calls + [RolledBack(a.id, undo)]),
                      performed[..|performed| - 1], origin);
    }
  }

  lemma AttemptUnwinds(t: Task, doc: Path, disk: Disk, job: Job, c: Content)
    requires AllInvert(job.actions) && BackupPath(doc) != ""
    requires Holds(t.world, BackupPath(doc), c) && Holds(t.world, doc, c)
    requires disk.restoreCopy == Copied
    ensures Perform(Start(t), job.actions, doc, job).failed ==>
              && Attempt(t, doc, disk, job).0.world == t.world
              && Attempt(t, doc, disk, job).1 == Disposable
  {
    BackupInjective(doc, doc);
    PerformUnwinds(Start(t), job.actions, doc, job, t.world);
    var run := Perform(Start(t), job.actions, doc, job);
    if run.failed {
      RollBackUnwinds(run.task, run.performed, t.world);
      RestoreUndoesNothing(RollBack(run.task, run.performed).0, BackupPath(doc), doc, disk, c);
    }
  }

  lemma RestoreUndoesNothing(t: Task, backup: Path, original: Path, disk: Disk, c: Content)
    requires Holds(t.world, backup, c) && Holds(t.world, original, c)
    requires backup != "" && original != "" && backup != original && disk.restoreCopy == Copied
    ensures RestoreOriginal(t, backup, original, disk).1 == Restored
    ensures RestoreOriginal(t, backup, original, disk).0.world == t.world
  {
    assert t.world.files == t.world.files[original := c];
    assert t.world.files == (t.world.files - {original})[original := c];
  }

  /** A failed document leaves no trace: with invertible actions, a disk that
      works and no backup beforehand, the whole world is what it was. */
  lemma FailureLeavesNoTrace(t: Task, d: Document, disk: Disk, job: Job)
    requires Attempted(t, d, disk, job) && AllInvert(job.actions)
    requires BackupPath(d.id) !in t.world.files
    requires disk.backupCopy == Copied && disk.restoreCopy == Copied && disk.backupDelete
    ensures SomeActionFailed(t, Process(t, d, disk, job)) ==> Process(t, d, disk, job).world == t.world
  {
    var b := BackupPath(d.id);
    var seen := t.(visited := t.visited + [d.id]);
    var backedUp := CreateBackup(seen, d.id, disk);
    BackupInjective(d.id, d.id);
    AttemptUnwinds(backedUp, d.id, disk, job, t.world.files[d.id]);
    FailureSeen(t, d, disk, job);
    if SomeActionFailed(t, Process(t, d, disk, job)) {
      assert Remove(backedUp.world, b).files == t.world.files;
    }
  }

  /** The calls and the log of an attempted document are those of the attempt. */
  lemma FailureSeen(t: Task, d: Document, disk: Disk, job: Job)
    requires Attempted(t, d, disk, job)
    ensures
      var backedUp := CreateBackup(t.(visited := t.visited + [d.id]), d.id, disk);
      var after := Process(t, d, disk, job);
      && after.log == Attempt(backedUp, d.id, disk, job).0.log
      && (SomeActionFailed(t, after) <==> Perform(Start(backedUp), job.actions, d.id, job).failed)
  {
    var backedUp := CreateBackup(t.(visited := t.visited + [d.id]), d.id, disk);
    CallsOfAttempt(backedUp, d.id, disk, job);
    var attempted, after := Attempt(backedUp, d.id, disk, job).0, Process(t, d, disk, job);
    assert after.calls == attempted.calls;
    assert SomeActionFailed(t, after) <==> SomeActionFailed(backedUp, attempted);
  }

  /*** Events ***/

  lemma {:induction false} PublishedAfterRollback(events: seq<Event>)
    ensures forall e :: e in Published(events, true) ==> e.status != LogSuccess
    ensures forall e :: e in events && e.status == LogFail ==> e in Published(events, true)
    ensures forall e :: e in events && e.status == LogSuccess && !MentionsEmail(e.actionName) ==>
              e.(status := LogRollback) in Published(events, true)
  {
    if events != [] {
      PublishedAfterRollback(events[1..]);
    }
  }

  /** Nothing is reported as a success on a document that was rolled back. */
  lemma NoSuccessReported(t: Task, d: Document, disk: Disk, job: Job)
    requires Attempted(t, d, disk, job)
    ensures
      var after := Process(t, d, disk, job);
      && t.log <= after.log
      && (SomeActionFailed(t, after) ==>
            forall k :: |t.log| <= k < |after.log| ==> after.log[k].status != LogSuccess)
  {
    var backedUp := CreateBackup(t.(visited := t.visited + [d.id]), d.id, disk);
    FailureSeen(t, d, disk, job);
    AttemptReports(backedUp, d.id, disk, job);
  }

  lemma AttemptReports(t: Task, doc: Path, disk: Disk, job: Job)
    ensures
      var after := Attempt(t, doc, disk, job).0;
      && t.log <= after.log
      && (Perform(Start(t), job.actions, doc, job).failed ==>
            forall k :: |t.log| <= k < |after.log| ==> after.log[k].status != LogSuccess)
  {
    var run := Perform(Start(t), job.actions, doc, job);
    var after := Attempt(t, doc, disk, job).0;
    LogUntouched(Start(t), job.actions, doc, job);
    UndoLogUntouched(run.task, run.performed);
    PublishedAfterRollback(run.events);
    if run.failed {
      NoNewSuccess(t.log, after.log, Published(run.events, true));
    }
  }

  lemma NoNewSuccess(before: seq<Event>, after: seq<Event>, news: seq<Event>)
    requires after == before || after == before + news
    requires forall e :: e in news ==> e.status != LogSuccess
    ensures forall k :: |before| <= k < |after| ==> after[k].status != LogSuccess
  {}

  lemma {:induction false} LogUntouched(r: Run, actions: seq<Action>, doc: Path, job: Job)
    ensures Perform(r, actions, doc, job).task.log == r.task.log
    decreases |actions|
  {
    if actions != [] && !r.failed {
      LogUntouched(PerformOne(r, actions[0], doc, job), actions[1..], doc, job);
    }
  }

  lemma {:induction false} UndoLogUntouched(t: Task, performed: seq<Action>)
    ensures RollBack(t, performed).0.log == t.log
    decreases |performed|
  {
    if performed != [] {
      var a := performed[|performed| - 1];
      var (w, undo) := a.rollback(t.world);
      if undo != ThrewOther {
        UndoLogUntouched(Move(t, w).(calls := t.calls + [RolledBack(a.id, undo)]), performed[..|performed| - 1]);
      }
    }
  }

  /*** Whole executions ***/

  predicate Succeeded(c: Call)
  {
    c.Executed? && c.reply == Outcome(SUCCESS)
  }

  predicate Settled(c: Call)
  {
    c.Executed? && c.once && c.reply.Outcome?
  }

  /** What a trace of calls, read from its start, amounts to. */
  datatype Memory = Memory(success: bool, fail: bool, fired: map<int, Verdict>)

  function Replay(calls: seq<Call>): Memory
  {
    if calls == [] then Memory(false, false, map[])
    else
      var m := Replay(calls[..|calls| - 1]);
      var c := calls[|calls| - 1];
      Memory(m.success || Succeeded(c), m.fail || FailedCall(c),
             if Settled(c) then m.fired[c.action := c.reply.verdict] else m.fired)
  }

  /** No fire-once action runs when it has already fired. */
  predicate NoRepeat(calls: seq<Call>)
  {
    calls == [] ||
    (var before, c := calls[..|calls| - 1], calls[|calls| - 1];
     NoRepeat(before) && (c.Executed? && c.once ==> c.action !in Replay(before).fired))
  }

  /** The flags and the fire-once memory are those of the trace so far. */
  predicate Honest(t: Task)
  {
    NoRepeat(t.calls) && Replay(t.calls) == Memory(t.success, t.fail, t.fireOnce)
  }

  /** What an honest trace means call by call. */
  lemma {:induction false} TraceMeaning(calls: seq<Call>)
    requires NoRepeat(calls)
    ensures Replay(calls).success <==> exists k :: 0 <= k < |calls| && Succeeded(calls[k])
    ensures Replay(calls).fail <==> exists k :: 0 <= k < |calls| && FailedCall(calls[k])
    ensures forall k :: 0 <= k < |calls| && Settled(calls[k]) ==> calls[k].action in Replay(calls).fired
    ensures forall j, k :: 0 <= j < k < |calls| && Settled(calls[j]) && calls[k].Executed? && calls[k].once ==>
              calls[k].action != calls[j].action
  {
    if calls != [] {
      var n := |calls| - 1;
      var before := calls[..n];
      TraceMeaning(before);
      assert forall k :: 0 <= k < n ==> before[k] == calls[k];
      assert Succeeded(calls[n]) ==> exists k :: 0 <= k < |calls| && Succeeded(calls[k]);
      assert FailedCall(calls[n]) ==> exists k :: 0 <= k < |calls| && FailedCall(calls[k]);
      if Replay(before).success {
        var k :| 0 <= k < n && Succeeded(before[k]);
        assert Succeeded(calls[k]);
      }
      if Replay(before).fail {
        var k :| 0 <= k < n && FailedCall(before[k]);
        assert FailedCall(calls[k]);
      }
      forall j, k | 0 <= j < k < |calls| && Settled(calls[j]) && calls[k].Executed? && calls[k].once
        ensures calls[k].action != calls[j].action
      {
        assert calls[j] == before[j];
        if k < n {
          assert calls[k] == before[k];
        }
      }
    }
  }

  lemma {:induction false} PerformHonest(r: Run, actions: seq<Action>, doc: Path, job: Job)
    requires Honest(r.task)
    ensures Honest(Perform(r, actions, doc, job).task)
    decreases |actions|
  {
    if actions != [] && !r.failed {
      PerformOneHonest(r, actions[0], doc, job);
      PerformHonest(PerformOne(r, actions[0], doc, job), actions[1..], doc, job);
    }
  }

  lemma PerformOneHonest(r: Run, a: Action, doc: Path, job: Job)
    requires Honest(r.task)
    ensures Honest(PerformOne(r, a, doc, job).task)
  {
    if !AlreadyFired(r.task, a) {
      var (w, reply) := Invoke(a, r.task.world, doc, job.query);
      var c := Executed(doc, a.id, a.fireOnce, reply);
      assert (r.task.calls + [c])[..|r.task.calls|] == r.task.calls;
    }
  }

  lemma {:induction false} RollBackHonest(t: Task, performed: seq<Action>)
    requires Honest(t)
    ensures Honest(RollBack(t, performed).0)
    decreases |performed|
  {
    if performed != [] {
      var a := performed[|performed| - 1];
      var (w, undo) := a.rollback(t.world);
      var t' := Move(t, w).(calls := t.calls + [RolledBack(a.id, undo)]);
      assert t'.calls[..|t.calls|] == t.calls;
      if undo != ThrewOther {
        RollBackHonest(t', performed[..|performed| - 1]);
      }
    }
  }

  predicate SameRecords(t: Task, t': Task)
  {
    && t'.calls == t.calls && t'.fireOnce == t.fireOnce && t'.visited == t.visited
    && t'.success == t.success && t'.fail == t.fail
  }

  lemma SettleRecord(t: Task, events: seq<Event>, doc: Path, disk: Disk)
    ensures SameRecords(t, Settle(t, events, doc, disk).0)
  {}

  lemma ConclusionHonest(run: Run, doc: Path, disk: Disk)
    requires Honest(run.task)
    ensures Honest(Conclusion(run, doc, disk).0)
    ensures Conclusion(run, doc, disk).0.visited == run.task.visited
  {
    if run.failed {
      RollBackHonest(run.task, run.performed);
      UndoVisitedUntouched(run.task, run.performed);
      var undone := RollBack(run.task, run.performed).0;
      SettleRecord(undone, run.events, doc, disk);
      SameRecord(undone, Conclusion(run, doc, disk).0);
    } else {
      SameRecord(run.task, Conclusion(run, doc, disk).0);
    }
  }

  lemma AttemptHonest(t: Task, doc: Path, disk: Disk, job: Job)
    requires Honest(t)
    ensures Honest(Attempt(t, doc, disk, job).0)
    ensures Attempt(t, doc, disk, job).0.visited == t.visited
  {
    PerformHonest(Start(t), job.actions, doc, job);
    VisitedUntouched(Start(t), job.actions, doc, job);
    ConclusionHonest(Perform(Start(t), job.actions, doc, job), doc, disk);
  }

  /** What does not change the calls, the flags or the memory stays honest. */
  lemma SameRecord(t: Task, t': Task)
    requires Honest(t)
    requires t'.calls == t.calls && t'.fireOnce == t.fireOnce && t'.success == t.success && t'.fail == t.fail
    ensures Honest(t')
  {}

  lemma ProcessHonest(t: Task, d: Document, disk: Disk, job: Job)
    requires Honest(t)
    ensures Honest(Process(t, d, disk, job))
    ensures Process(t, d, disk, job).visited == t.visited + [d.id]
  {
    var seen := t.(visited := t.visited + [d.id]);
    var ready := if EmailOnly(job.actions) then seen else CreateBackup(seen, d.id, disk);
    SameRecord(t, seen);
    SameRecord(t, ready);
    AttemptHonest(ready, d.id, disk, job);
    var attempted := Attempt(ready, d.id, disk, job).0;
    SameRecord(attempted, DeleteBackup(attempted, BackupPath(d.id), disk));
  }

  lemma {:induction false} VisitedUntouched(r: Run, actions: seq<Action>, doc: Path, job: Job)
    ensures Perform(r, actions, doc, job).task.visited == r.task.visited
    decreases |actions|
  {
    if actions != [] && !r.failed {
      VisitedUntouched(PerformOne(r, actions[0], doc, job), actions[1..], doc, job);
    }
  }

  lemma {:induction false} UndoVisitedUntouched(t: Task, performed: seq<Action>)
    ensures RollBack(t, performed).0.visited == t.visited
    decreases |performed|
  {
    if performed != [] {
      var a := performed[|performed| - 1];
      var (w, undo) := a.rollback(t.world);
      if undo != ThrewOther {
        UndoVisitedUntouched(Move(t, w).(calls := t.calls + [RolledBack(a.id, undo)]), performed[..|performed| - 1]);
      }
    }
  }

  function DocumentIds(docs: seq<Document>): seq<Path>
  {
    seq(|docs|, i requires 0 <= i < |docs| => docs[i].id)
  }

  /** Every matching document is taken once, in id order; across documents and
      pages a fire-once action that has given an outcome never runs again; and
      the flags say exactly what the trace of executed actions says. */
  lemma {:induction false} WholeRunHonest(t: Task, docs: seq<Document>, disks: Path -> Disk, job: Job)
    requires Honest(t)
    ensures Honest(ProcessAll(t, docs, disks, job))
    ensures ProcessAll(t, docs, disks, job).visited == t.visited + DocumentIds(docs)
    decreases |docs|
  {
    if docs != [] {
      var next := ProcessFirst(t, docs, disks, job);
      WholeRunHonest(next, docs[1..], disks, job);
      assert DocumentIds(docs) == [docs[0].id] + DocumentIds(docs[1..]);
    }
  }

  lemma ProcessFirst(t: Task, docs: seq<Document>, disks: Path -> Disk, job: Job) returns (next: Task)
    requires docs != [] && Honest(t)
    ensures Honest(next) && next.visited == t.visited + [docs[0].id]
    ensures ProcessAll(t, docs, disks, job) == ProcessAll(next, docs[1..], disks, job)
  {
    next := Process(t, docs[0], disks(docs[0].id), job);
    ProcessHonest(t, docs[0], disks(docs[0].id), job);
  }

  function Fresh(w: World): Task
  {
    Task(w, map[], false, false, [], [], [], [])
  }

  /** The reported outcome of an execution whose queries all return. */
  lemma OutcomeTellsTheTruth(w: World, index: seq<Document>, disks: Path -> Disk, job: Job)
    requires SortedById(index)
    ensures
      var end := Progress(Fresh(w), index, PageCount(|index|), disks, job);
      var succeeded := exists k :: 0 <= k < |end.calls| && Succeeded(end.calls[k]);
      var failed := exists k :: 0 <= k < |end.calls| && FailedCall(end.calls[k]);
      && end.visited == DocumentIds(index)
      && (Conclude(end.success, end.fail) == RuleSuccess <==> index == [] || (succeeded && !failed))
      && (Conclude(end.success, end.fail) == RulePartialFailed <==> succeeded && failed)
      && (Conclude(end.success, end.fail) == RuleFailed <==> index != [] && !succeeded)
  {
    assert index[..|index|] == index;
    WholeRunHonest(Fresh(w), index, disks, job);
    TraceMeaning(ProcessAll(Fresh(w), index, disks, job).calls);
  }
}
