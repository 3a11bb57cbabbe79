/** Extractor and ExtractDocumentTask: the methods that the workers and the main
    loop run, each proved to take steps of the re-queue protocol. */
module ExtractorTasks {
  import opened Wrappers
  import opened ReQueueProtocol

  datatype Action = ADD | UPDATE | DELETE | Other(name: string)

  /** What a received message says; a missing path or action is a null property. */
  datatype Message = Message(path: Option<string>, action: Option<Action>)

  /** The main loop moves the whole queue into the pool, in order. */
  function Drained(s: State): State
    requires s.hand == None
    decreases |s.queue|
  {
    if s.queue == [] then s else Drained(Next(Next(s, Poll), Submit))
  }

  lemma {:induction false} DrainedMeaning(s: State)
    requires s.hand == None
    ensures Drained(s) == s.(queue := [], pool := s.pool + s.queue)
    decreases |s.queue|
  {
    if s.queue != [] {
      DrainedMeaning(Next(Next(s, Poll), Submit));
      assert s.pool + [s.queue[0]] + s.queue[1..] == s.pool + s.queue;
    } else {
      assert s.pool + s.queue == s.pool;
    }
  }

  class Extractor {
    var pool: seq<Item>
    var reprocessingQueue: seq<Item>
    var polled: Option<Item>
    var finished: map<nat, End>
    ghost var accepted: nat
    ghost var runs: map<nat, nat>
    ghost var sawBackup: map<nat, bool>
    ghost var touches: map<nat, nat>

    constructor ()
      ensures Protocol() == INITIAL
    {
      pool, reprocessingQueue, polled, finished := [], [], None, map[];
      accepted, runs, sawBackup, touches := 0, map[], map[], map[];
    }

    ghost function Protocol(): State
      reads this
    {
      State(accepted, pool, reprocessingQueue, polled, finished, runs, sawBackup, touches)
    }

    /** Only a complete message is accepted, and only while the window is open and
        fewer tasks than allowed are known. */
    method CheckMessage(withinWindow: bool, taskCount: nat, maxTaskSize: nat, message: Option<Message>, id: nat)
        returns (messageReceived: bool)
      requires id == accepted
      modifies this
      ensures messageReceived <==> && withinWindow && taskCount < maxTaskSize && message.Some?
                                   && message.value.path.Some? && message.value.action.Some?
      ensures Protocol() == if messageReceived then Next(old(Protocol()), Accept) else old(Protocol())
      ensures pool == old(pool) + if messageReceived then [Item(id, 0, false)] else []
    {
      messageReceived := false;
      if withinWindow && taskCount < maxTaskSize {
        if message.Some? && message.value.path.Some? && message.value.action.Some? {
          pool := pool + [Item(id, 0, false)];
          accepted := accepted + 1;
          messageReceived := true;
        }
      }
    }

    method ReQueue(task: Item)
      modifies `reprocessingQueue
      ensures reprocessingQueue == old(reprocessingQueue) + [Item(task.id, task.attempt + 1, false)]
    {
      reprocessingQueue := reprocessingQueue + [Item(task.id, task.attempt + 1, false)];
    }

    /** The worker's look for a backup; true if it goes on to the index. */
    method CheckBackup(worker: nat, backupExists: bool) returns (goOn: bool)
      requires Enabled(Protocol(), Check(worker, backupExists))
      modifies this
      ensures Protocol() == Next(old(Protocol()), Check(worker, backupExists))
      ensures goOn <==> !backupExists
      ensures goOn ==> Enabled(Protocol(), Proceed(worker, false, true))
    {
      var task := pool[worker];
      runs := runs[task.id := Get(runs, task.id) + 1];
      sawBackup := sawBackup[task.id := backupExists];
      if backupExists {
        pool := RemoveAt(pool, worker);
        if task.attempt < MAX_EXTRACTION_ATTEMPT {
          ReQueue(task);
        } else {
          finished := finished[task.id := Skipped];
        }
        return false;
      }
      pool := pool[worker := task.(cleared := true)];
      return true;
    }

    /** One run of a task by a worker that nothing interrupts. */
    method Run(worker: nat, backupExists: bool, shuttingDown: bool, action: Action)
      requires Enabled(Protocol(), Check(worker, backupExists))
      modifies this
      ensures
        var checked := Next(old(Protocol()), Check(worker, backupExists));
        Protocol() == if backupExists then checked else Next(checked, Proceed(worker, shuttingDown, !action.Other?))
      ensures
        var task := old(pool[worker]);
        && |pool| == |old(pool)| - 1
        && (forall i :: 0 <= i < |pool| ==> pool[i] == old(pool)[if i < worker then i else i + 1])
        && reprocessingQueue == old(reprocessingQueue)
                                + (if backupExists && task.attempt < 3 then [Item(task.id, task.attempt + 1, false)] else [])
        && finished == (if backupExists && task.attempt < 3 then old(finished)
                        else old(finished)[task.id := if backupExists then Skipped
                                                      else if shuttingDown then Quit
                                                      else if action in {ADD, UPDATE, DELETE} then Extracted
                                                      else Unsupported])
        && touches == (if !backupExists && !shuttingDown && action in {ADD, UPDATE, DELETE}
                       then old(touches)[task.id := Get(old(touches), task.id) + 1] else old(touches))
    {
      var goOn := CheckBackup(worker, backupExists);
      if !goOn {
        return;
      }
      var task := pool[worker];
      pool := RemoveAt(pool, worker);
      if shuttingDown {
        finished := finished[task.id := Quit];
        return;
      }
      match action
      case Other(_) => finished := finished[task.id := Unsupported];
      case _ =>
        finished := finished[task.id := Extracted];
        touches := touches[task.id := Get(touches, task.id) + 1];
    }

    /** processReQueue, while no worker adds to the queue. */
    method ProcessReQueue()
      requires polled == None
      modifies this
      ensures Protocol() == Drained(old(Protocol()))
      ensures pool == old(pool) + old(reprocessingQueue) && reprocessingQueue == []
    {
      DrainedMeaning(Protocol());
      while reprocessingQueue != []
        invariant polled == None
        invariant Drained(Protocol()) == Drained(old(Protocol()))
        decreases |reprocessingQueue|
      {
        polled := Some(reprocessingQueue[0]);
        reprocessingQueue := reprocessingQueue[1..];
        pool := pool + [polled.value];
        polled := None;
      }
    }
  }
}
