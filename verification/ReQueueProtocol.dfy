/** The extractor's bounded re-queue: the workers of the thread pool and the main
    loop share a reprocessing queue. Every interleaving of their steps is covered. */
module ReQueueProtocol {
  import opened Wrappers

  const MAX_EXTRACTION_ATTEMPT: nat := 3

  /** A message at one of its stations; `cleared` once a worker has found no backup. */
  datatype Item = Item(id: nat, attempt: nat, cleared: bool)

  datatype End = Extracted | Unsupported | Skipped | Quit

  /** `pool` holds the tasks submitted and not yet left by their worker, `queue`
      the reprocessing queue, `hand` what the main loop has polled and not yet
      submitted. The last three fields record history: completed checks for a
      backup, the latest finding, and accesses to the index, per message. */
  datatype State = State(
    accepted: nat,
    pool: seq<Item>,
    queue: seq<Item>,
    hand: Option<Item>,
    finished: map<nat, End>,
    runs: map<nat, nat>,
    sawBackup: map<nat, bool>,
    touches: map<nat, nat>)

  datatype Step =
    | Accept
    | Check(worker: nat, backupExists: bool)
    | Proceed(worker: nat, shuttingDown: bool, supported: bool)
    | Poll
    | Submit

  function RemoveAt(s: seq<Item>, i: nat): seq<Item>
    requires i < |s|
  {
    s[..i] + s[i + 1..]
  }

  function Get(m: map<nat, nat>, id: nat): nat
  {
    if id in m then m[id] else 0
  }

  predicate Enabled(s: State, step: Step)
  {
    match step
    case Accept => true
    case Check(i, _) => i < |s.pool| && !s.pool[i].cleared
    case Proceed(i, _, _) => i < |s.pool| && s.pool[i].cleared
    case Poll => s.hand == None && s.queue != []
    case Submit => s.hand.Some?
  }

  function Next(s: State, step: Step): State
    requires Enabled(s, step)
  {
    match step
    case Accept =>
      s.(accepted := s.accepted + 1, pool := s.pool + [Item(s.accepted, 0, false)])
    case Check(i, backupExists) =>
      var t := s.pool[i];
      var s' := s.(runs := s.runs[t.id := Get(s.runs, t.id) + 1], sawBackup := s.sawBackup[t.id := backupExists]);
      if !backupExists then s'.(pool := s.pool[i := t.(cleared := true)])
      else if t.attempt < MAX_EXTRACTION_ATTEMPT then
        s'.(pool := RemoveAt(s.pool, i), queue := s.queue + [Item(t.id, t.attempt + 1, false)])
      else
        s'.(pool := RemoveAt(s.pool, i), finished := s.finished[t.id := Skipped])
    case Proceed(i, shuttingDown, supported) =>
      var t := s.pool[i];
      var s' := s.(pool := RemoveAt(s.pool, i));
      if shuttingDown then s'.(finished := s.finished[t.id := Quit])
      else if !supported then s'.(finished := s.finished[t.id := Unsupported])
      else s'.(finished := s.finished[t.id := Extracted], touches := s.touches[t.id := Get(s.touches, t.id) + 1])
    case Poll => s.(queue := s.queue[1..], hand := Some(s.queue[0]))
    case Submit => s.(hand := None, pool := s.pool + [s.hand.value])
  }

  const INITIAL: State := State(0, [], [], None, map[], map[], map[], map[])

  /*** Each message is in one place ***/

  function Ids(s: seq<Item>): (r: seq<nat>)
    ensures |r| == |s|
    ensures forall i :: 0 <= i < |s| ==> r[i] == s[i].id
  {
    seq(|s|, i requires 0 <= i < |s| => s[i].id)
  }

  function HandIds(h: Option<Item>): multiset<nat>
  {
    if h.Some? then multiset{h.value.id} else multiset{}
  }

  ghost function PlacesOf(pool: seq<Item>, queue: seq<Item>, hand: Option<Item>, finished: set<nat>): multiset<nat>
  {
    multiset(Ids(pool)) + multiset(Ids(queue)) + HandIds(hand) + multiset(finished)
  }

  ghost function Places(s: State): multiset<nat>
  {
    PlacesOf(s.pool, s.queue, s.hand, s.finished.Keys)
  }

  /** Every accepted message is in the pool, in the queue, in the main loop's
      hand or finished: in one of them, and once. */
  ghost predicate OnePlaceEach(s: State)
  {
    forall id: nat :: Places(s)[id] == if id < s.accepted then 1 else 0
  }

  predicate Waiting(s: State, t: Item)
  {
    !t.cleared && t.attempt <= MAX_EXTRACTION_ATTEMPT && Get(s.runs, t.id) == t.attempt && Get(s.touches, t.id) == 0
  }

  predicate ClearedItem(s: State, t: Item)
  {
    && t.cleared && t.attempt <= MAX_EXTRACTION_ATTEMPT && Get(s.runs, t.id) == t.attempt + 1
    && Get(s.touches, t.id) == 0 && t.id in s.sawBackup && !s.sawBackup[t.id]
  }

  predicate InPool(s: State, t: Item)
  {
    Waiting(s, t) || ClearedItem(s, t)
  }

  predicate DoneItem(s: State, id: nat)
    requires id in s.finished
  {
    && Get(s.runs, id) <= MAX_EXTRACTION_ATTEMPT + 1
    && Get(s.touches, id) == (if s.finished[id] == Extracted then 1 else 0)
    && id in s.sawBackup
    && (s.sawBackup[id] <==> s.finished[id] == Skipped)
    && (s.finished[id] == Skipped ==> Get(s.runs, id) == MAX_EXTRACTION_ATTEMPT + 1)
  }

  ghost predicate Bounded(s: State)
  {
    && (forall i :: 0 <= i < |s.pool| ==> InPool(s, s.pool[i]))
    && (forall i :: 0 <= i < |s.queue| ==> Waiting(s, s.queue[i]))
    && (s.hand.Some? ==> Waiting(s, s.hand.value))
    && (forall id :: id in s.finished ==> DoneItem(s, id))
    && (forall id: nat :: id >= s.accepted ==> Get(s.runs, id) == 0 && Get(s.touches, id) == 0)
  }

  lemma IdsAppend(a: seq<Item>, t: Item)
    ensures multiset(Ids(a + [t])) == multiset(Ids(a)) + multiset{t.id}
  {
    assert Ids(a + [t]) == Ids(a) + [t.id];
  }

  lemma IdsRemove(a: seq<Item>, i: nat)
    requires i < |a|
    ensures multiset(Ids(a)) == multiset(Ids(RemoveAt(a, i))) + multiset{a[i].id}
  {
    var ids := Ids(a);
    assert ids == ids[..i] + [ids[i]] + ids[i + 1..];
    assert Ids(RemoveAt(a, i)) == ids[..i] + ids[i + 1..];
  }

  lemma CheckClearsKeepsPlaces(s: State, i: nat) returns (s': State)
    requires Enabled(s, Check(i, false))
    ensures s' == Next(s, Check(i, false)) && Places(s') == Places(s)
  {
    s' := Next(s, Check(i, false));
    assert Ids(s.pool[i := s.pool[i].(cleared := true)]) == Ids(s.pool);
  }

  lemma MovedToQueue(pool: seq<Item>, queue: seq<Item>, hand: Option<Item>, finished: set<nat>, i: nat, q: Item)
    requires i < |pool| && q.id == pool[i].id
    ensures PlacesOf(RemoveAt(pool, i), queue + [q], hand, finished) == PlacesOf(pool, queue, hand, finished)
  {
    IdsRemove(pool, i);
    IdsAppend(queue, q);
  }

  lemma ReQueued(s: State, i: nat) returns (s': State, q: Item)
    requires Enabled(s, Check(i, true)) && s.pool[i].attempt < MAX_EXTRACTION_ATTEMPT
    ensures s' == Next(s, Check(i, true)) && q == Item(s.pool[i].id, s.pool[i].attempt + 1, false)
    ensures s'.pool == RemoveAt(s.pool, i) && s'.queue == s.queue + [q]
    ensures s'.hand == s.hand && s'.finished == s.finished && s'.accepted == s.accepted
  {
    s' := Next(s, Check(i, true));
    q := Item(s.pool[i].id, s.pool[i].attempt + 1, false);
  }

  lemma CheckReQueuesKeepsPlaces(s: State, i: nat) returns (s': State)
    requires Enabled(s, Check(i, true)) && s.pool[i].attempt < MAX_EXTRACTION_ATTEMPT
    ensures s' == Next(s, Check(i, true)) && Places(s') == Places(s)
  {
    var q;
    s', q := ReQueued(s, i);
    MovedToQueue(s.pool, s.queue, s.hand, s.finished.Keys, i, q);
  }

  lemma MovedToFinished(pool: seq<Item>, queue: seq<Item>, hand: Option<Item>, finished: set<nat>, i: nat)
    requires i < |pool| && pool[i].id !in finished
    ensures PlacesOf(RemoveAt(pool, i), queue, hand, finished + {pool[i].id}) == PlacesOf(pool, queue, hand, finished)
  {
    IdsRemove(pool, i);
  }

  lemma CheckSkipsKeepsPlaces(s: State, i: nat) returns (s': State)
    requires Enabled(s, Check(i, true)) && s.pool[i].attempt >= MAX_EXTRACTION_ATTEMPT
    requires s.pool[i].id !in s.finished
    ensures s' == Next(s, Check(i, true)) && Places(s') == Places(s)
  {
    s' := Next(s, Check(i, true));
    MovedToFinished(s.pool, s.queue, s.hand, s.finished.Keys, i);
    FinishedKeys(s.finished, s.pool[i].id, Skipped);
  }

  lemma ProceedKeepsPlaces(s: State, step: Step) returns (s': State)
    requires step.Proceed? && Enabled(s, step) && s.pool[step.worker].id !in s.finished
    ensures s' == Next(s, step) && Places(s') == Places(s)
  {
    s' := Next(s, step);
    var id := s.pool[step.worker].id;
    MovedToFinished(s.pool, s.queue, s.hand, s.finished.Keys, step.worker);
    FinishedKeys(s.finished, id, s'.finished[id]);
  }

  lemma FinishedKeys(finished: map<nat, End>, id: nat, end: End)
    ensures finished[id := end].Keys == finished.Keys + {id}
  {}

  lemma PollKeepsPlaces(s: State) returns (s': State)
    requires Enabled(s, Poll)
    ensures s' == Next(s, Poll) && Places(s') == Places(s)
  {
    s' := Next(s, Poll);
    IdsRemove(s.queue, 0);
    assert RemoveAt(s.queue, 0) == s.queue[1..];
  }

  lemma SubmitKeepsPlaces(s: State) returns (s': State)
    requires Enabled(s, Submit)
    ensures s' == Next(s, Submit) && Places(s') == Places(s)
  {
    s' := Next(s, Submit);
    IdsAppend(s.pool, s.hand.value);
  }

  lemma AcceptAddsPlace(s: State) returns (s': State)
    ensures s' == Next(s, Accept) && s'.accepted == s.accepted + 1
    ensures Places(s') == Places(s) + multiset{s.accepted}
  {
    s' := Next(s, Accept);
    IdsAppend(s.pool, Item(s.accepted, 0, false));
  }

  /** No step loses, duplicates or invents a message. */
  lemma StepKeepsPlaces(s: State, step: Step)
    requires Enabled(s, step) && OnePlaceEach(s)
    ensures OnePlaceEach(Next(s, step))
  {
    if step == Accept {
      var s' := AcceptAddsPlace(s);
      OneMorePlace(Places(s), s.accepted);
    } else {
      var s' := PlacesKept(s, step);
    }
  }

  lemma OneMorePlace(places: multiset<nat>, n: nat)
    requires forall id: nat :: places[id] == if id < n then 1 else 0
    ensures forall id: nat :: (places + multiset{n})[id] == if id < n + 1 then 1 else 0
  {}

  lemma PlacesKept(s: State, step: Step) returns (s': State)
    requires Enabled(s, step) && OnePlaceEach(s) && step != Accept
    ensures s' == Next(s, step) && s'.accepted == s.accepted && Places(s') == Places(s)
  {
    match step
    case Check(i, backupExists) =>
      NotFinished(s, i);
      if !backupExists {
        s' := CheckClearsKeepsPlaces(s, i);
      } else if s.pool[i].attempt < MAX_EXTRACTION_ATTEMPT {
        s' := CheckReQueuesKeepsPlaces(s, i);
      } else {
        s' := CheckSkipsKeepsPlaces(s, i);
      }
    case Proceed(i, _, _) =>
      NotFinished(s, i);
      s' := ProceedKeepsPlaces(s, step);
    case Poll =>
      s' := PollKeepsPlaces(s);
    case Submit =>
      s' := SubmitKeepsPlaces(s);
  }

  lemma NotFinished(s: State, i: nat)
    requires OnePlaceEach(s) && i < |s.pool|
    ensures s.pool[i].id !in s.finished && s.pool[i].id < s.accepted
  {
    IdsRemove(s.pool, i);
    assert Places(s)[s.pool[i].id] >= 1;
  }

  /** Two different stations never hold the same message. */
  lemma Apart(s: State, i: nat)
    requires OnePlaceEach(s) && i < |s.pool|
    ensures forall j :: 0 <= j < |s.pool| && j != i ==> s.pool[j].id != s.pool[i].id
    ensures forall j :: 0 <= j < |s.queue| ==> s.queue[j].id != s.pool[i].id
    ensures s.hand.Some? ==> s.hand.value.id != s.pool[i].id
  {
    var id := s.pool[i].id;
    var rest := RemoveAt(s.pool, i);
    IdsRemove(s.pool, i);
    assert Places(s)[id] == 1;
    forall j | 0 <= j < |s.pool| && j != i
      ensures s.pool[j].id != id
    {
      assert Ids(rest)[if j < i then j else j - 1] == s.pool[j].id;
    }
    forall j | 0 <= j < |s.queue|
      ensures s.queue[j].id != id
    {
      assert Ids(s.queue)[j] == s.queue[j].id;
    }
  }

  /** The attempt and run bounds, and what the index access depends on, are kept
      by every step. */
  lemma StepKeepsBounds(s: State, step: Step)
    requires Enabled(s, step) && OnePlaceEach(s) && Bounded(s)
    ensures Bounded(Next(s, step))
  {
    if step.Check? || step.Proceed? {
      Apart(s, step.worker);
      NotFinished(s, step.worker);
      var s' := WorkerKeepsPool(s, step);
      var _ := WorkerKeepsQueue(s, step);
      var _ := WorkerKeepsFinished(s, step);
    } else if step.Accept? {
      FreshId(s);
    }
  }

  lemma FreshId(s: State)
    requires OnePlaceEach(s)
    ensures s.accepted !in s.finished
    ensures forall j :: 0 <= j < |s.pool| ==> s.pool[j].id != s.accepted
  {
    assert Places(s)[s.accepted] == 0;
    forall j | 0 <= j < |s.pool|
      ensures s.pool[j].id != s.accepted
    {
      assert Ids(s.pool)[j] == s.pool[j].id;
    }
  }

  /** The message of pool item `i` is nowhere else. */
  ghost predicate Alone(s: State, i: nat)
    requires i < |s.pool|
  {
    var id := s.pool[i].id;
    && (forall j :: 0 <= j < |s.pool| && j != i ==> s.pool[j].id != id)
    && (forall j :: 0 <= j < |s.queue| ==> s.queue[j].id != id)
    && (s.hand.Some? ==> s.hand.value.id != id)
    && id !in s.finished && id < s.accepted
  }

  predicate WorkerStep(s: State, step: Step)
  {
    (step.Check? || step.Proceed?) && Enabled(s, step)
  }

  /** A worker records nothing about any message but its own. */
  lemma OthersUnrecorded(s: State, step: Step, other: nat)
    requires WorkerStep(s, step) && other != s.pool[step.worker].id
    ensures
      var s' := Next(s, step);
      && Get(s'.runs, other) == Get(s.runs, other)
      && Get(s'.touches, other) == Get(s.touches, other)
      && (other in s.sawBackup <==> other in s'.sawBackup)
      && (other in s.sawBackup ==> s.sawBackup[other] == s'.sawBackup[other])
      && (other in s.finished <==> other in s'.finished)
      && (other in s.finished ==> s.finished[other] == s'.finished[other])
  {}

  lemma OtherItemKept(s: State, step: Step, t: Item) returns (s': State)
    requires WorkerStep(s, step) && t.id != s.pool[step.worker].id
    ensures s' == Next(s, step)
    ensures Waiting(s, t) ==> Waiting(s', t)
    ensures InPool(s, t) ==> InPool(s', t)
  {
    s' := Next(s, step);
    OthersUnrecorded(s, step, t.id);
  }

  /** What a worker's own message looks like afterwards. */
  lemma OwnItem(s: State, step: Step)
    requires WorkerStep(s, step) && Bounded(s) && s.pool[step.worker].id !in s.finished
    ensures
      var s' := Next(s, step);
      var t := s.pool[step.worker];
      && (|s'.pool| == |s.pool| ==> s'.pool == s.pool[step.worker := t.(cleared := true)] && InPool(s', t.(cleared := true)))
      && (|s'.pool| != |s.pool| ==> s'.pool == RemoveAt(s.pool, step.worker))
      && (s'.queue == s.queue || (|s'.queue| == |s.queue| + 1 && s.queue <= s'.queue && Waiting(s', s'.queue[|s.queue|])))
      && (t.id in s'.finished ==> DoneItem(s', t.id))
      && s'.hand == s.hand && s'.accepted == s.accepted
  {
    assert InPool(s, s.pool[step.worker]);
  }

  lemma WorkerKeepsPool(s: State, step: Step) returns (s': State)
    requires WorkerStep(s, step) && Bounded(s) && Alone(s, step.worker)
    ensures s' == Next(s, step)
    ensures forall j :: 0 <= j < |s'.pool| ==> InPool(s', s'.pool[j])
  {
    s' := Next(s, step);
    OwnItem(s, step);
    var i := step.worker;
    forall j | 0 <= j < |s'.pool|
      ensures InPool(s', s'.pool[j])
    {
      var k := if j < i || |s'.pool| == |s.pool| then j else j + 1;
      assert k != i ==> s'.pool[j] == s.pool[k] && InPool(s, s.pool[k]);
      if k != i {
        var _ := OtherItemKept(s, step, s.pool[k]);
      }
    }
  }

  lemma WorkerKeepsQueue(s: State, step: Step) returns (s': State)
    requires WorkerStep(s, step) && Bounded(s) && Alone(s, step.worker)
    ensures s' == Next(s, step)
    ensures forall j :: 0 <= j < |s'.queue| ==> Waiting(s', s'.queue[j])
    ensures s'.hand.Some? ==> Waiting(s', s'.hand.value)
  {
    s' := Next(s, step);
    OwnItem(s, step);
    forall j | 0 <= j < |s'.queue|
      ensures Waiting(s', s'.queue[j])
    {
      if j < |s.queue| {
        assert s'.queue[j] == s.queue[j] && Waiting(s, s.queue[j]);
        var _ := OtherItemKept(s, step, s.queue[j]);
      }
    }
    if s.hand.Some? {
      var _ := OtherItemKept(s, step, s.hand.value);
    }
  }

  lemma WorkerKeepsFinished(s: State, step: Step) returns (s': State)
    requires WorkerStep(s, step) && Bounded(s) && Alone(s, step.worker)
    ensures s' == Next(s, step)
    ensures forall id :: id in s'.finished ==> DoneItem(s', id)
    ensures forall id: nat :: id >= s'.accepted ==> Get(s'.runs, id) == 0 && Get(s'.touches, id) == 0
  {
    s' := Next(s, step);
    OwnItem(s, step);
    var own := s.pool[step.worker].id;
    forall id | id in s'.finished
      ensures DoneItem(s', id)
    {
      if id != own {
        OthersUnrecorded(s, step, id);
        assert DoneItem(s, id);
      }
    }
    forall id: nat | id >= s'.accepted
      ensures Get(s'.runs, id) == 0 && Get(s'.touches, id) == 0
    {
      OthersUnrecorded(s, step, id);
    }
  }

  /** Any sequence of enabled steps. */
  ghost predicate IsRun(states: seq<State>, steps: seq<Step>)
  {
    && |states| == |steps| + 1
    && states[0] == INITIAL
    && forall k :: 0 <= k < |steps| ==> Enabled(states[k], steps[k]) && states[k + 1] == Next(states[k], steps[k])
  }

  /** Over every interleaving: each accepted message is in exactly one place, its
      attempt count never exceeds 3, it is checked at most 4 times, and it is
      indexed at most once, only if its latest check found no backup. */
  lemma {:induction false} ProtocolHolds(states: seq<State>, steps: seq<Step>, k: nat)
    requires IsRun(states, steps) && k < |states|
    ensures OnePlaceEach(states[k]) && Bounded(states[k])
  {
    if k > 0 {
      ProtocolHolds(states, steps, k - 1);
      StepKeepsPlaces(states[k - 1], steps[k - 1]);
      StepKeepsBounds(states[k - 1], steps[k - 1]);
    }
  }

  /** A check that sees a backup leaves the index alone and takes the message out
      of the worker's hands. */
  lemma BackupSeenIndexUntouched(s: State, i: nat)
    requires Enabled(s, Check(i, true)) && OnePlaceEach(s)
    ensures
      var s' := Next(s, Check(i, true));
      && s'.touches == s.touches
      && (forall j :: 0 <= j < |s'.pool| ==> s'.pool[j].id != s.pool[i].id)
      && (s.pool[i].attempt < MAX_EXTRACTION_ATTEMPT ==>
            s'.queue == s.queue + [Item(s.pool[i].id, s.pool[i].attempt + 1, false)])
      && (s.pool[i].attempt >= MAX_EXTRACTION_ATTEMPT ==> s.pool[i].id in s'.finished && s'.queue == s.queue)
  {
    Apart(s, i);
    var s' := Next(s, Check(i, true));
    forall j | 0 <= j < |s'.pool|
      ensures s'.pool[j].id != s.pool[i].id
    {
      assert s'.pool[j] == s.pool[if j < i then j else j + 1];
    }
  }

  /*** Nothing goes round for ever ***/

  /** Steps a message may still take. */
  function PoolRank(t: Item): nat
  {
    if t.cleared || t.attempt > MAX_EXTRACTION_ATTEMPT then 1 else 3 * (MAX_EXTRACTION_ATTEMPT - t.attempt) + 2
  }

  function PoolSum(s: seq<Item>): nat
  {
    if s == [] then 0 else PoolRank(s[0]) + PoolSum(s[1..])
  }

  function QueueSum(s: seq<Item>): nat
  {
    if s == [] then 0 else PoolRank(s[0]) + 2 + QueueSum(s[1..])
  }

  function Rank(s: State): nat
  {
    PoolSum(s.pool) + QueueSum(s.queue) + (if s.hand.Some? then PoolRank(s.hand.value) + 1 else 0)
  }

  lemma {:induction false} PoolSumConcat(a: seq<Item>, b: seq<Item>)
    ensures PoolSum(a + b) == PoolSum(a) + PoolSum(b)
  {
    if a == [] {
      assert a + b == b;
    } else {
      assert (a + b)[1..] == a[1..] + b;
      PoolSumConcat(a[1..], b);
    }
  }

  lemma {:induction false} QueueSumConcat(a: seq<Item>, b: seq<Item>)
    ensures QueueSum(a + b) == QueueSum(a) + QueueSum(b)
  {
    if a == [] {
      assert a + b == b;
    } else {
      assert (a + b)[1..] == a[1..] + b;
      QueueSumConcat(a[1..], b);
    }
  }

  lemma PoolSumSplit(s: seq<Item>, i: nat, t: Item)
    requires i < |s|
    ensures PoolSum(s) == PoolSum(RemoveAt(s, i)) + PoolRank(s[i])
    ensures PoolSum(s[i := t]) == PoolSum(RemoveAt(s, i)) + PoolRank(t)
  {
    PoolSumConcat(s[..i], s[i + 1..]);
    assert s[i := t] == s[..i] + ([t] + s[i + 1..]);
    PoolSumConcat(s[..i], [t] + s[i + 1..]);
    assert s == s[..i] + ([s[i]] + s[i + 1..]);
    PoolSumConcat(s[..i], [s[i]] + s[i + 1..]);
  }

  lemma ReQueueUsesRank(s: State, i: nat) returns (s': State)
    requires Enabled(s, Check(i, true)) && s.pool[i].attempt < MAX_EXTRACTION_ATTEMPT
    ensures s' == Next(s, Check(i, true)) && Rank(s') < Rank(s)
  {
    var q;
    s', q := ReQueued(s, i);
    PoolSumSplit(s.pool, i, s.pool[i]);
    QueueSumConcat(s.queue, [q]);
    assert QueueSum([q]) == PoolRank(q) + 2;
    assert PoolRank(q) + 3 == PoolRank(s.pool[i]);
  }

  lemma OtherCheckUsesRank(s: State, i: nat, backupExists: bool) returns (s': State)
    requires Enabled(s, Check(i, backupExists)) && (backupExists ==> s.pool[i].attempt >= MAX_EXTRACTION_ATTEMPT)
    requires Bounded(s)
    ensures s' == Next(s, Check(i, backupExists)) && Rank(s') < Rank(s)
  {
    s' := Next(s, Check(i, backupExists));
    assert InPool(s, s.pool[i]);
    PoolSumSplit(s.pool, i, s.pool[i].(cleared := true));
  }

  lemma ProceedUsesRank(s: State, step: Step) returns (s': State)
    requires step.Proceed? && Enabled(s, step)
    ensures s' == Next(s, step) && Rank(s') < Rank(s)
  {
    s' := Next(s, step);
    PoolSumSplit(s.pool, step.worker, s.pool[step.worker]);
  }

  /** Every step that is not the arrival of a new message uses up rank. */
  lemma StepUsesRank(s: State, step: Step)
    requires Enabled(s, step) && step != Accept && Bounded(s)
    ensures Rank(Next(s, step)) < Rank(s)
  {
    match step
    case Check(i, backupExists) =>
      if backupExists && s.pool[i].attempt < MAX_EXTRACTION_ATTEMPT {
        var s' := ReQueueUsesRank(s, i);
      } else {
        var s' := OtherCheckUsesRank(s, i, backupExists);
      }
    case Proceed(_, _, _) =>
      var s' := ProceedUsesRank(s, step);
    case Poll =>
    case Submit =>
      PoolSumConcat(s.pool, [s.hand.value]);
  }

  lemma RunStep(states: seq<State>, steps: seq<Step>, k: nat)
    requires IsRun(states, steps) && k < |steps| && steps[k] != Accept
    ensures Rank(states[k + 1]) < Rank(states[k])
  {
    ProtocolHolds(states, steps, k);
    StepUsesRank(states[k], steps[k]);
  }

  /** Once messages stop arriving, at most `Rank` more steps are taken. */
  lemma {:induction false} ReQueueingEnds(states: seq<State>, steps: seq<Step>, from: nat, k: nat)
    requires IsRun(states, steps) && from <= k < |states|
    requires forall j :: from <= j < k ==> steps[j] != Accept
    ensures k - from <= Rank(states[from]) - Rank(states[k])
    decreases k
  {
    if k > from {
      ReQueueingEnds(states, steps, from, k - 1);
      RunStep(states, steps, k - 1);
    }
  }

  /** When only an arrival could still happen, every accepted message is finished. */
  lemma QuietMeansFinished(states: seq<State>, steps: seq<Step>, k: nat)
    requires IsRun(states, steps) && k < |states|
    requires forall step :: Enabled(states[k], step) ==> step == Accept
    ensures forall id: nat :: id < states[k].accepted <==> id in states[k].finished
  {
    ProtocolHolds(states, steps, k);
    Stuck(states[k]);
  }

  lemma Stuck(s: State)
    requires OnePlaceEach(s)
    requires forall step :: Enabled(s, step) ==> step == Accept
    ensures forall id: nat :: id < s.accepted <==> id in s.finished
  {
    assert !Enabled(s, Submit) && !Enabled(s, Poll);
    assert !Enabled(s, Check(0, true)) && !Enabled(s, Proceed(0, true, true));
    assert Places(s) == multiset(s.finished.Keys);
    forall id: nat
      ensures id < s.accepted <==> id in s.finished
    {
      assert Places(s)[id] == if id < s.accepted then 1 else 0;
    }
  }
}
