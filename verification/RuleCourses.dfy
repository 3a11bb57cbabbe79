/** What one rule execution does to one document, told from the rule's actions by their
    indices, the fire-once memory and the disk. */
module RuleCourses {
  import opened Wrappers
  import opened FileNames
  import opened RuleModel
  import opened RuleProperties

  /** `ran` are the executions on the document, `at[k]` the index of the action that is
      executed `k`-th, `worlds` the world before the first execution and after each,
      `said` the indices of the actions that are reported. */
  datatype Course = Course(ran: seq<Call>, at: seq<nat>, worlds: seq<World>, said: seq<nat>)

  predicate Increasing(s: seq<nat>)
  {
    forall j, k :: 0 <= j < k < |s| ==> s[j] < s[k]
  }

  predicate AllExecuted(ran: seq<Call>)
  {
    forall k :: 0 <= k < |ran| ==> ran[k].Executed?
  }

  /** Execution `k` has given the fire-once action `id` the verdict `v`. */
  predicate Gives(ran: seq<Call>, k: nat, id: int, v: Verdict)
  {
    k < |ran| && ran[k].Executed? && ran[k].once && ran[k].action == id && ran[k].reply == Outcome(v)
  }

  predicate Recorded(memory: map<int, Verdict>, id: int, v: Verdict)
  {
    id in memory && memory[id] == v
  }

  /** The action has its verdict from an earlier document, or from this one before
      action `m` is due. */
  ghost predicate Known(memory: map<int, Verdict>, c: Course, m: nat, id: int, v: Verdict)
  {
    Recorded(memory, id, v) || exists k: nat :: k < |c.at| && c.at[k] < m && Gives(c.ran, k, id, v)
  }

  ghost predicate FiredAlready(memory: map<int, Verdict>, job: Job, c: Course, m: nat)
    requires m < |job.actions|
  {
    job.actions[m].fireOnce && exists v :: Known(memory, c, m, job.actions[m].id, v)
  }

  /** Of the first `stop` actions exactly those are executed that have not fired already. */
  ghost predicate Picks(memory: map<int, Verdict>, job: Job, c: Course, stop: nat)
  {
    && |c.at| == |c.ran| && stop <= |job.actions| && Increasing(c.at)
    && (forall k :: 0 <= k < |c.at| ==> c.at[k] < stop)
    && (forall m: nat :: m < stop ==> (m in c.at <==> !FiredAlready(memory, job, c, m)))
  }

  /** What the action does in a world, and what it answers. */
  predicate Executes(a: Action, doc: Path, query: string, before: World, after: World, reply: Reply)
  {
    match a.kind
    case OncePerFile => (after, reply) == a.execute(before, doc)
    case OncePerRule => (after, reply) == a.execute(before, query)
    case NeitherKind => after == before && reply == NullOutcome
  }

  predicate RunsOne(doc: Path, job: Job, c: Course, k: nat)
    requires k < |c.ran| && k < |c.at| && k + 1 < |c.worlds|
  {
    && c.at[k] < |job.actions|
    && c.ran[k].Executed?
    && var a := job.actions[c.at[k]];
    && c.ran[k] == Executed(doc, a.id, a.fireOnce, c.ran[k].reply)
    && Executes(a, doc, job.query, c.worlds[k], c.worlds[k + 1], c.ran[k].reply)
  }

  predicate Runs(doc: Path, job: Job, c: Course)
  {
    && |c.at| == |c.ran| && |c.worlds| == |c.ran| + 1 && AllExecuted(c.ran)
    && forall k: nat :: k < |c.ran| ==> RunsOne(doc, job, c, k)
  }

  /** Without a failure every action has had its turn; with one, the failed execution is
      the last, and no action after it has its turn. */
  predicate Fails(job: Job, c: Course, stop: nat, failed: bool)
    requires |c.at| == |c.ran| && AllExecuted(c.ran)
  {
    if failed then
      && c.ran != [] && c.at[|c.ran| - 1] + 1 == stop && c.ran[|c.ran| - 1].reply != Outcome(SUCCESS)
      && !EmailOnly(job.actions)
      && (forall k :: 0 <= k < |c.ran| - 1 ==> c.ran[k].reply == Outcome(SUCCESS))
    else
      EmailOnly(job.actions) || forall k :: 0 <= k < |c.ran| ==> c.ran[k].reply == Outcome(SUCCESS)
  }

  /** Action `m` has succeeded, on this document or when it fired. */
  ghost predicate Succeeds(memory: map<int, Verdict>, job: Job, c: Course, m: nat)
    requires m < |job.actions| && |c.at| == |c.ran| && AllExecuted(c.ran)
  {
    if m in c.at then exists k :: 0 <= k < |c.at| && c.at[k] == m && c.ran[k].reply == Outcome(SUCCESS)
    else Known(memory, c, m, job.actions[m].id, SUCCESS)
  }

  /** The logging asked for reports action `m`. */
  predicate Asked(job: Job, m: nat, succeeds: bool, rolledBack: bool)
    requires m < |job.actions|
  {
    if succeeds then job.logging.ofSuccess && !(rolledBack && MentionsEmail(job.actions[m].displayName))
    else job.logging.ofFailure
  }

  function StatusFor(succeeds: bool, rolledBack: bool): Status
  {
    if !succeeds then LogFail else if rolledBack then LogRollback else LogSuccess
  }

  /** One event for each action that had its turn and is to be reported, in order. */
  ghost predicate Reports(memory: map<int, Verdict>, doc: Path, job: Job, c: Course, stop: nat, rolledBack: bool, news: seq<Event>)
    requires |c.at| == |c.ran| && stop <= |job.actions| && AllExecuted(c.ran)
  {
    && |news| == |c.said| && Increasing(c.said) && (forall k :: 0 <= k < |c.said| ==> c.said[k] < stop)
    && (forall m: nat :: m < stop ==> (m in c.said <==> Asked(job, m, Succeeds(memory, job, c, m), rolledBack)))
    && (forall k :: 0 <= k < |news| ==>
          var a := job.actions[c.said[k]];
          news[k] == Event(doc, a.id, a.displayName, StatusFor(Succeeds(memory, job, c, c.said[k]), rolledBack)))
  }

  /*** One action more ***/

  ghost predicate Gave(ran: seq<Call>, id: int, v: Verdict)
  {
    exists k: nat :: Gives(ran, k, id, v)
  }

  lemma GaveNext(ran: seq<Call>, call: Call, id: int, v: Verdict)
    ensures Gave(ran + [call], id, v) <==> Gave(ran, id, v) || Gives([call], 0, id, v)
  {
    var ran' := ran + [call];
    if k: nat :| Gives(ran, k, id, v) {
      assert Gives(ran', k, id, v);
    }
    if k: nat :| Gives(ran', k, id, v) {
      assert k < |ran| ==> Gives(ran, k, id, v);
    }
    assert Gives([call], 0, id, v) ==> Gives(ran', |ran|, id, v);
  }

  /** The memory now is the memory before and what the executions have given. */
  ghost predicate Remembers(memory: map<int, Verdict>, now: map<int, Verdict>, ran: seq<Call>)
  {
    forall id, v :: Recorded(now, id, v) <==> Recorded(memory, id, v) || Gave(ran, id, v)
  }

  /** After the first `i` actions the run is at `r`. */
  ghost predicate Along(t: Task, r: Run, doc: Path, job: Job, i: nat, c: Course)
  {
    && t.calls + c.ran == r.task.calls
    && c.worlds != [] && c.worlds[0] == t.world && c.worlds[|c.worlds| - 1] == r.task.world
    && t.past + c.worlds[1..] == r.task.past
    && Picks(t.fireOnce, job, c, i) && Runs(doc, job, c) && Fails(job, c, i, r.failed)
    && Remembers(t.fireOnce, r.task.fireOnce, c.ran)
  }

  lemma KnownNow(t: Task, r: Run, doc: Path, job: Job, i: nat, c: Course, id: int, v: Verdict)
    requires Along(t, r, doc, job, i, c)
    ensures Known(t.fireOnce, c, i, id, v) <==> Recorded(r.task.fireOnce, id, v)
  {
    assert Recorded(r.task.fireOnce, id, v) <==> Recorded(t.fireOnce, id, v) || Gave(c.ran, id, v);
    if k: nat :| Gives(c.ran, k, id, v) {
      assert c.at[k] < i;
    }
  }

  /** What comes later does not count for earlier actions. */
  lemma KnownLater(memory: map<int, Verdict>, c: Course, c': Course, i: nat, m: nat, id: int, v: Verdict)
    requires |c.at| == |c.ran| && m <= i
    requires (c'.at == c.at && c'.ran == c.ran)
          || (|c'.at| == |c.at| + 1 == |c'.ran| && c'.at[..|c.at|] == c.at && c'.ran[..|c.ran|] == c.ran && c'.at[|c.at|] == i)
    ensures Known(memory, c', m, id, v) <==> Known(memory, c, m, id, v)
  {
    if k: nat :| k < |c.at| && c.at[k] < m && Gives(c.ran, k, id, v) {
      assert c'.at[k] == c.at[k] && c'.ran[k] == c.ran[k];
      assert Gives(c'.ran, k, id, v);
    }
    if k: nat :| k < |c'.at| && c'.at[k] < m && Gives(c'.ran, k, id, v) {
      assert k < |c.at|;
      assert c'.at[k] == c.at[k] && c'.ran[k] == c.ran[k];
      assert Gives(c.ran, k, id, v);
    }
  }

  function Extended(c: Course, i: nat, call: Call, w: World): Course
  {
    c.(ran := c.ran + [call], at := c.at + [i], worlds := c.worlds + [w])
  }

  lemma PicksSkip(memory: map<int, Verdict>, job: Job, c: Course, i: nat)
    requires Picks(memory, job, c, i) && i < |job.actions| && FiredAlready(memory, job, c, i)
    ensures Picks(memory, job, c, i + 1)
  {}

  lemma PicksNext(memory: map<int, Verdict>, job: Job, c: Course, i: nat, call: Call, w: World)
    requires Picks(memory, job, c, i) && i < |job.actions| && !FiredAlready(memory, job, c, i)
    ensures Picks(memory, job, Extended(c, i, call, w), i + 1)
  {
    var c' := Extended(c, i, call, w);
    forall m: nat | m < i + 1
      ensures m in c'.at <==> !FiredAlready(memory, job, c', m)
    {
      forall v {
        KnownLater(memory, c, c', i, m, job.actions[m].id, v);
      }
      assert FiredAlready(memory, job, c', m) <==> FiredAlready(memory, job, c, m);
      assert m < i ==> (m in c.at <==> m in c'.at);
      assert c'.at[|c.at|] == i;
    }
  }

  lemma RunsNext(doc: Path, job: Job, c: Course, i: nat, w: World, reply: Reply)
    requires Runs(doc, job, c) && i < |job.actions|
    requires (w, reply) == Invoke(job.actions[i], c.worlds[|c.worlds| - 1], doc, job.query)
    ensures Runs(doc, job, Extended(c, i, Executed(doc, job.actions[i].id, job.actions[i].fireOnce, reply), w))
  {
    var c' := Extended(c, i, Executed(doc, job.actions[i].id, job.actions[i].fireOnce, reply), w);
    forall k: nat | k < |c'.ran|
      ensures RunsOne(doc, job, c', k)
    {
      assert c'.worlds[k] == c.worlds[k];
      assert k < |c.ran| ==> c'.worlds[k + 1] == c.worlds[k + 1] && RunsOne(doc, job, c, k);
    }
  }

  lemma RemembersNext(memory: map<int, Verdict>, now: map<int, Verdict>, ran: seq<Call>, doc: Path, a: Action, reply: Reply)
    requires Remembers(memory, now, ran) && !(a.fireOnce && a.id in now)
    ensures Remembers(memory, if a.fireOnce && reply.Outcome? then now[a.id := reply.verdict] else now,
                      ran + [Executed(doc, a.id, a.fireOnce, reply)])
  {
    var ran' := ran + [Executed(doc, a.id, a.fireOnce, reply)];
    var now' := if a.fireOnce && reply.Outcome? then now[a.id := reply.verdict] else now;
    forall id, v
      ensures Recorded(now', id, v) <==> Recorded(memory, id, v) || Gave(ran', id, v)
    {
      GaveNext(ran, Executed(doc, a.id, a.fireOnce, reply), id, v);
      assert Recorded(now, id, v) <==> Recorded(memory, id, v) || Gave(ran, id, v);
    }
  }

  /** The state after the turn of an action that has not fired already. */
  lemma OneExecuted(r: Run, a: Action, doc: Path, job: Job) returns (next: Run, call: Call)
    requires !AlreadyFired(r.task, a)
    ensures next == PerformOne(r, a, doc, job)
    ensures
      var (w, reply) := Invoke(a, r.task.world, doc, job.query);
      && call == Executed(doc, a.id, a.fireOnce, reply)
      && next.task.world == w && next.task.calls == r.task.calls + [call] && next.task.past == r.task.past + [w]
      && next.task.fireOnce == (if a.fireOnce && reply.Outcome? then r.task.fireOnce[a.id := reply.verdict] else r.task.fireOnce)
      && next.failed == (reply != Outcome(SUCCESS) && !EmailOnly(job.actions))
      && next.events == r.events + ActionEvent(job.logging, doc, a, VerdictOf(reply))
  {
    next := PerformOne(r, a, doc, job);
    var (w, reply) := Invoke(a, r.task.world, doc, job.query);
    call := Executed(doc, a.id, a.fireOnce, reply);
  }

  lemma FailsNext(job: Job, c: Course, i: nat, call: Call, w: World, failed: bool)
    requires |c.at| == |c.ran| && AllExecuted(c.ran) && call.Executed? && Fails(job, c, i, false)
    requires failed == (call.reply != Outcome(SUCCESS) && !EmailOnly(job.actions))
    ensures AllExecuted(Extended(c, i, call, w).ran) && Fails(job, Extended(c, i, call, w), i + 1, failed)
  {}

  lemma FiredNow(t: Task, r: Run, doc: Path, job: Job, i: nat, c: Course)
    requires Along(t, r, doc, job, i, c) && i < |job.actions|
    ensures FiredAlready(t.fireOnce, job, c, i) <==> AlreadyFired(r.task, job.actions[i])
  {
    var a := job.actions[i];
    forall v
      ensures Known(t.fireOnce, c, i, a.id, v) <==> Recorded(r.task.fireOnce, a.id, v)
    {
      KnownNow(t, r, doc, job, i, c, a.id, v);
    }
    if AlreadyFired(r.task, a) {
      assert Recorded(r.task.fireOnce, a.id, r.task.fireOnce[a.id]);
    }
  }

  lemma AlongSkipped(t: Task, r: Run, doc: Path, job: Job, i: nat, c: Course) returns (next: Run)
    requires Along(t, r, doc, job, i, c) && !r.failed && i < |job.actions| && AlreadyFired(r.task, job.actions[i])
    ensures next == PerformOne(r, job.actions[i], doc, job) && Along(t, next, doc, job, i + 1, c)
    ensures next.events == r.events + ActionEvent(job.logging, doc, job.actions[i], r.task.fireOnce[job.actions[i].id])
    ensures i !in c.at
  {
    next := PerformOne(r, job.actions[i], doc, job);
    FiredNow(t, r, doc, job, i, c);
    PicksSkip(t.fireOnce, job, c, i);
  }

  lemma AlongExecuted(t: Task, r: Run, doc: Path, job: Job, i: nat, c: Course) returns (next: Run, c': Course, call: Call)
    requires Along(t, r, doc, job, i, c) && !r.failed && i < |job.actions| && !AlreadyFired(r.task, job.actions[i])
    ensures next == PerformOne(r, job.actions[i], doc, job) && Along(t, next, doc, job, i + 1, c')
    ensures call.Executed? && next.events == r.events + ActionEvent(job.logging, doc, job.actions[i], VerdictOf(call.reply))
    ensures c'.ran == c.ran + [call] && c'.at == c.at + [i] && c'.said == c.said
  {
    var a := job.actions[i];
    FiredNow(t, r, doc, job, i, c);
    next, call := OneExecuted(r, a, doc, job);
    var w := next.task.world;
    c' := Extended(c, i, call, w);
    PicksNext(t.fireOnce, job, c, i, call, w);
    RunsNext(doc, job, c, i, w, call.reply);
    RemembersNext(t.fireOnce, r.task.fireOnce, c.ran, doc, a, call.reply);
    FailsNext(job, c, i, call, w, next.failed);
    TracesNext(t.calls, c.ran, r.task.calls, call);
    WorldsNext(t.past, c.worlds, r.task.past, w);
  }

  lemma TracesNext(before: seq<Call>, ran: seq<Call>, now: seq<Call>, call: Call)
    requires before + ran == now
    ensures before + (ran + [call]) == now + [call]
  {}

  lemma WorldsNext(before: seq<World>, worlds: seq<World>, now: seq<World>, w: World)
    requires worlds != [] && before + worlds[1..] == now
    ensures before + (worlds + [w])[1..] == now + [w]
  {
    assert (worlds + [w])[1..] == worlds[1..] + [w];
  }

  /*** One report more ***/

  lemma {:induction false} PublishedNext(events: seq<Event>, more: seq<Event>, rolledBack: bool)
    ensures Published(events + more, rolledBack) == Published(events, rolledBack) + Published(more, rolledBack)
  {
    if events == [] {
      assert events + more == more;
    } else {
      assert (events + more)[1..] == events[1..] + more;
      PublishedNext(events[1..], more, rolledBack);
    }
  }

  lemma OneReport(doc: Path, job: Job, m: nat, v: Verdict, rolledBack: bool) returns (news: seq<Event>)
    requires m < |job.actions|
    ensures news == Published(ActionEvent(job.logging, doc, job.actions[m], v), rolledBack)
    ensures news == if Asked(job, m, v == SUCCESS, rolledBack)
                    then [Event(doc, job.actions[m].id, job.actions[m].displayName, StatusFor(v == SUCCESS, rolledBack))]
                    else []
  {
    news := Published(ActionEvent(job.logging, doc, job.actions[m], v), rolledBack);
  }

  /** The course goes on by the turn of action `i`. */
  ghost predicate Grows(memory: map<int, Verdict>, job: Job, c: Course, c': Course, i: nat)
  {
    && |c.at| == |c.ran| && AllExecuted(c.ran) && AllExecuted(c'.ran) && c'.said == c.said
    && (forall k :: 0 <= k < |c.at| ==> c.at[k] < i)
    && ((c'.at == c.at && c'.ran == c.ran)
        || (|c'.at| == |c.at| + 1 == |c'.ran| && c'.at[..|c.at|] == c.at && c'.ran[..|c.ran|] == c.ran && c'.at[|c.at|] == i))
  }

  lemma SucceedsLater(memory: map<int, Verdict>, job: Job, c: Course, c': Course, i: nat, m: nat)
    requires Grows(memory, job, c, c', i) && m < i <= |job.actions| && m < |job.actions|
    ensures Succeeds(memory, job, c', m) <==> Succeeds(memory, job, c, m)
  {
    KnownLater(memory, c, c', i, m, job.actions[m].id, SUCCESS);
    assert m in c'.at <==> m in c.at by {
      if c'.at != c.at {
        assert c'.at == c.at + [i];
      }
    }
    forall k: nat | k < |c.at|
      ensures c'.at[k] == c.at[k] && c'.ran[k] == c.ran[k]
    {
      if c'.at != c.at {
        assert c'.at[..|c.at|][k] == c.at[k] && c'.ran[..|c.ran|][k] == c.ran[k];
      }
    }
  }

  lemma ReportsNext(memory: map<int, Verdict>, doc: Path, job: Job, c: Course, c': Course, i: nat, rolledBack: bool,
                    news: seq<Event>, v: Verdict) returns (c'': Course)
    requires i < |job.actions| && Grows(memory, job, c, c', i) && Reports(memory, doc, job, c, i, rolledBack, news)
    requires v == SUCCESS <==> Succeeds(memory, job, c', i)
    ensures c'' == c'.(said := c''.said)
    ensures Reports(memory, doc, job, c'', i + 1, rolledBack,
                    news + Published(ActionEvent(job.logging, doc, job.actions[i], v), rolledBack))
  {
    var one := OneReport(doc, job, i, v, rolledBack);
    var asked := Asked(job, i, v == SUCCESS, rolledBack);
    c'' := c'.(said := if asked then c.said + [i] else c.said);
    SucceedsStill(memory, job, c, c', c'', i);
    OneMoreSaid(c.said, i, asked);
    if asked {
      SaidOnce(memory, doc, job, c, c'', i, rolledBack, news, one[0]);
    } else {
      SaidNothing(memory, doc, job, c, c'', i, rolledBack, news);
      assert news + one == news;
    }
  }

  /** The action before is as it was, and action `i` is not reported. */
  lemma SaidNothing(memory: map<int, Verdict>, doc: Path, job: Job, c: Course, c': Course, i: nat, rolledBack: bool, news: seq<Event>)
    requires i < |job.actions| && |c.at| == |c.ran| && AllExecuted(c.ran) && |c'.at| == |c'.ran| && AllExecuted(c'.ran)
    requires Reports(memory, doc, job, c, i, rolledBack, news) && c'.said == c.said && i !in c.said
    requires forall m: nat :: m < i ==> (Succeeds(memory, job, c', m) <==> Succeeds(memory, job, c, m))
    requires !Asked(job, i, Succeeds(memory, job, c', i), rolledBack)
    ensures Reports(memory, doc, job, c', i + 1, rolledBack, news)
  {}

  /** The actions before are as they were, and action `i` is reported by `e`. */
  lemma SaidOnce(memory: map<int, Verdict>, doc: Path, job: Job, c: Course, c': Course, i: nat, rolledBack: bool, news: seq<Event>, e: Event)
    requires i < |job.actions| && |c.at| == |c.ran| && AllExecuted(c.ran) && |c'.at| == |c'.ran| && AllExecuted(c'.ran)
    requires Reports(memory, doc, job, c, i, rolledBack, news) && c'.said == c.said + [i]
    requires forall m: nat :: m < i ==> (Succeeds(memory, job, c', m) <==> Succeeds(memory, job, c, m))
    requires Asked(job, i, Succeeds(memory, job, c', i), rolledBack)
    requires
      var a := job.actions[i];
      e == Event(doc, a.id, a.displayName, StatusFor(Succeeds(memory, job, c', i), rolledBack))
    ensures Reports(memory, doc, job, c', i + 1, rolledBack, news + [e])
  {
    OneMoreSaid(c.said, i, true);
    var all := news + [e];
    forall k | 0 <= k < |all|
      ensures
        var a := job.actions[c'.said[k]];
        all[k] == Event(doc, a.id, a.displayName, StatusFor(Succeeds(memory, job, c', c'.said[k]), rolledBack))
    {
      if k < |news| {
        assert c'.said[k] == c.said[k] && all[k] == news[k];
      }
    }
  }

  lemma SucceedsStill(memory: map<int, Verdict>, job: Job, c: Course, c': Course, c'': Course, i: nat)
    requires i < |job.actions| && Grows(memory, job, c, c', i) && c'' == c'.(said := c''.said)
    ensures forall m: nat :: m < i ==> (Succeeds(memory, job, c'', m) <==> Succeeds(memory, job, c, m))
    ensures Succeeds(memory, job, c'', i) <==> Succeeds(memory, job, c', i)
  {
    SaidPlaysNoPart(memory, job, c', c'', i);
    forall m: nat | m < i
      ensures Succeeds(memory, job, c'', m) <==> Succeeds(memory, job, c, m)
    {
      SaidPlaysNoPart(memory, job, c', c'', m);
      SucceedsLater(memory, job, c, c', i, m);
    }
  }

  lemma OneMoreSaid(said: seq<nat>, i: nat, asked: bool)
    requires Increasing(said) && forall k :: 0 <= k < |said| ==> said[k] < i
    ensures
      var more := if asked then said + [i] else said;
      Increasing(more) && forall m: nat :: m <= i ==> (m in more <==> if m == i then asked else m in said)
  {}

  lemma SaidPlaysNoPart(memory: map<int, Verdict>, job: Job, c: Course, c': Course, m: nat)
    requires m < |job.actions| && |c.at| == |c.ran| && AllExecuted(c.ran) && c' == c.(said := c'.said)
    ensures Succeeds(memory, job, c', m) <==> Succeeds(memory, job, c, m)
  {
    assert Known(memory, c', m, job.actions[m].id, SUCCESS) <==> Known(memory, c, m, job.actions[m].id, SUCCESS);
  }

  lemma AlongSaid(t: Task, r: Run, doc: Path, job: Job, i: nat, c: Course, c': Course)
    requires Along(t, r, doc, job, i, c) && c' == c.(said := c'.said)
    ensures Along(t, r, doc, job, i, c')
  {
    forall m: nat | m < i
      ensures FiredAlready(t.fireOnce, job, c', m) <==> FiredAlready(t.fireOnce, job, c, m)
    {
      forall v
        ensures Known(t.fireOnce, c', m, job.actions[m].id, v) <==> Known(t.fireOnce, c, m, job.actions[m].id, v)
      {}
    }
    forall k: nat | k < |c.ran|
      ensures RunsOne(doc, job, c', k)
    {
      assert RunsOne(doc, job, c, k);
    }
  }

  /** What an action's turn comes to, and the verdict on it. */
  lemma Turn(t: Task, r: Run, doc: Path, job: Job, i: nat, c: Course) returns (next: Run, c': Course, v: Verdict)
    requires Along(t, r, doc, job, i, c) && !r.failed && i < |job.actions|
    ensures next == PerformOne(r, job.actions[i], doc, job)
    ensures Along(t, next, doc, job, i + 1, c') && Grows(t.fireOnce, job, c, c', i)
    ensures next.events == r.events + ActionEvent(job.logging, doc, job.actions[i], v)
    ensures v == SUCCESS <==> Succeeds(t.fireOnce, job, c', i)
  {
    if AlreadyFired(r.task, job.actions[i]) {
      next := AlongSkipped(t, r, doc, job, i, c);
      c', v := c, r.task.fireOnce[job.actions[i].id];
      KnownNow(t, r, doc, job, i, c, job.actions[i].id, SUCCESS);
    } else {
      var call;
      next, c', call := AlongExecuted(t, r, doc, job, i, c);
      v := VerdictOf(call.reply);
      LastSucceeds(t.fireOnce, job, c, c', i, call);
    }
  }

  lemma LastSucceeds(memory: map<int, Verdict>, job: Job, c: Course, c': Course, i: nat, call: Call)
    requires i < |job.actions| && |c.at| == |c.ran| && AllExecuted(c'.ran) && forall k :: 0 <= k < |c.at| ==> c.at[k] < i
    requires call.Executed? && c'.ran == c.ran + [call] && c'.at == c.at + [i]
    ensures Succeeds(memory, job, c', i) <==> call.reply == Outcome(SUCCESS)
  {
    assert c'.at[|c.at|] == i && c'.ran[|c.at|] == call;
  }

  lemma EventsReported(memory: map<int, Verdict>, doc: Path, job: Job, c: Course, c': Course, i: nat, rolledBack: bool,
                       events: seq<Event>, more: seq<Event>, v: Verdict) returns (c'': Course)
    requires i < |job.actions| && Grows(memory, job, c, c', i)
    requires Reports(memory, doc, job, c, i, rolledBack, Published(events, rolledBack))
    requires more == events + ActionEvent(job.logging, doc, job.actions[i], v)
    requires v == SUCCESS <==> Succeeds(memory, job, c', i)
    ensures c'' == c'.(said := c''.said)
    ensures Reports(memory, doc, job, c'', i + 1, rolledBack, Published(more, rolledBack))
  {
    c'' := ReportsNext(memory, doc, job, c, c', i, rolledBack, Published(events, rolledBack), v);
    PublishedNext(events, ActionEvent(job.logging, doc, job.actions[i], v), rolledBack);
  }

  lemma TurnReported(t: Task, r: Run, doc: Path, job: Job, i: nat, c: Course, rolledBack: bool) returns (next: Run, c': Course)
    requires Along(t, r, doc, job, i, c) && !r.failed && i < |job.actions|
    requires Reports(t.fireOnce, doc, job, c, i, rolledBack, Published(r.events, rolledBack))
    ensures next == PerformOne(r, job.actions[i], doc, job)
    ensures Along(t, next, doc, job, i + 1, c')
    ensures Reports(t.fireOnce, doc, job, c', i + 1, rolledBack, Published(next.events, rolledBack))
  {
    var d, v;
    next, d, v := Turn(t, r, doc, job, i, c);
    c' := EventsReported(t.fireOnce, doc, job, c, d, i, rolledBack, r.events, next.events, v);
    AlongSaid(t, next, doc, job, i + 1, d, c');
  }

  lemma PerformStep(r: Run, next: Run, doc: Path, job: Job, i: nat)
    requires !r.failed && i < |job.actions| && next == PerformOne(r, job.actions[i], doc, job)
    ensures Perform(r, job.actions[i..], doc, job) == Perform(next, job.actions[i + 1..], doc, job)
  {
    var rest := job.actions[i..];
    assert rest[0] == job.actions[i] && rest[1..] == job.actions[i + 1..];
  }

  lemma PerformStopped(r: Run, doc: Path, job: Job, i: nat)
    requires i <= |job.actions| && (r.failed || i == |job.actions|)
    ensures Perform(r, job.actions[i..], doc, job) == r
  {}

  /** The run through the actions from the `i`-th on, to where it stops. */
  lemma {:induction false} RunThrough(t: Task, r: Run, doc: Path, job: Job, i: nat, c: Course, rolledBack: bool)
    returns (c': Course, stop: nat)
    requires Along(t, r, doc, job, i, c) && i <= |job.actions|
    requires Reports(t.fireOnce, doc, job, c, i, rolledBack, Published(r.events, rolledBack))
    ensures
      var end := Perform(r, job.actions[i..], doc, job);
      && Along(t, end, doc, job, stop, c')
      && (!end.failed ==> stop == |job.actions|)
      && Reports(t.fireOnce, doc, job, c', stop, rolledBack, Published(end.events, rolledBack))
    decreases |job.actions| - i
  {
    if r.failed || i == |job.actions| {
      PerformStopped(r, doc, job, i);
      c', stop := c, i;
    } else {
      var next, d := TurnReported(t, r, doc, job, i, c, rolledBack);
      PerformStep(r, next, doc, job, i);
      c', stop := RunThrough(t, next, doc, job, i + 1, d, rolledBack);
    }
  }

  lemma RunFromStart(t: Task, doc: Path, job: Job) returns (c: Course, stop: nat)
    ensures
      var end := Perform(Start(t), job.actions, doc, job);
      && Along(t, end, doc, job, stop, c)
      && (!end.failed ==> stop == |job.actions|)
      && Reports(t.fireOnce, doc, job, c, stop, end.failed, Published(end.events, end.failed))
  {
    var failed := Perform(Start(t), job.actions, doc, job).failed;
    var none := Course([], [], [t.world], []);
    assert Along(t, Start(t), doc, job, 0, none) by {
      assert t.calls + [] == t.calls && t.past + none.worlds[1..] == t.past;
      assert forall id, v :: !Gave([], id, v);
    }
    assert job.actions[0..] == job.actions;
    c, stop := RunThrough(t, Start(t), doc, job, 0, none, failed);
  }

  /*** A whole document ***/

  /** The rule has one action, named "email notification" in whatever case. */
  predicate MailsOnly(actions: seq<Action>)
  {
    |actions| == 1 && SameIgnoringCase(actions[0].displayName, "email notification", "EMAIL NOTIFICATION")
  }

  predicate SameIgnoringCase(s: string, lower: string, upper: string)
    requires |lower| == |upper|
  {
    |s| == |lower| && forall i :: 0 <= i < |s| ==> s[i] == lower[i] || s[i] == upper[i]
  }

  lemma EmailOnlyMeaning(actions: seq<Action>)
    ensures EmailOnly(actions) <==> MailsOnly(actions)
  {
    if |actions| == 1 {
      var name := actions[0].displayName;
      var lower, upper := "email notification", "EMAIL NOTIFICATION";
      forall i | 0 <= i < |lower|
        ensures forall c: char :: LowerChar(c) == lower[i] <==> c == lower[i] || c == upper[i]
      {}
      if |name| == |lower| {
        assert Lower(name) == lower <==> forall i :: 0 <= i < |lower| ==> LowerChar(name[i]) == lower[i];
      }
    }
  }

  predicate SaysEmailAt(name: string, i: nat)
  {
    i + 5 <= |name| && SameIgnoringCase(name[i..i + 5], "email", "EMAIL")
  }

  /** What counts as the name of an email action: "email" within it, in whatever case. */
  lemma MentionsEmailMeaning(name: string)
    ensures MentionsEmail(name) <==> exists i: nat :: SaysEmailAt(name, i)
  {
    forall i: nat | i + 5 <= |name|
      ensures EmailAt(name, i) <==> SaysEmailAt(name, i)
    {
      var part := name[i..i + 5];
      assert Lower(name)[i..i + 5] == Lower(part);
      forall k | 0 <= k < 5
        ensures Lower(part)[k] == "email"[k] <==> part[k] == "email"[k] || part[k] == "EMAIL"[k]
      {}
    }
    if i: nat :| SaysEmailAt(name, i) {
      assert EmailAt(name, i);
    }
  }

  /** The file is there, at the time known to the index. */
  predicate Current(w: World, d: Document)
  {
    d.id != "" && d.id in w.files && d.lastModified == Some(w.files[d.id].modified)
  }

  /** `w` is the world in which the actions start: with a backup, made now or left from
      before, unless the rule only mails. */
  predicate Begins(t: Task, d: Document, disk: Disk, job: Job, w: World)
    requires Current(t.world, d)
  {
    if MailsOnly(job.actions) then w == t.world
    else
      var b := BackupPath(d.id);
      && b != "" && b in w.files
      && match disk.backupCopy
         case Copied => w == t.world.(files := t.world.files[b := t.world.files[d.id]])
         case IOFault(left) => w == LeftBy(t.world, b, left)
         case OtherFault(left) => w == LeftBy(t.world, b, left)
  }

  function LeftBy(w: World, p: Path, left: Residue): World
  {
    match left
    case Untouched => w
    case Missing => World(w.files - {p}, w.outside)
    case Partial(c) => World(w.files[p := c], w.outside)
  }

  /** The world once the backup of a document without failure has been dealt with. */
  function Cleared(w: World, d: Document, disk: Disk, job: Job): World
  {
    if MailsOnly(job.actions) || !disk.backupDelete then w else World(w.files - {BackupPath(d.id)}, w.outside)
  }

  /** What `after` shows of a document's course that started from `t` in world `w`. */
  ghost predicate Took(t: Task, after: Task, d: Document, disk: Disk, job: Job, w: World, c: Course, stop: nat, failed: bool)
  {
    && Picks(t.fireOnce, job, c, stop) && Runs(d.id, job, c) && Fails(job, c, stop, failed)
    && c.worlds[0] == w && (!failed ==> stop == |job.actions|)
    && t.past + (if MailsOnly(job.actions) then [] else [w]) + c.worlds[1..] <= after.past
    && t.calls + c.ran <= after.calls && OnlyUndos(after.calls[|t.calls| + |c.ran|..])
    && (!failed ==>
          && after.calls == t.calls + c.ran
          && after.world == Cleared(c.worlds[|c.ran|], d, disk, job))
    && t.log <= after.log
    && (Reports(t.fireOnce, d.id, job, c, stop, failed, after.log[|t.log|..]) || (failed && after.log == t.log))
  }

  lemma BackupMade(t: Task, d: Document, disk: Disk, job: Job, w: World) returns (ready: Task)
    requires Current(t.world, d) && Begins(t, d, disk, job, w)
    ensures
      var seen := t.(visited := t.visited + [d.id]);
      ready == if EmailOnly(job.actions) then seen else CreateBackup(seen, d.id, disk)
    ensures ready.world == w && ready.calls == t.calls && ready.log == t.log && ready.fireOnce == t.fireOnce
    ensures ready.past == t.past + if MailsOnly(job.actions) then [] else [w]
    ensures EmailOnly(job.actions) || Exists(w, BackupPath(d.id))
  {
    EmailOnlyMeaning(job.actions);
    var seen := t.(visited := t.visited + [d.id]);
    if EmailOnly(job.actions) {
      ready := seen;
      assert t.past + [] == t.past;
    } else {
      BackupInjective(d.id, d.id);
      ready := CreateBackup(seen, d.id, disk);
    }
  }

  lemma {:induction false} RollBackGoesOn(t: Task, performed: seq<Action>)
    ensures t.past <= RollBack(t, performed).0.past
    decreases |performed|
  {
    if performed != [] {
      var a := performed[|performed| - 1];
      var (w, undo) := a.rollback(t.world);
      if undo != ThrewOther {
        RollBackGoesOn(Move(t, w).(calls := t.calls + [RolledBack(a.id, undo)]), performed[..|performed| - 1]);
      }
    }
  }

  /** What is left of the attempt once the actions have run. */
  lemma ConclusionOf(run: Run, doc: Path, disk: Disk) returns (after: Task, ending: Ending)
    ensures (after, ending) == Conclusion(run, doc, disk)
    ensures run.task.past <= after.past && run.task.calls <= after.calls
    ensures OnlyUndos(after.calls[|run.task.calls|..])
    ensures !run.failed ==> ending == Disposable && after.calls == run.task.calls && after.world == run.task.world
    ensures after.log == run.task.log + Published(run.events, run.failed) || (run.failed && after.log == run.task.log)
  {
    var (end, how) := Conclusion(run, doc, disk);
    after, ending := end, how;
    if run.failed {
      RollBackOrder(run.task, run.performed);
      RollBackGoesOn(run.task, run.performed);
      UndoLogUntouched(run.task, run.performed);
      var (undone, undo) := RollBack(run.task, run.performed);
      if undo != UndoThrew {
        var (settled, kept) := Settle(undone, run.events, doc, disk);
        assert undone.past <= settled.past && settled.calls == undone.calls;
      }
    }
  }

  lemma AttemptTook(ready: Task, d: Document, disk: Disk, job: Job)
    returns (c: Course, stop: nat, failed: bool, after: Task, ending: Ending)
    ensures (after, ending) == Attempt(ready, d.id, disk, job)
    ensures Picks(ready.fireOnce, job, c, stop) && Runs(d.id, job, c) && Fails(job, c, stop, failed)
    ensures c.worlds[0] == ready.world && (!failed ==> stop == |job.actions|)
    ensures ready.past + c.worlds[1..] <= after.past
    ensures ready.calls + c.ran <= after.calls && OnlyUndos(after.calls[|ready.calls| + |c.ran|..])
    ensures !failed ==> after.calls == ready.calls + c.ran && after.world == c.worlds[|c.ran|] && ending == Disposable
    ensures ready.log <= after.log
    ensures Reports(ready.fireOnce, d.id, job, c, stop, failed, after.log[|ready.log|..]) || (failed && after.log == ready.log)
  {
    c, stop := RunFromStart(ready, d.id, job);
    var run := Perform(Start(ready), job.actions, d.id, job);
    failed := run.failed;
    LogUntouched(Start(ready), job.actions, d.id, job);
    after, ending := ConclusionOf(run, d.id, disk);
    if after.log == ready.log + Published(run.events, failed) {
      assert after.log[|ready.log|..] == Published(run.events, failed);
    }
  }

  /** The course of a document that is current and, unless the rule only mails, has a
      backup: exactly the actions that have not fired already are executed, in their
      order and each in the world that the one before left, all of them unless one
      fails and then up to that one; what is reported; and the world it leaves. */
  lemma DocumentCourse(t: Task, d: Document, disk: Disk, job: Job, w: World) returns (c: Course, stop: nat, failed: bool)
    requires Current(t.world, d) && Begins(t, d, disk, job, w)
    ensures Took(t, Process(t, d, disk, job), d, disk, job, w, c, stop, failed)
  {
    EmailOnlyMeaning(job.actions);
    var ready := BackupMade(t, d, disk, job, w);
    var after, ending;
    c, stop, failed, after, ending := AttemptTook(ready, d, disk, job);
    var end := Process(t, d, disk, job);
    assert end.calls == after.calls && end.log == after.log;
    assert after.past <= end.past;
  }

  /** A document that is gone or has another time than the index says is left alone. */
  lemma StaleLeftAlone(t: Task, d: Document, disk: Disk, job: Job)
    requires !Current(t.world, d)
    ensures Process(t, d, disk, job) == t.(visited := t.visited + [d.id])
  {}

  /** The rule needs a backup and the copy leaves none. */
  predicate Unbacked(t: Task, d: Document, disk: Disk, job: Job)
  {
    && !MailsOnly(job.actions)
    && var b := BackupPath(d.id);
    && (b == "" || (disk.backupCopy != Copied
                    && (disk.backupCopy.left == Missing || (disk.backupCopy.left == Untouched && b !in t.world.files))))
  }

  lemma BackedOrNot(t: Task, d: Document, disk: Disk, job: Job) returns (w: World)
    requires Current(t.world, d) && !Unbacked(t, d, disk, job)
    ensures Begins(t, d, disk, job, w)
  {
    w := if MailsOnly(job.actions) then t.world else CreateBackup(t, d.id, disk).world;
    if !MailsOnly(job.actions) {
      BackupInjective(d.id, d.id);
    }
  }

  /** Without a backup no action is called and nothing but the backup path has changed. */
  lemma UnbackedLeftAlone(t: Task, d: Document, disk: Disk, job: Job)
    requires Current(t.world, d) && Unbacked(t, d, disk, job)
    ensures
      var after := Process(t, d, disk, job);
      && after.calls == t.calls && after.log == t.log && after.fireOnce == t.fireOnce
      && after.success == t.success && after.fail == t.fail
      && after.world.outside == t.world.outside
      && forall p :: p != BackupPath(d.id) ==> SameAt(t.world, after.world, p)
  {
    EmailOnlyMeaning(job.actions);
    if BackupPath(d.id) != "" {
      BackupInjective(d.id, d.id);
    }
  }

  /*** Documents on which every action succeeds ***/

  /** The executions and the reports of a rule without fire-once actions. */
  function AllSucceeded(doc: Path, actions: seq<Action>): (r: seq<Call>)
    ensures |r| == |actions|
    ensures forall i :: 0 <= i < |actions| ==> r[i] == Executed(doc, actions[i].id, false, Outcome(SUCCESS))
  {
    seq(|actions|, i requires 0 <= i < |actions| => Executed(doc, actions[i].id, false, Outcome(SUCCESS)))
  }

  function AllReported(doc: Path, actions: seq<Action>): (r: seq<Event>)
    ensures |r| == |actions|
    ensures forall i :: 0 <= i < |actions| ==> r[i] == Event(doc, actions[i].id, actions[i].displayName, LogSuccess)
  {
    seq(|actions|, i requires 0 <= i < |actions| =>
        Event(doc, actions[i].id, actions[i].displayName, LogSuccess))
  }

  ghost predicate AllBelow(s: seq<nat>, n: nat)
  {
    forall m: nat :: m in s <==> m < n
  }

  lemma {:induction false} FullCount(s: seq<nat>, n: nat)
    requires Increasing(s) && AllBelow(s, n)
    ensures |s| == n && forall k :: 0 <= k < n ==> s[k] == k
    decreases n
  {
    forall k | 0 <= k < |s|
      ensures s[k] < n
    {
      assert s[k] in s;
    }
    if n > 0 {
      var last: nat := n - 1;
      assert last in s;
      LastOfAll(s, n);
      FullCount(s[..|s| - 1], n - 1);
    }
  }

  lemma LastOfAll(s: seq<nat>, n: nat)
    requires Increasing(s) && n > 0 && AllBelow(s, n) && |s| > 0
    ensures s[|s| - 1] == n - 1 && AllBelow(s[..|s| - 1], n - 1)
  {
    var most: nat := n - 1;
    assert most in s;
    var k :| 0 <= k < |s| && s[k] == most;
    var shorter, last := s[..|s| - 1], s[|s| - 1];
    assert last in s && last == most;
    assert s == shorter + [last];
    forall m: nat
      ensures m in shorter <==> m < n - 1
    {
      assert m in s <==> m < n;
      assert m in s <==> m in shorter || m == last;
      if m in shorter {
        var j :| 0 <= j < |shorter| && shorter[j] == m;
        assert s[j] == m && s[j] < last;
      }
    }
  }

  lemma Flawless(t: Task, after: Task, job: Job, c: Course, stop: nat, failed: bool)
    requires t.calls + c.ran <= after.calls && |c.at| == |c.ran| && AllExecuted(c.ran) && Fails(job, c, stop, failed)
    requires forall k :: |t.calls| <= k < |after.calls| ==> !FailedCall(after.calls[k])
    ensures !failed && forall k :: 0 <= k < |c.ran| ==> c.ran[k].reply == Outcome(SUCCESS)
  {
    forall k | 0 <= k < |c.ran|
      ensures c.ran[k].reply == Outcome(SUCCESS)
    {
      assert after.calls[|t.calls| + k] == (t.calls + c.ran)[|t.calls| + k] == c.ran[k];
    }
  }

  ghost predicate WentWell(t: Task, after: Task, d: Document, disk: Disk, job: Job, w: World, worlds: seq<World>)
  {
    var n := |job.actions|;
    && after.calls == t.calls + AllSucceeded(d.id, job.actions)
    && after.log == t.log + (if job.logging.ofSuccess then AllReported(d.id, job.actions) else [])
    && |worlds| == n + 1 && worlds[0] == w
    && (forall i :: 0 <= i < n ==>
          Executes(job.actions[i], d.id, job.query, worlds[i], worlds[i + 1], Outcome(SUCCESS)))
    && after.world == Cleared(worlds[n], d, disk, job)
  }

  /** A document on which nothing fails, under a rule without fire-once actions: every
      action has been called, in order, every success is reported as one, and the
      backup is gone if the disk deletes it. */
  lemma EveryActionSucceeds(t: Task, d: Document, disk: Disk, job: Job, w: World) returns (worlds: seq<World>)
    requires Current(t.world, d) && Begins(t, d, disk, job, w)
    requires forall i :: 0 <= i < |job.actions| ==> !job.actions[i].fireOnce
    requires forall k :: |t.calls| <= k < |Process(t, d, disk, job).calls| ==> !FailedCall(Process(t, d, disk, job).calls[k])
    ensures WentWell(t, Process(t, d, disk, job), d, disk, job, w, worlds)
  {
    var c, stop, failed := DocumentCourse(t, d, disk, job, w);
    var after := Process(t, d, disk, job);
    SuccessfulParts(t, after, d, disk, job, w, c, stop, failed);
    SuccessTold(t, after, d, disk, job, w, c);
    worlds := c.worlds;
  }

  /** Without a failed call the course has not failed and has taken every action's turn. */
  lemma SuccessfulParts(t: Task, after: Task, d: Document, disk: Disk, job: Job, w: World, c: Course, stop: nat, failed: bool)
    requires Took(t, after, d, disk, job, w, c, stop, failed)
    requires forall k :: |t.calls| <= k < |after.calls| ==> !FailedCall(after.calls[k])
    ensures Picks(t.fireOnce, job, c, |job.actions|) && Runs(d.id, job, c) && c.worlds[0] == w
    ensures forall k :: 0 <= k < |c.ran| ==> c.ran[k].reply == Outcome(SUCCESS)
    ensures after.calls == t.calls + c.ran && after.world == Cleared(c.worlds[|c.ran|], d, disk, job)
    ensures t.log <= after.log && Reports(t.fireOnce, d.id, job, c, |job.actions|, false, after.log[|t.log|..])
  {
    Flawless(t, after, job, c, stop, failed);
  }

  /** The parts put together. */
  lemma PartsTold(t: Task, after: Task, d: Document, disk: Disk, job: Job, w: World, c: Course)
    requires c.ran == AllSucceeded(d.id, job.actions) && |c.worlds| == |c.ran| + 1 && c.worlds[0] == w
    requires forall i :: 0 <= i < |job.actions| ==>
               Executes(job.actions[i], d.id, job.query, c.worlds[i], c.worlds[i + 1], Outcome(SUCCESS))
    requires after.calls == t.calls + c.ran && after.world == Cleared(c.worlds[|c.ran|], d, disk, job)
    requires t.log <= after.log
             && after.log[|t.log|..] == if job.logging.ofSuccess then AllReported(d.id, job.actions) else []
    ensures WentWell(t, after, d, disk, job, w, c.worlds)
  {
    assert after.log == t.log + after.log[|t.log|..];
  }

  lemma SuccessTold(t: Task, after: Task, d: Document, disk: Disk, job: Job, w: World, c: Course)
    requires Picks(t.fireOnce, job, c, |job.actions|) && Runs(d.id, job, c) && c.worlds[0] == w
    requires forall i :: 0 <= i < |job.actions| ==> !job.actions[i].fireOnce
    requires forall k :: 0 <= k < |c.ran| ==> c.ran[k].reply == Outcome(SUCCESS)
    requires after.calls == t.calls + c.ran && after.world == Cleared(c.worlds[|c.ran|], d, disk, job)
    requires t.log <= after.log && Reports(t.fireOnce, d.id, job, c, |job.actions|, false, after.log[|t.log|..])
    ensures WentWell(t, after, d, disk, job, w, c.worlds)
  {
    AllInTurn(t.fireOnce, d.id, job, c);
    ReportedAll(t.fireOnce, d.id, job, c, after.log[|t.log|..]);
    PartsTold(t, after, d, disk, job, w, c);
  }

  lemma AllInTurn(memory: map<int, Verdict>, doc: Path, job: Job, c: Course)
    requires Picks(memory, job, c, |job.actions|) && Runs(doc, job, c)
    requires forall i :: 0 <= i < |job.actions| ==> !job.actions[i].fireOnce
    requires forall k :: 0 <= k < |c.ran| ==> c.ran[k].reply == Outcome(SUCCESS)
    ensures c.ran == AllSucceeded(doc, job.actions) && forall k :: 0 <= k < |c.at| ==> c.at[k] == k
    ensures forall i :: 0 <= i < |job.actions| ==>
              Executes(job.actions[i], doc, job.query, c.worlds[i], c.worlds[i + 1], Outcome(SUCCESS))
  {
    forall m: nat
      ensures m in c.at <==> m < |job.actions|
    {
      if m in c.at {
        var k :| 0 <= k < |c.at| && c.at[k] == m;
      }
    }
    FullCount(c.at, |job.actions|);
    forall i: nat | i < |job.actions|
      ensures c.ran[i] == AllSucceeded(doc, job.actions)[i]
      ensures Executes(job.actions[i], doc, job.query, c.worlds[i], c.worlds[i + 1], Outcome(SUCCESS))
    {
      assert RunsOne(doc, job, c, i);
    }
  }

  lemma ReportedAll(memory: map<int, Verdict>, doc: Path, job: Job, c: Course, news: seq<Event>)
    requires |c.at| == |c.ran| == |job.actions| && AllExecuted(c.ran)
    requires forall k :: 0 <= k < |c.ran| ==> c.at[k] == k && c.ran[k].reply == Outcome(SUCCESS)
    requires Reports(memory, doc, job, c, |job.actions|, false, news)
    ensures news == if job.logging.ofSuccess then AllReported(doc, job.actions) else []
  {
    var n := |job.actions|;
    assert forall k :: 0 <= k < |c.said| ==> c.said[k] in c.said && c.said[k] < n;
    forall m: nat
      ensures m < n ==> Succeeds(memory, job, c, m)
      ensures m in c.said <==> m < if job.logging.ofSuccess then n else 0
    {
      if m < n {
        assert c.at[m] == m;
        assert m in c.said <==> Asked(job, m, Succeeds(memory, job, c, m), false);
      }
    }
    if job.logging.ofSuccess {
      FullCount(c.said, n);
      forall k | 0 <= k < n
        ensures news[k] == AllReported(doc, job.actions)[k]
      {}
    } else {
      FullCount(c.said, 0);
    }
  }
}
