/** `ScheduledJobRunner` of services/connectivity/app/scheduler_jobs.py: jobs that hold a
    slot of their tenant's semaphore, then one of the global semaphore. Every await is a
    point where any other task may step. */
module Scheduler {
  import opened Wrappers

  type Key = string
  type Tenant = string
  type TaskId = nat

  /** Queueing for its tenant, holding a tenant slot while queueing for a global one,
      running with both, or done. */
  datatype Stage = Queued | Holding | Running | Done

  datatype Task = Task(key: Key, tenant: Tenant, stage: Stage)

  /** `cancelling` is the task list `cancel_all` is gathering. */
  datatype State = State(
    maxConcurrency: nat,
    tenantConcurrency: nat,
    tasks: map<TaskId, Task>,
    jobs: map<Key, TaskId>,
    tenants: map<Tenant, nat>,
    globalFree: nat,
    cancelling: Option<set<TaskId>>)

  datatype Event =
    | Submit(key: Key, tenant: Tenant, id: TaskId)
    | AcquireTenant(id: TaskId)
    | AcquireGlobal(id: TaskId)
    | Finish(id: TaskId)      // the job returned or raised
    | Cancel(id: TaskId)      // at any await, queued ones included
    | Reap
    | BeginCancelAll
    | EndCancelAll

  predicate Live(s: State, id: TaskId) {
    id in s.tasks && s.tasks[id].stage != Done
  }

  predicate IsRunning(s: State, key: Key) {
    key in s.jobs && Live(s, s.jobs[key])
  }

  /** Free slots of a tenant; its semaphore is created at first use. */
  function Free(s: State, tenant: Tenant): nat {
    if tenant in s.tenants then s.tenants[tenant] else s.tenantConcurrency
  }

  predicate Enabled(s: State, e: Event) {
    match e
    case Submit(_, _, id) => id !in s.tasks
    case AcquireTenant(id) => id in s.tasks && s.tasks[id].stage == Queued && Free(s, s.tasks[id].tenant) > 0
    case AcquireGlobal(id) => id in s.tasks && s.tasks[id].stage == Holding && s.globalFree > 0
    case Finish(id) => id in s.tasks && s.tasks[id].stage == Running
    case Cancel(id) => Live(s, id)
    case Reap => true
    case BeginCancelAll => s.cancelling.None?
    case EndCancelAll => s.cancelling.Some? && forall id | id in s.cancelling.value :: !Live(s, id)
  }

  function SetStage(s: State, id: TaskId, stage: Stage): State
    requires id in s.tasks
  {
    s.(tasks := s.tasks[id := s.tasks[id].(stage := stage)])
  }

  /** Leave the two `async with` blocks, releasing what was held. */
  function Release(s: State, id: TaskId): State
    requires id in s.tasks
  {
    var task, done := s.tasks[id], SetStage(s, id, Done);
    var tenantBack := if task.stage == Holding || task.stage == Running
                      then done.(tenants := s.tenants[task.tenant := Free(s, task.tenant) + 1]) else done;
    if task.stage == Running then tenantBack.(globalFree := s.globalFree + 1) else tenantBack
  }

  function Next(s: State, e: Event): State
    requires Enabled(s, e)
  {
    match e
    case Submit(key, tenant, id) =>
      if IsRunning(s, key) then s
      else s.(tasks := s.tasks[id := Task(key, tenant, Queued)], jobs := s.jobs[key := id])
    case AcquireTenant(id) =>
      var tenant := s.tasks[id].tenant;
      SetStage(s, id, Holding).(tenants := s.tenants[tenant := Free(s, tenant) - 1])
    case AcquireGlobal(id) => SetStage(s, id, Running).(globalFree := s.globalFree - 1)
    case Finish(id) => Release(s, id)
    case Cancel(id) => Release(s, id)
    case Reap => s.(jobs := Reaped(s))
    case BeginCancelAll => s.(cancelling := Some(set k | k in s.jobs :: s.jobs[k]))
    case EndCancelAll => s.(cancelling := None, jobs := map[])
  }

  function Reaped(s: State): map<Key, TaskId> {
    map k | k in s.jobs && Live(s, s.jobs[k]) :: s.jobs[k]
  }

  function Initial(maxConcurrency: nat, tenantConcurrency: nat): State {
    State(maxConcurrency, tenantConcurrency, map[], map[], map[], maxConcurrency, None)
  }

  // ---------------------------------------------------------------- the code

  class ScheduledJobRunner {
    const maxConcurrency: nat
    const tenantConcurrency: nat
    var tasks: map<TaskId, Task>
    var jobs: map<Key, TaskId>
    var tenants: map<Tenant, nat>
    var globalFree: nat
    ghost var cancelling: Option<set<TaskId>>

    ghost function View(): State
      reads this
    {
      State(maxConcurrency, tenantConcurrency, tasks, jobs, tenants, globalFree, cancelling)
    }

    constructor (maxConcurrency: nat, tenantConcurrency: nat)
      requires maxConcurrency >= 1 && tenantConcurrency >= 1
      ensures View() == Initial(maxConcurrency, tenantConcurrency)
    {
      this.maxConcurrency, this.tenantConcurrency := maxConcurrency, tenantConcurrency;
      tasks, jobs, tenants, globalFree, cancelling := map[], map[], map[], maxConcurrency, None;
    }

    /** Limits below one are refused. */
    static method Make(maxConcurrency: int, tenantConcurrency: int) returns (runner: Option<ScheduledJobRunner>)
      ensures runner.None? <==> maxConcurrency < 1 || tenantConcurrency < 1
      ensures runner.Some? ==> fresh(runner.value) && runner.value.View() == Initial(maxConcurrency, tenantConcurrency)
    {
      if maxConcurrency < 1 || tenantConcurrency < 1 {
        return None;
      }
      var made := new ScheduledJobRunner(maxConcurrency, tenantConcurrency);
      return Some(made);
    }

    method IsRunningKey(key: Key) returns (running: bool)
      ensures running <==> IsRunning(View(), key)
    {
      running := key in jobs && jobs[key] in tasks && tasks[jobs[key]].stage != Done;
    }

    method SubmitJob(key: Key, tenant: Tenant, id: TaskId) returns (accepted: bool)
      requires id !in tasks
      modifies this
      ensures View() == Next(old(View()), Submit(key, tenant, id))
      ensures accepted <==> !old(IsRunning(View(), key))
    {
      var running := IsRunningKey(key);
      if running {
        return false;
      }
      tasks := tasks[id := Task(key, tenant, Queued)];
      jobs := jobs[key := id];
      accepted := true;
    }

    /** Take the tenant slot, creating the tenant's semaphore when there is none. */
    method EnterTenant(id: TaskId)
      requires Enabled(View(), AcquireTenant(id))
      modifies this
      ensures View() == Next(old(View()), AcquireTenant(id))
    {
      var tenant := tasks[id].tenant;
      var free := if tenant in tenants then tenants[tenant] else tenantConcurrency;
      tenants := tenants[tenant := free - 1];
      tasks := tasks[id := tasks[id].(stage := Holding)];
    }

    method EnterGlobal(id: TaskId)
      requires Enabled(View(), AcquireGlobal(id))
      modifies this
      ensures View() == Next(old(View()), AcquireGlobal(id))
    {
      globalFree := globalFree - 1;
      tasks := tasks[id := tasks[id].(stage := Running)];
    }

    /** The end of `_run`, whether the job finished, failed or was cancelled. */
    method Leave(id: TaskId)
      requires Live(View(), id)
      modifies this
      ensures View() == Release(old(View()), id)
    {
      var task := tasks[id];
      if task.stage == Running {
        globalFree := globalFree + 1;
      }
      if task.stage == Running || task.stage == Holding {
        var free := if task.tenant in tenants then tenants[task.tenant] else tenantConcurrency;
        tenants := tenants[task.tenant := free + 1];
      }
      tasks := tasks[id := task.(stage := Done)];
    }

    method ReapJobs()
      modifies this`jobs
      ensures View() == Next(old(View()), Reap)
    {
      var keys := jobs.Keys;
      ghost var start := jobs;
      while keys != {}
        invariant keys <= start.Keys
        invariant jobs == map k | k in start && (k in keys || Live(old(View()), start[k])) :: start[k]
        decreases |keys|
      {
        var key :| key in keys;
        if jobs[key] !in tasks || tasks[jobs[key]].stage == Done {
          jobs := jobs - {key};
        }
        keys := keys - {key};
      }
    }
  }

  // ---------------------------------------------------------------- safety

  function RunningTasks(s: State): set<TaskId> {
    set id | id in s.tasks && s.tasks[id].stage == Running
  }

  /** Tasks of a tenant that hold one of its slots, running or queueing for a global one. */
  function Holders(s: State, tenant: Tenant): set<TaskId> {
    set id | id in s.tasks && s.tasks[id].tenant == tenant && s.tasks[id].stage in {Holding, Running}
  }

  function RunningOf(s: State, tenant: Tenant): set<TaskId> {
    set id | id in s.tasks && s.tasks[id].tenant == tenant && s.tasks[id].stage == Running
  }

  ghost predicate Conserved(s: State) {
    && s.globalFree + |RunningTasks(s)| == s.maxConcurrency
    && (forall tenant :: Free(s, tenant) + |Holders(s, tenant)| == s.tenantConcurrency)
  }

  /** Every live task is the one registered under its key. */
  ghost predicate Registered(s: State) {
    && (forall id | Live(s, id) :: s.tasks[id].key in s.jobs && s.jobs[s.tasks[id].key] == id)
    && (forall k | k in s.jobs :: s.jobs[k] in s.tasks && s.tasks[s.jobs[k]].key == k)
  }

  lemma AcquireConserves(s: State, id: TaskId)
    requires Conserved(s) && Enabled(s, AcquireTenant(id))
    ensures Conserved(Next(s, AcquireTenant(id)))
  {
    var s', mine := Next(s, AcquireTenant(id)), s.tasks[id].tenant;
    assert RunningTasks(s') == RunningTasks(s);
    forall tenant ensures Free(s', tenant) + |Holders(s', tenant)| == s'.tenantConcurrency {
      if tenant == mine {
        assert Holders(s', tenant) == Holders(s, tenant) + {id};
      } else {
        assert Holders(s', tenant) == Holders(s, tenant);
      }
      assert Free(s, tenant) + |Holders(s, tenant)| == s.tenantConcurrency;
    }
  }

  lemma AcquireGlobalConserves(s: State, id: TaskId)
    requires Conserved(s) && Enabled(s, AcquireGlobal(id))
    ensures Conserved(Next(s, AcquireGlobal(id)))
  {
    var s' := Next(s, AcquireGlobal(id));
    assert RunningTasks(s') == RunningTasks(s) + {id};
    forall tenant ensures Free(s', tenant) + |Holders(s', tenant)| == s'.tenantConcurrency {
      assert Holders(s', tenant) == Holders(s, tenant);
      assert Free(s, tenant) + |Holders(s, tenant)| == s.tenantConcurrency;
    }
  }

  lemma ReleaseTenant(s: State, id: TaskId, tenant: Tenant)
    requires Live(s, id)
    ensures Free(Release(s, id), tenant) + |Holders(Release(s, id), tenant)| == Free(s, tenant) + |Holders(s, tenant)|
  {
    var s', task := Release(s, id), s.tasks[id];
    if tenant == task.tenant && task.stage != Queued {
      assert id in Holders(s, tenant);
      assert Holders(s', tenant) == Holders(s, tenant) - {id};
    } else {
      assert Holders(s', tenant) == Holders(s, tenant);
    }
  }

  lemma ReleaseConserves(s: State, id: TaskId)
    requires Conserved(s) && Live(s, id)
    ensures Conserved(Release(s, id))
  {
    var s', task := Release(s, id), s.tasks[id];
    if task.stage == Running {
      assert RunningTasks(s') == RunningTasks(s) - {id};
      assert id in RunningTasks(s);
    } else {
      assert RunningTasks(s') == RunningTasks(s);
    }
    forall tenant ensures Free(s', tenant) + |Holders(s', tenant)| == s'.tenantConcurrency {
      ReleaseTenant(s, id, tenant);
      assert Free(s, tenant) + |Holders(s, tenant)| == s.tenantConcurrency;
    }
  }

  lemma NextConserves(s: State, e: Event)
    requires Conserved(s) && Enabled(s, e)
    ensures Conserved(Next(s, e))
  {
    match e
    case AcquireTenant(id) => AcquireConserves(s, id);
    case AcquireGlobal(id) => AcquireGlobalConserves(s, id);
    case Finish(id) => ReleaseConserves(s, id);
    case Cancel(id) => ReleaseConserves(s, id);
    case _ =>
      var s' := Next(s, e);
      assert RunningTasks(s') == RunningTasks(s);
      forall tenant ensures Free(s', tenant) + |Holders(s', tenant)| == s'.tenantConcurrency {
        assert Holders(s', tenant) == Holders(s, tenant);
        assert Free(s, tenant) + |Holders(s, tenant)| == s.tenantConcurrency;
      }
  }

  ghost predicate Runs(s: State, events: seq<Event>)
    decreases |events|
  {
    events == [] || (Enabled(s, events[0]) && Runs(Next(s, events[0]), events[1..]))
  }

  ghost function After(s: State, events: seq<Event>): State
    requires Runs(s, events)
    decreases |events|
  {
    if events == [] then s else After(Next(s, events[0]), events[1..])
  }

  lemma {:induction false} RunConserves(s: State, events: seq<Event>)
    requires Conserved(s) && Runs(s, events)
    ensures Conserved(After(s, events))
    ensures After(s, events).maxConcurrency == s.maxConcurrency && After(s, events).tenantConcurrency == s.tenantConcurrency
    decreases |events|
  {
    if events != [] {
      NextConserves(s, events[0]);
      RunConserves(Next(s, events[0]), events[1..]);
    }
  }

  lemma InitialConserves(maxConcurrency: nat, tenantConcurrency: nat)
    ensures Conserved(Initial(maxConcurrency, tenantConcurrency))
  {
    var s := Initial(maxConcurrency, tenantConcurrency);
    assert RunningTasks(s) == {};
    assert forall tenant :: Holders(s, tenant) == {};
  }

  /** In every reachable state the caps hold and slots are conserved. */
  lemma CapsHold(maxConcurrency: nat, tenantConcurrency: nat, events: seq<Event>)
    requires Runs(Initial(maxConcurrency, tenantConcurrency), events)
    ensures var s := After(Initial(maxConcurrency, tenantConcurrency), events);
            && |RunningTasks(s)| <= maxConcurrency
            && s.globalFree + |RunningTasks(s)| == maxConcurrency
            && (forall tenant :: |Holders(s, tenant)| <= tenantConcurrency)
  {
    InitialConserves(maxConcurrency, tenantConcurrency);
    RunConserves(Initial(maxConcurrency, tenantConcurrency), events);
    var s := After(Initial(maxConcurrency, tenantConcurrency), events);
    forall tenant ensures |Holders(s, tenant)| <= tenantConcurrency {
      assert Free(s, tenant) + |Holders(s, tenant)| == tenantConcurrency;
    }
  }

  ghost predicate NoAcquire(s: State) {
    forall id :: !Enabled(s, AcquireTenant(id)) && !Enabled(s, AcquireGlobal(id))
  }

  /** Nothing waits without a reason: when no slot can be taken, either every global slot
      is in use by a running job, or each waiting task's tenant runs exactly its cap. */
  lemma NoDeadlock(maxConcurrency: nat, tenantConcurrency: nat, events: seq<Event>)
    requires Runs(Initial(maxConcurrency, tenantConcurrency), events)
    requires NoAcquire(After(Initial(maxConcurrency, tenantConcurrency), events))
    ensures var s := After(Initial(maxConcurrency, tenantConcurrency), events);
            || |RunningTasks(s)| == maxConcurrency
            || forall id | id in s.tasks && s.tasks[id].stage in {Queued, Holding} ::
                 |RunningOf(s, s.tasks[id].tenant)| == tenantConcurrency
  {
    InitialConserves(maxConcurrency, tenantConcurrency);
    RunConserves(Initial(maxConcurrency, tenantConcurrency), events);
    var s := After(Initial(maxConcurrency, tenantConcurrency), events);
    if s.globalFree > 0 {
      forall id | id in s.tasks && s.tasks[id].stage in {Queued, Holding}
        ensures |RunningOf(s, s.tasks[id].tenant)| == tenantConcurrency
      {
        var tenant := s.tasks[id].tenant;
        assert !Enabled(s, AcquireTenant(id)) && !Enabled(s, AcquireGlobal(id));
        assert Free(s, tenant) == 0;
        assert Free(s, tenant) + |Holders(s, tenant)| == tenantConcurrency;
        forall other | other in Holders(s, tenant) ensures other in RunningOf(s, tenant) {
          assert !Enabled(s, AcquireGlobal(other));
        }
        assert Holders(s, tenant) == RunningOf(s, tenant);
      }
    }
  }

  // ---------------------------------------------------------------- one live task per key

  /** Clearing the registry at the end of `cancel_all` forgets no live task. */
  ghost predicate ForgetsNothing(s: State, e: Event) {
    e.EndCancelAll? ==> forall k | k in s.jobs :: !IsRunning(s, k)
  }

  ghost predicate RunForgetsNothing(s: State, events: seq<Event>)
    requires Runs(s, events)
    decreases |events|
  {
    events == [] || (ForgetsNothing(s, events[0]) && RunForgetsNothing(Next(s, events[0]), events[1..]))
  }

  lemma NextRegistered(s: State, e: Event)
    requires Registered(s) && Enabled(s, e) && ForgetsNothing(s, e)
    ensures Registered(Next(s, e))
  {
    var s' := Next(s, e);
    forall id | Live(s', id) ensures s'.tasks[id].key in s'.jobs && s'.jobs[s'.tasks[id].key] == id {
      if Live(s, id) {
        assert s.tasks[id].key == s'.tasks[id].key;
        assert e.EndCancelAll? ==> IsRunning(s, s.tasks[id].key);
      }
    }
    forall k | k in s'.jobs ensures s'.jobs[k] in s'.tasks && s'.tasks[s'.jobs[k]].key == k {
      if k in s.jobs && s'.jobs[k] == s.jobs[k] {
        assert s.jobs[k] in s.tasks && s.tasks[s.jobs[k]].key == k;
      }
    }
  }

  lemma {:induction false} RunRegistered(s: State, events: seq<Event>)
    requires Registered(s) && Runs(s, events) && RunForgetsNothing(s, events)
    ensures Registered(After(s, events))
    decreases |events|
  {
    if events != [] {
      NextRegistered(s, events[0]);
      RunRegistered(Next(s, events[0]), events[1..]);
    }
  }

  /** In every run whose `cancel_all` calls forget no live task, no key has two live tasks. */
  lemma OneTaskPerKey(maxConcurrency: nat, tenantConcurrency: nat, events: seq<Event>)
    requires Runs(Initial(maxConcurrency, tenantConcurrency), events)
    requires RunForgetsNothing(Initial(maxConcurrency, tenantConcurrency), events)
    ensures !TwoLive(After(Initial(maxConcurrency, tenantConcurrency), events))
  {
    RunRegistered(Initial(maxConcurrency, tenantConcurrency), events);
  }

  /** `submit` and `cancel_all` are called one after the other. */
  ghost predicate RunsSequentially(s: State, events: seq<Event>)
    requires Runs(s, events)
    decreases |events|
  {
    events == [] || ((events[0].Submit? ==> s.cancelling.None?) && RunsSequentially(Next(s, events[0]), events[1..]))
  }

  /** Such runs forget nothing: what is registered when `cancel_all` ends, it has waited for. */
  lemma {:induction false} SequentialForgetsNothing(s: State, events: seq<Event>)
    requires Runs(s, events) && RunsSequentially(s, events)
    requires s.cancelling.Some? ==> forall k | k in s.jobs :: s.jobs[k] in s.cancelling.value
    ensures RunForgetsNothing(s, events)
    decreases |events|
  {
    if events != [] {
      SequentialForgetsNothing(Next(s, events[0]), events[1..]);
    }
  }

  // ---------------------------------------------------------------- submitting during cancel_all

  ghost predicate TwoLive(s: State) {
    exists a, b :: a != b && Live(s, a) && Live(s, b) && s.tasks[a].key == s.tasks[b].key
  }

  /** When `cancel_all` ends, the next submission can give a key two live tasks if and only if
      a registered task is still live, one that was submitted while it gathered. */
  lemma KeyCanRunTwiceIff(s: State, tenant: Tenant, id: TaskId)
    requires Registered(s) && Enabled(s, EndCancelAll) && id !in s.tasks
    ensures (exists key :: TwoLive(Next(Next(s, EndCancelAll), Submit(key, tenant, id))))
            <==> exists k :: k in s.jobs && IsRunning(s, k)
  {
    var ended := Next(s, EndCancelAll);
    if k :| k in s.jobs && IsRunning(s, k) {
      var t := Next(ended, Submit(k, tenant, id));
      assert Live(t, id) && Live(t, s.jobs[k]) && t.tasks[s.jobs[k]].key == k == t.tasks[id].key;
      assert TwoLive(t);
    } else {
      forall key
        ensures !TwoLive(Next(ended, Submit(key, tenant, id)))
      {
        var t := Next(ended, Submit(key, tenant, id));
        forall x | Live(t, x)
          ensures x == id
        {
          assert x != id ==> Live(s, x) && IsRunning(s, s.tasks[x].key);
        }
      }
    }
  }

  /** Such a run: a job submitted while `cancel_all` gathers is forgotten by it, and the same
      key then has two live tasks. */
  lemma SubmitDuringCancelAllRunsTwice(key: Key, tenant: Tenant)
    ensures var s0 := Initial(1, 1);
            var s1 := Next(s0, BeginCancelAll);
            var s2 := Next(s1, Submit(key, tenant, 0));
            Enabled(s2, EndCancelAll)
            && var s3 := Next(s2, EndCancelAll);
               var s4 := Next(s3, Submit(key, tenant, 1));
               Live(s4, 0) && Live(s4, 1) && s4.tasks[0].key == s4.tasks[1].key
  {
  }

  // ---------------------------------------------------------------- everything drains

  function AtStage(tasks: map<TaskId, Task>, stage: Stage): set<TaskId> {
    set id | id in tasks && tasks[id].stage == stage
  }

  /** Steps left until nothing is live. */
  function Work(tasks: map<TaskId, Task>): nat {
    3 * |AtStage(tasks, Queued)| + 2 * |AtStage(tasks, Holding)| + |AtStage(tasks, Running)|
  }

  ghost predicate Idle(s: State) {
    (forall id :: !Live(s, id)) && s.globalFree == s.maxConcurrency && forall tenant :: Free(s, tenant) == s.tenantConcurrency
  }

  lemma IdleWhenNoneLive(s: State)
    requires Conserved(s) && forall id :: !Live(s, id)
    ensures Idle(s)
  {
    forall id | id in s.tasks
      ensures s.tasks[id].stage == Done
    {
      assert !Live(s, id);
    }
    assert RunningTasks(s) == {};
    forall tenant
      ensures Free(s, tenant) == s.tenantConcurrency
    {
      assert Free(s, tenant) + |Holders(s, tenant)| == s.tenantConcurrency;
      assert Holders(s, tenant) == {};
    }
  }

  lemma WorkFalls(tasks: map<TaskId, Task>, id: TaskId, stage: Stage)
    requires id in tasks
    requires match tasks[id].stage case Queued => stage != Queued case Holding => stage in {Running, Done} case _ => tasks[id].stage != stage == Done
    ensures Work(tasks[id := tasks[id].(stage := stage)]) < Work(tasks)
  {
    var was, after := tasks[id].stage, tasks[id := tasks[id].(stage := stage)];
    assert id in AtStage(tasks, was) && AtStage(after, was) == AtStage(tasks, was) - {id};
    assert AtStage(after, stage) == AtStage(tasks, stage) + {id};
    forall other | other != was && other != stage
      ensures AtStage(after, other) == AtStage(tasks, other)
    {
    }
  }

  /** A step that moves the live task `id` on, or ends it. */
  lemma StageMoves(s: State, e: Event, id: TaskId)
    requires Enabled(s, e) && e in {AcquireTenant(id), AcquireGlobal(id), Finish(id), Cancel(id)}
    ensures Work(Next(s, e).tasks) < Work(s.tasks) && Next(s, e).tasks.Keys == s.tasks.Keys
    ensures forall other | other in s.tasks && other != id :: Next(s, e).tasks[other] == s.tasks[other]
  {
    WorkFalls(s.tasks, id, if e.AcquireTenant? then Holding else if e.AcquireGlobal? then Running else Done);
  }

  /** Some task can always take its next slot or end, until none is live. */
  lemma NextTurn(s: State, id: TaskId) returns (e: Event, mover: TaskId)
    requires Conserved(s) && s.maxConcurrency >= 1 && s.tenantConcurrency >= 1 && Live(s, id)
    ensures Enabled(s, e) && e in {AcquireTenant(mover), AcquireGlobal(mover), Finish(mover)}
  {
    if running :| running in RunningTasks(s) {
      e, mover := Finish(running), running;
    } else if holding :| holding in AtStage(s.tasks, Holding) {
      assert RunningTasks(s) == {};
      e, mover := AcquireGlobal(holding), holding;
    } else {
      var tenant := s.tasks[id].tenant;
      assert Free(s, tenant) + |Holders(s, tenant)| == s.tenantConcurrency;
      forall other | other in s.tasks
        ensures s.tasks[other].stage !in {Holding, Running}
      {
        assert other !in RunningTasks(s) && other !in AtStage(s.tasks, Holding);
      }
      assert Holders(s, tenant) == {};
      assert s.tasks[id].stage != Running && s.tasks[id].stage != Holding;
      e, mover := AcquireTenant(id), id;
    }
  }

  lemma {:induction false} Drain(s: State) returns (turns: seq<Event>)
    requires Conserved(s) && s.maxConcurrency >= 1 && s.tenantConcurrency >= 1
    ensures Runs(s, turns) && Idle(After(s, turns))
    ensures forall e | e in turns :: e.AcquireTenant? || e.AcquireGlobal? || e.Finish?
    ensures forall id | Live(s, id) :: Finish(id) in turns
    decreases Work(s.tasks)
  {
    if id :| Live(s, id) {
      var e, mover := NextTurn(s, id);
      StageMoves(s, e, mover);
      NextConserves(s, e);
      var rest := Drain(Next(s, e));
      turns := [e] + rest;
      assert turns[1..] == rest;
      forall other | Live(s, other)
        ensures Finish(other) in turns
      {
        if other != mover {
          assert Live(Next(s, e), other);
        }
      }
    } else {
      turns := [];
      IdleWhenNoneLive(s);
    }
  }

  /** No task is stuck or starved for good: from every reachable state the tasks can take their
      slots in some order so that every live one gets to run to its end, without a cancellation,
      and all slots are free again. */
  lemma EveryTaskCanRun(maxConcurrency: nat, tenantConcurrency: nat, events: seq<Event>) returns (turns: seq<Event>)
    requires maxConcurrency >= 1 && tenantConcurrency >= 1 && Runs(Initial(maxConcurrency, tenantConcurrency), events)
    ensures var s := After(Initial(maxConcurrency, tenantConcurrency), events);
            && Runs(s, turns) && Idle(After(s, turns))
            && (forall e | e in turns :: e.AcquireTenant? || e.AcquireGlobal? || e.Finish?)
            && (forall id | Live(s, id) :: Finish(id) in turns)
  {
    InitialConserves(maxConcurrency, tenantConcurrency);
    RunConserves(Initial(maxConcurrency, tenantConcurrency), events);
    turns := Drain(After(Initial(maxConcurrency, tenantConcurrency), events));
  }

  /** `cancel_all` reaches its end by cancelling what it gathered, each live task once. */
  lemma {:induction false} CancelEach(s: State) returns (cancels: seq<Event>)
    requires Conserved(s) && s.cancelling.Some? && forall id | Live(s, id) :: id in s.cancelling.value
    ensures Runs(s, cancels + [EndCancelAll])
    ensures forall e | e in cancels :: e.Cancel? && e.id in s.cancelling.value
    ensures var t := After(s, cancels + [EndCancelAll]); Idle(t) && t.jobs == map[] && t.cancelling.None?
    decreases Work(s.tasks)
  {
    if id :| Live(s, id) {
      StageMoves(s, Cancel(id), id);
      NextConserves(s, Cancel(id));
      var rest := CancelEach(Next(s, Cancel(id)));
      cancels := [Cancel(id)] + rest;
      assert (cancels + [EndCancelAll])[1..] == rest + [EndCancelAll];
    } else {
      cancels := [];
      var t := Next(s, EndCancelAll);
      assert [] + [EndCancelAll] == [EndCancelAll] && [EndCancelAll][1..] == [];
      assert Runs(t, []);
      NextConserves(s, EndCancelAll);
      forall id
        ensures !Live(t, id)
      {
        assert !Live(s, id);
      }
      IdleWhenNoneLive(t);
    }
  }

  /** Called in any state of a run that forgets no live task, it leaves a runner as good as new:
      nothing live, nothing registered, every slot free. */
  lemma CancelAllStartsAfresh(maxConcurrency: nat, tenantConcurrency: nat, events: seq<Event>) returns (cancels: seq<Event>)
    requires Runs(Initial(maxConcurrency, tenantConcurrency), events)
    requires RunForgetsNothing(Initial(maxConcurrency, tenantConcurrency), events)
    requires After(Initial(maxConcurrency, tenantConcurrency), events).cancelling.None?
    ensures var s, all := After(Initial(maxConcurrency, tenantConcurrency), events), [BeginCancelAll] + (cancels + [EndCancelAll]);
            && Runs(s, all)
            && (forall e | e in cancels :: e.Cancel? && exists k :: k in s.jobs && s.jobs[k] == e.id)
            && Idle(After(s, all)) && After(s, all).jobs == map[] && After(s, all).cancelling.None?
  {
    var s := After(Initial(maxConcurrency, tenantConcurrency), events);
    InitialConserves(maxConcurrency, tenantConcurrency);
    RunConserves(Initial(maxConcurrency, tenantConcurrency), events);
    RunRegistered(Initial(maxConcurrency, tenantConcurrency), events);
    NextConserves(s, BeginCancelAll);
    cancels := CancelEach(Next(s, BeginCancelAll));
    assert ([BeginCancelAll] + (cancels + [EndCancelAll]))[1..] == cancels + [EndCancelAll];
  }

  /** Reaping forgets exactly the finished tasks and touches nothing else. */
  lemma ReapForgetsFinished(s: State)
    ensures var t := Next(s, Reap);
            && t.(jobs := s.jobs) == s
            && (forall k :: k in t.jobs <==> IsRunning(s, k))
            && (forall k | k in t.jobs :: t.jobs[k] == s.jobs[k])
  {
  }
}
