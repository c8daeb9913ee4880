/** Whole runs on the linked CPU: a list of steps, carried out one routine after the other,
    ends where the step system ends. */
module CpuRuns {
  import opened Cpu
  import opened EventFailures
  import opened QueueIds
  import opened QueueSpec
  import opened Scheduler
  import opened SchedulerRuns
  import opened ThreadLists
  import opened ThreadQueue
  import opened Wrappers

  /** A step carried out on the linked queues; a thread to be started is created first. */
  method Perform(c: RunQueueOf, a: Action)
    requires c.Valid() && Inv(c.View()) && Enabled(c.View(), a)
    modifies c, c.lists, c.lists.Footprint()
    ensures c.Valid() && c.View() == Step(old(c.View()), a) && (Inv(c.View()) <==> StepSafe(old(c.View()), a))
    ensures fresh(c.lists.Footprint() - old(c.lists.Footprint()))
  {
    hide Lists.Valid, Lists.Run, Lists.Heads, Lists.Prios, RunQueueOf.View, Inv, Step;
    match a
    case Start(t, p) =>
      var tp := new Thread(t, p, false);
      c.StartThread(tp);
    case Open(q) => c.OpenQueue(q);
    case Discard(q) => c.DiscardSignal(q);
    case Check(q) => var done := c.CheckEvent(q);
    case List => c.AddToWakeQueue();
    case Enqueue => c.QueueAddCurrent();
    case NotifyRead(q) => c.NotifyRead(q);
    case NotifyCommit => c.NotifyCommit();
    case NotifyIrq(q) => c.EventNotifyIrq(q);
    case Yield => c.SchedYield();
    case Nice(p) => c.SetNice(p);
    case IdleLoop => c.IdleTurn();
    case Slice => c.EndSlice();
    case Tick(n) => c.SetTick(n);
    case Schedule => c.Schedule();
  }

  /** A safe run, carried out on the linked queues. */
  method PerformAll(c: RunQueueOf, acts: seq<Action>)
    requires c.Valid() && Inv(c.View()) && CanRun(c.View(), acts) && RunSafe(c.View(), acts)
    modifies c, c.lists, c.lists.Footprint()
    ensures c.Valid() && Inv(c.View()) && c.View() == Run(old(c.View()), acts)
    ensures fresh(c.lists.Footprint() - old(c.lists.Footprint()))
    decreases |acts|
  {
    hide Lists.Valid, Lists.Run, Lists.Heads, Lists.Prios, RunQueueOf.View, RunQueueOf.Valid, Inv, Step, Enabled, StepSafe;
    if acts != [] {
      Perform(c, acts[0]);
      PerformAll(c, acts[1..]);
    }
  }

  /** A started thread is current, linked into the run queue and RUNNING, or at home in one
      wait queue and stopped; and it is linked into one queue at most. */
  ghost predicate LinkedOnce(c: RunQueueOf, tp: Thread)
    reads c, c.lists, c.lists.rq, c.lists.ws
  {
    && (tp == c.current || tp in c.lists.rq.threads || tp in c.lists.ws.home)
    && (tp in c.lists.rq.threads ==> tp != c.current && tp !in c.lists.ws.home && tp.id in c.running)
    && (tp in c.lists.ws.home ==> tp.id !in c.running)
  }

  lemma OneLinkEach(c: RunQueueOf, tp: Thread)
    requires c.Valid() && Inv(c.View()) && Known(c.lists.table, tp)
    ensures LinkedOnce(c, tp)
  {
    var s := c.View();
    c.lists.InRunQueue(tp.id);
    if tp in c.lists.ws.home {
      var q := c.lists.ws.home[tp];
      c.lists.InWaitQueue(q, tp.id);
      assert InList(s, q, tp.id);
    } else if Waiting(s, tp.id) {
      c.lists.InWaitQueue(s.at[tp.id].q, tp.id);
    }
  }

  lemma StartedKnown(c: RunQueueOf, tp: Thread)
    requires c.Valid() && tp in c.lists.table.Values
    ensures Known(c.lists.table, tp)
  {
  }

  /** From boot, any safe run: the linked queues are those of the step system, and nobody is
      lost from them. */
  method Boot(order: Order, idle: Thread, acts: seq<Action>) returns (c: RunQueueOf)
    requires idle.idle && idle.base == IDLE_PRIO && idle.dprio == 0
    requires CanRun(Init(order, idle.id), acts) && RunSafe(Init(order, idle.id), acts)
    modifies idle
    ensures fresh(c) && fresh(c.lists) && fresh(c.lists.Footprint() - {idle})
    ensures c.Valid() && Inv(c.View()) && c.View() == Run(Init(order, idle.id), acts)
    ensures forall tp :: tp in c.lists.table.Values ==> LinkedOnce(c, tp)
  {
    hide Lists.Valid, Lists.Run, Lists.Heads, Lists.Prios, RunQueueOf.View, RunQueueOf.Valid, Inv, RunSafe, CanRun, Run;
    c := new RunQueueOf(order, idle);
    InitOk(order, idle.id);
    PerformAll(c, acts);
    forall tp | tp in c.lists.table.Values
      ensures LinkedOnce(c, tp)
    {
      StartedKnown(c, tp);
      OneLinkEach(c, tp);
    }
  }

  lemma InitOk(order: Order, idle: Tid)
    ensures Inv(Init(order, idle))
  {
  }

  // ----- a waiter lost from the linked queues

  lemma {:induction false} NoCommits(s: State, acts: seq<Action>)
    requires CanRun(s, acts) && NotifyCommit !in acts
    ensures RunSafe(s, acts)
    decreases |acts|
  {
    if acts != [] {
      NoCommits(Step(s, acts[0]), acts[1..]);
    }
  }

  const BEFORE: seq<Action> := [Action.Schedule, Check(9), List, Enqueue, Action.Schedule]

  lemma Resumes()
    ensures CanRun(HasRead(), BEFORE) && Run(HasRead(), BEFORE) == Resumed()
  {
    hide Step, Enabled, Running2, HasChecked, HasListed, HasQueued, Resumed;
    Run2();
    Check2();
    Queue2();
    Resume1();
    Followed([HasRead(), Running2(), HasChecked(), HasListed(), HasQueued(), Resumed()], BEFORE);
  }

  /** The run that drops a waiter, up to its last step. */
  lemma BeforeWrite()
    ensures CanRun(Init(Rr, 0), READING + BEFORE) && Run(Init(Rr, 0), READING + BEFORE) == Resumed()
    ensures RunSafe(Init(Rr, 0), READING + BEFORE) && Goes(Resumed(), NotifyCommit, HasWritten()) && Lost(HasWritten(), 2)
  {
    hide Step, Enabled, HasRead, Resumed, HasWritten, Goes, Lost, RunSafe;
    Reads();
    Resumes();
    Write1();
    RunBoth(Init(Rr, 0), READING, BEFORE);
    NoCommits(Init(Rr, 0), READING + BEFORE);
    WrittenLost();
  }

  /** The same twelve steps on the linked queues: in the end a started thread is not the
      current one and is linked nowhere. */
  method LoseWaiter(idle: Thread) returns (c: RunQueueOf, tp: Thread)
    requires idle.id == 0 && idle.idle && idle.base == IDLE_PRIO && idle.dprio == 0
    modifies idle
    ensures c.Valid() && Known(c.lists.table, tp) && tp.id == 2
    ensures tp != c.current && tp !in c.lists.rq.threads && tp !in c.lists.ws.home
  {
    BeforeWrite();
    c := Boot(Rr, idle, READING + BEFORE);
    Perform(c, NotifyCommit);
    tp := c.lists.table[2];
    LostUnlinked(c, tp);
  }

  lemma LostUnlinked(c: RunQueueOf, tp: Thread)
    requires c.Valid() && Known(c.lists.table, tp) && Lost(c.View(), tp.id)
    ensures tp != c.current && tp !in c.lists.rq.threads && tp !in c.lists.ws.home
  {
    c.lists.InRunQueue(tp.id);
    if tp in c.lists.ws.home {
      var q := c.lists.ws.home[tp];
      c.lists.InWaitQueue(q, tp.id);
      assert InList(c.View(), q, tp.id);
    }
  }
}
