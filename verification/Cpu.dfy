/** core.c and event.c on one CPU, over linked queues: each routine proved against the
    step system. */
module Cpu {
  import opened QueueIds
  import opened QueueSpec
  import opened Scheduler
  import opened SchedulerRuns
  import opened ThreadLists
  import opened ThreadQueue
  import opened Wrappers

  class RunQueueOf {
    const lists: Lists
    var num: int
    var current: Thread
    var switches: nat
    var running: set<Tid>
    var onRq: set<Tid>
    var need: set<Tid>
    var slice: set<Tid>
    var wake: seq<Tid>
    var at: map<Tid, Loc>
    var tick: int
    ghost var since: map<Tid, int>
    var pc: Pc
    var seen: map<Tid, Reading>
    var fault: bool

    /** The state of the step system. */
    ghost function View(): State
      reads this, lists, lists.rq, lists.ws, lists.ws.queues.Values, lists.table.Values`base
    {
      State(lists.order, lists.idle.id, lists.Run(), num, current.id, switches, running, onRq, need, slice, wake,
            lists.Heads(), at, lists.Prios(), tick, since, pc, seen, fault)
    }

    ghost predicate Valid()
      reads this, lists, lists.rq, lists.rq.threads, lists.ws, lists.ws.queues.Values, lists.ws.home.Keys, lists.table.Values
    {
      this !in lists.Footprint() && lists !in lists.Footprint() && lists.Valid() && Known(lists.table, current)
    }

    /** sched_start, with the idle thread current. */
    constructor (order: Order, idle: Thread)
      requires idle.idle && idle.base == IDLE_PRIO && idle.dprio == 0
      ensures Valid() && View() == Init(order, idle.id) && fresh(lists) && fresh(lists.Footprint() - {idle})
    {
      hide Lists.Valid, Lists.Run, Lists.Heads, Lists.Prios;
      lists := new Lists(order, idle);
      num, current, switches := 0, idle, 0;
      running, onRq, need, slice, wake := {idle.id}, {}, {}, {}, [];
      at, tick, since, pc, seen, fault := map[], 0, map[], Ready, map[], false;
    }

    // ----- the scheduling class

    /** add_thread of the scheduling class. */
    method ClassAdd(tp: Thread)
      requires Valid() && Known(lists.table, tp) && lists.Loose(tp.id)
      modifies this`num, this`at, this`since, lists.Footprint()
      ensures Valid() && lists.ws.queues == old(lists.ws.queues) && View() == Entered(old(View()), tp.id)
    {
      hide Lists.Valid, Lists.Run, Lists.Heads, Place;
      lists.Insert(tp, tick);
      num := num + 1;
      at := at[tp.id := RunQueue];
      since := since[tp.id := tick];
    }

    /** rm_thread of the scheduling class. */
    method ClassRemove(tp: Thread)
      requires Valid() && Known(lists.table, tp)
      modifies this`num, this`at, this`since, lists.Footprint()
      ensures Valid() && lists.ws.queues == old(lists.ws.queues) && View() == RqRemove(old(View()), tp.id)
    {
      hide Lists.Valid, Lists.Run, Lists.Heads, Remove;
      var ok := lists.Delete(tp);
      if ok {
        num := num - 1;
        at := at - {tp.id};
      }
    }

    /** raw_rq_add_thread. */
    method AddThread(tp: Thread)
      requires Valid() && Known(lists.table, tp) && lists.Loose(tp.id)
      modifies this`num, this`at, this`since, this`running, this`onRq, lists.Footprint()
      ensures Valid() && lists.ws.queues == old(lists.ws.queues) && View() == RqAdd(old(View()), tp.id)
    {
      hide Lists.Valid, Lists.Run, Lists.Heads, Entered;
      ClassAdd(tp);
      running := running + {tp.id};
      onRq := onRq + {tp.id};
    }

    // ----- waking

    /** A thread leaves the wake list, and its `queue` field is cleared. */
    method Unlist(tp: Thread)
      requires Valid()
      modifies this`at, this`wake
      ensures Valid()
      ensures var s := old(View()); View() == s.(wake := Without(s.wake, tp.id), at := s.at - {tp.id})
    {
      hide Lists.Valid, Lists.Run, Lists.Heads, Lists.Prios, Without;
      wake := Without(wake, tp.id);
      at := at - {tp.id};
    }

    method TakeOff(q: Qid, ghost list: seq<Entry<Tid>>) returns (tp: Thread)
      requires Valid() && q in lists.Heads() && lists.Heads()[q] == Threads(list) && list != []
      modifies this`at, this`wake, lists.Footprint()
      ensures Valid() && lists.ws.queues == old(lists.ws.queues) && View() == TakenOff(old(View()), q)
      ensures Known(lists.table, tp) && tp.id == list[0].id
    {
      hide Lists.Valid, Lists.Run, Lists.Heads, Lists.Prios, Without, AfterFirst;
      tp := lists.Head(q, list);
      lists.DropFirst(q, list);
      Unlist(tp);
    }

    /** `set_bit(THREAD_NEED_RESCHED_FLAG, &rq->current->flags);` */
    method Mark()
      requires Valid()
      modifies this`need
      ensures Valid()
      ensures var s := old(View()); View() == s.(need := s.need + {s.current})
    {
      hide Lists.Valid, Lists.Run, Lists.Heads, Lists.Prios;
      need := need + {current.id};
    }

    /** `prio(tp) <= prio(rq->current)` */
    method AsGood(tp: Thread) returns (b: bool)
      requires Valid() && Known(lists.table, tp)
      ensures b == (Prio(View(), tp.id) <= Prio(View(), View().current))
    {
      hide Lists.Valid, Lists.Run, Lists.Heads, Lists.Prios;
      var p := lists.PrioOf(tp);
      var c := lists.PrioOf(current);
      b := p <= c;
    }

    /** A woken thread asks for the CPU when its priority is as good as the current one. */
    method AskFor(tp: Thread)
      requires Valid() && Known(lists.table, tp)
      modifies this`need
      ensures Valid()
      ensures var s := old(View());
              View() == if Prio(s, tp.id) <= Prio(s, s.current) then s.(need := s.need + {s.current}) else s
    {
      hide Lists.Valid, Lists.Run, Lists.Heads, Lists.Prios;
      var asGood := AsGood(tp);
      if asGood {
        Mark();
      }
    }

    /** The current thread is woken before it left the CPU. */
    method StayOn()
      requires Valid()
      modifies this`running, this`onRq
      ensures Valid()
      ensures var s := old(View()); View() == s.(running := s.running + {s.current}, onRq := s.onRq + {s.current})
    {
      hide Lists.Valid, Lists.Run, Lists.Heads;
      running := running + {current.id};
      onRq := onRq + {current.id};
    }

    /** __raw_event_notify, and rq_signal_event_queue: the first waiter of queue `q`
        becomes RUNNING and leaves both lists, and nobody else moves. */
    method WakeFirst(q: Qid, ghost list: seq<Entry<Tid>>)
      requires Valid() && Mid(View()) && q in lists.Heads() && lists.Heads()[q] == Threads(list) && list != []
      modifies this`num, this`at, this`since, this`running, this`onRq, this`need, this`wake, lists.Footprint()
      ensures Valid() && lists.ws.queues == old(lists.ws.queues) && View() == WakeHead(old(View()), q)
      ensures Mid(View()) && list[0].id !in old(running) && list[0].id in running
    {
      hide Lists.Valid, Lists.Run, Lists.Heads, TakenOff, RqAdd, Mid, Later, Prio;
      WakeHeadOk(View(), q);
      WokenLoose(View(), q);
      var tp := TakeOff(q, list);
      if current != tp {
        AddThread(tp);
        AskFor(tp);
      } else {
        StayOn();
      }
    }

    method CountDown(q: Qid, ghost list: seq<Entry<Tid>>)
      requires Valid() && q in lists.Heads() && lists.Heads()[q] == Threads(list) && list != []
      modifies lists.Footprint()
      ensures Valid() && lists.ws.queues == old(lists.ws.queues)
      ensures var s := old(View()); View() == s.(waits := s.waits[q := Threads(Recounted(list, list[0].ec - 1))])
    {
      hide Lists.Valid, Lists.Run, Lists.Heads, Recounted;
      lists.UseEvent(q, list);
    }

    /** The body of the loop of rq_signal_threads: one event of thread `t` is used up, and
        the first thread of its queue, which it is itself, is woken. */
    method SignalThread(t: Tid)
      requires Valid() && Mid(View()) && t in lists.table
      modifies this`num, this`at, this`since, this`running, this`onRq, this`need, this`wake, lists.Footprint()
      ensures Valid() && lists.ws.queues == old(lists.ws.queues) && View() == SignalOne(old(View()), t) && Mid(View())
    {
      hide Lists.Valid, Lists.Run, Lists.Heads, WakeHead, Mid;
      ghost var s := View();
      SignalOneOk(s, t);
      if t in at && at[t].WaitQueue? {
        ghost var q := at[t].q;
        ghost var list := WaitsThere(s, t);
        var ec := lists.EventsOf(t, q, list);
        if ec != 0 {
          CountedDownOk(s, q, list, t);
          CountDown(at[t].q, list);
          WakeFirst(at[t].q, Recounted(list, list[0].ec - 1));
        }
      }
    }

    /** rq_signal_threads over the wake list as it was found. */
    method SignalAll()
      requires Valid() && Mid(View())
      modifies this`num, this`at, this`since, this`running, this`onRq, this`need, this`wake, lists.Footprint()
      ensures Valid() && lists.ws.queues == old(lists.ws.queues) && View() == SignalThreads(old(View()), old(wake)) && Mid(View())
    {
      hide Lists.Valid, Lists.Run, Lists.Heads, SignalOne, Mid;
      WakeStarted(View());
      var list := wake;
      while list != []
        invariant Valid() && Mid(View()) && lists.ws.queues == old(lists.ws.queues)
        invariant SignalThreads(View(), list) == SignalThreads(old(View()), old(wake))
        invariant forall t :: t in list ==> t in lists.table
        decreases |list|
      {
        SignalThread(list[0]);
        list := list[1..];
      }
    }

    // ----- rescheduling

    /** sched_get_next_runnable. */
    method Next() returns (next: Thread)
      requires Valid()
      ensures Known(lists.table, next) && next.id == NextRunnable(lists.Run(), running, current.id)
    {
      hide Lists.Valid, Lists.Run, NextRunnable;
      var runnable := lists.Next(running, current.id);
      next := if runnable == null then current else runnable;
    }

    /** reschedule_decide, once preempt_check has set the preemption flag, as it always
        does without SCHED_FAIR. */
    method Decide(next: Thread) returns (switch: bool)
      requires Valid() && Known(lists.table, next) && current.id in slice
      modifies this`need, this`slice
      ensures Valid() && View() == Cleared(old(View()), current.id) && switch == Switches(old(View()), current.id, next.id)
    {
      hide Lists.Valid, Lists.Run, Lists.Heads, Lists.Prios;
      lists.IdleFlag(next);
      var prev := current.id;
      var preempt, resched := prev in slice, prev in need;
      slice := slice - {prev};
      need := need - {prev};
      if prev == next.id {
        return false;
      }
      if next.idle && preempt && !resched {
        return false;
      }
      switch := preempt || resched;
    }

    /** A thread that loses the CPU is queued again if it is still RUNNING. */
    method Requeue(prev: Thread)
      requires Valid() && Known(lists.table, prev) && (prev.id in running ==> lists.Loose(prev.id))
      modifies this`num, this`at, this`since, this`onRq, lists.Footprint()
      ensures Valid() && lists.ws.queues == old(lists.ws.queues) && View() == Requeued(old(View()), prev.id)
    {
      hide Lists.Valid, Lists.Run, Lists.Heads, Entered;
      if prev.id in running {
        onRq := onRq + {prev.id};
        ClassAdd(prev);
      } else {
        onRq := onRq - {prev.id};
      }
    }

    method MakeCurrent(next: Thread)
      requires Valid() && Known(lists.table, next)
      modifies this`current, this`switches
      ensures Valid() && current == next
      ensures var s := old(View()); View() == s.(current := next.id, switches := s.switches + 1)
    {
      hide Lists.Valid, Lists.Run, Lists.Heads, Lists.Prios;
      current := next;
      switches := switches + 1;
    }

    /** rq_switch_context. */
    method SwitchContext(next: Thread)
      requires Valid() && Known(lists.table, next) && (current.id in running ==> lists.Loose(current.id))
      modifies this`current, this`switches, this`num, this`at, this`since, this`onRq, lists.Footprint()
      ensures Valid() && lists.ws.queues == old(lists.ws.queues) && View() == Switched(old(View()), old(current).id, next.id)
    {
      hide Lists.Valid, Lists.Run, Lists.Heads, Requeued, RqRemove;
      var prev := current;
      MakeCurrent(next);
      Requeue(prev);
      ClassRemove(next);
    }

    method Flag()
      requires Valid()
      modifies this`slice
      ensures Valid()
      ensures var s := old(View()); View() == s.(slice := s.slice + {s.current})
    {
      hide Lists.Valid, Lists.Run, Lists.Heads, Lists.Prios;
      slice := slice + {current.id};
    }

    /** The part of __schedule that picks the next thread and switches to it. */
    method Pick()
      requires Valid() && Mid(View())
      modifies this, lists.Footprint()
      ensures Valid() && lists.ws.queues == old(lists.ws.queues) && View() == Picked(old(View())).(pc := pc)
    {
      hide Lists.Valid, Lists.Run, Lists.Heads, Lists.Prios, NextRunnable, Switched, Mid;
      ghost var m := View();
      CurrentLoose(m);
      var next := Next();
      Flag();
      assert slice - {current.id} == m.slice - {current.id};
      var switch := Decide(next);
      if switch {
        SwitchContext(next);
      }
    }

    /** __schedule: pending events are delivered, then the next thread is picked. */
    method Reschedule()
      requires Valid() && Inv(View()) && (pc.Ready? || pc.Enqueued?)
      modifies this, lists.Footprint()
      ensures Valid() && lists.ws.queues == old(lists.ws.queues) && View() == Rescheduled(old(View())) && Inv(View())
    {
      hide Lists.Valid, Lists.Run, Lists.Heads, SignalThreads, Picked, Inv, Mid;
      RescheduledOk(View());
      InvIsMid(View());
      SignalAll();
      PickedReady(View());
      Pick();
      Settle();
    }

    /** The step. */
    method Schedule()
      requires Valid() && Inv(View()) && Enabled(View(), Action.Schedule)
      modifies this, lists.Footprint()
      ensures Valid() && lists.ws.queues == old(lists.ws.queues) && View() == Step(old(View()), Action.Schedule) && Inv(View())
    {
      hide Lists.Valid, Lists.Run, Lists.Heads, Lists.Prios, Rescheduled, Inv;
      Reschedule();
    }

    method Settle()
      requires Valid()
      modifies this`pc
      ensures Valid() && View() == old(View()).(pc := Ready)
    {
      hide Lists.Valid, Lists.Run, Lists.Heads, Lists.Prios;
      pc := Ready;
    }

    // ----- events

    /** event_notify reads the head of the queue. */
    method NotifyRead(q: Qid)
      requires Valid() && Inv(View()) && Enabled(View(), Action.NotifyRead(q))
      modifies this`seen
      ensures Valid() && View() == Step(old(View()), Action.NotifyRead(q)) && Inv(View())
    {
      hide Lists.Valid, Lists.Run, Lists.Heads, Lists.Prios, Inv;
      StepOk(View(), Action.NotifyRead(q));
      var found := lists.Look(q);
      seen := seen[current.id := Reading(q, found)];
    }

    method SetSignaled(q: Qid)
      requires Valid() && q in lists.Heads()
      modifies lists.Footprint()
      ensures Valid() && lists.ws.queues == old(lists.ws.queues)
      ensures var s := old(View()); View() == s.(waits := s.waits[q := Signaled])
    {
      hide Lists.Valid, Lists.Run, Lists.Heads, Lists.Prios;
      lists.Overwrite(q);
    }

    method EndNotify()
      requires Valid()
      modifies this`seen
      ensures Valid() && View() == old(View()).(seen := old(seen) - {current.id})
    {
      hide Lists.Valid, Lists.Run, Lists.Heads, Lists.Prios;
      seen := seen - {current.id};
    }

    method Break()
      requires Valid()
      modifies this`fault
      ensures Valid() && View() == old(View()).(fault := true)
    {
      hide Lists.Valid, Lists.Run, Lists.Heads, Lists.Prios;
      fault := true;
    }

    /** event_notify with preemption off: by what it read before. */
    method Commit(r: Reading)
      requires Valid() && Mid(View()) && r.q in lists.Heads()
      modifies this, lists.Footprint()
      ensures Valid() && lists.ws.queues == old(lists.ws.queues) && View() == Committed(old(View()), r)
    {
      hide Lists.Valid, Lists.Run, Lists.Heads, WakeHead, Mid;
      if r.found == Nobody {
        SetSignaled(r.q);
      } else if r.found == Waiters {
        var now := lists.Look(r.q);
        if now == Waiters {
          WakeFirst(r.q, lists.Heads()[r.q].q);
        } else {
          Break();
        }
      }
    }

    /** The rest of event_notify: the invariant is kept exactly when the reading is safe. */
    method NotifyCommit()
      requires Valid() && Inv(View()) && Enabled(View(), Action.NotifyCommit)
      modifies this, lists.Footprint()
      ensures Valid() && lists.ws.queues == old(lists.ws.queues)
      ensures var s := old(View()); View() == Step(s, Action.NotifyCommit) && (Inv(View()) <==> StepSafe(s, Action.NotifyCommit))
    {
      hide Lists.Valid, Lists.Run, Lists.Heads, Committed, Inv, Mid;
      ghost var s := View();
      CommitOk(s);
      EndedIsMid(s);
      var r := seen[current.id];
      EndNotify();
      Commit(r);
    }

    /** event_notify_irq. */
    method EventNotifyIrq(q: Qid)
      requires Valid() && Inv(View()) && Enabled(View(), NotifyIrq(q))
      modifies lists.Footprint()
      ensures Valid() && lists.ws.queues == old(lists.ws.queues) && View() == Step(old(View()), NotifyIrq(q)) && Inv(View())
    {
      hide Lists.Valid, Lists.Run, Lists.Heads, Lists.Prios, Posted, Inv;
      StepOk(View(), NotifyIrq(q));
      lists.Post(q);
    }

    method SetPc(next: Pc)
      requires Valid()
      modifies this`pc
      ensures Valid() && View() == old(View()).(pc := next)
    {
      hide Lists.Valid, Lists.Run, Lists.Heads, Lists.Prios;
      pc := next;
    }

    method TakeSignal(q: Qid) returns (taken: bool)
      requires Valid() && q in lists.Heads()
      modifies lists.Footprint()
      ensures Valid() && lists.ws.queues == old(lists.ws.queues) && taken == old(lists.Heads()[q]).Signaled?
      ensures var s := old(View()); View() == if taken then s.(waits := s.waits[q := Threads([])]) else s
    {
      hide Lists.Valid, Lists.Run, Lists.Heads, Lists.Prios;
      taken := lists.TakeSignal(q);
    }

    /** The check at the start of raw_event_wait: true when it takes the signal. */
    method CheckEvent(q: Qid) returns (done: bool)
      requires Valid() && Inv(View()) && Enabled(View(), Check(q))
      modifies this`pc, lists.Footprint()
      ensures Valid() && lists.ws.queues == old(lists.ws.queues) && View() == Step(old(View()), Check(q)) && Inv(View())
      ensures done == old(lists.Heads()[q]).Signaled?
    {
      hide Lists.Valid, Lists.Run, Lists.Heads, Lists.Prios, Inv;
      StepOk(View(), Check(q));
      done := TakeSignal(q);
      if !done {
        SetPc(Checked(q));
      }
    }

    /** thread_add_to_wake_q. */
    method AddToWakeQueue()
      requires Valid() && Inv(View()) && Enabled(View(), List)
      modifies this`wake, this`pc
      ensures Valid() && View() == Step(old(View()), List) && Inv(View())
    {
      hide Lists.Valid, Lists.Run, Lists.Heads, Lists.Prios, Inv;
      StepOk(View(), List);
      wake := [current.id] + wake;
      pc := Listed(pc.q);
    }

    method Stop()
      requires Valid()
      modifies this`running, this`need
      ensures Valid()
      ensures var s := old(View()); View() == s.(running := s.running - {s.current}, need := s.need + {s.current})
    {
      hide Lists.Valid, Lists.Run, Lists.Heads, Lists.Prios;
      running := running - {current.id};
      need := need + {current.id};
    }

    method Wait(q: Qid)
      requires Valid() && q in lists.Heads() && lists.Loose(current.id)
      modifies this`at, lists.Footprint()
      ensures Valid() && lists.ws.queues == old(lists.ws.queues)
      ensures var s := old(View());
              View() == s.(waits := s.waits[q := Insert(Fifo, s.waits[q], Entry(s.current, 0, 0))], at := s.at[s.current := WaitQueue(q)])
    {
      hide Lists.Valid, Lists.Run, Lists.Heads, Lists.Prios, Insert;
      lists.Enqueue(q, current);
      at := at[current.id := WaitQueue(q)];
    }

    /** raw_queue_add_thread for the current thread. */
    method QueueAddCurrent()
      requires Valid() && Inv(View()) && Enabled(View(), Enqueue)
      modifies this`running, this`need, this`at, this`pc, lists.Footprint()
      ensures Valid() && lists.ws.queues == old(lists.ws.queues) && View() == Step(old(View()), Enqueue) && Inv(View())
    {
      hide Lists.Valid, Lists.Run, Lists.Heads, Lists.Prios, Insert, Inv;
      ghost var s := View();
      StepOk(s, Enqueue);
      ListedLoose(s);
      var q := pc.q;
      if current.id in onRq && current.id in running {
        Stop();
      }
      Wait(q);
      SetPc(Enqueued(q));
    }

    /** The start of event_wait: a signal that is there already is dropped. */
    method DiscardSignal(q: Qid)
      requires Valid() && Inv(View()) && Enabled(View(), Discard(q))
      modifies lists.Footprint()
      ensures Valid() && lists.ws.queues == old(lists.ws.queues) && View() == Step(old(View()), Discard(q)) && Inv(View())
    {
      hide Lists.Valid, Lists.Run, Lists.Heads, Lists.Prios, Inv;
      StepOk(View(), Discard(q));
      var taken := TakeSignal(q);
    }

    // ----- the other steps

    /** sched_yield. */
    method SchedYield()
      requires Valid() && Inv(View()) && Enabled(View(), Yield)
      modifies this`need
      ensures Valid() && View() == Step(old(View()), Yield) && Inv(View())
    {
      hide Lists.Valid, Lists.Run, Lists.Heads, Lists.Prios, NextRunnable, Inv, Prio;
      YieldOk(View());
      var next := Next();
      var asGood := AsGood(next);
      if current.id in slice || current.id in need || asGood {
        Mark();
      }
    }

    /** nice, before it yields. */
    method SetNice(prio: nat)
      requires Valid() && Inv(View()) && Enabled(View(), Nice(prio))
      modifies current`base
      ensures Valid() && View() == Step(old(View()), Nice(prio)) && Inv(View())
    {
      hide Lists.Valid, Lists.Run, Lists.Heads, Lists.Prios, Inv, Mid;
      ghost var s := View();
      StepOk(s, Nice(prio));
      InvIsMid(s);
      FreeRuns(s);
      CurrentLoose(s);
      lists.Renice(current, if prio == IDLE_PRIO then IDLE_PRIO - 1 else prio);
    }

    /** A turn of the loop of the idle thread. */
    method IdleTurn()
      requires Valid() && Inv(View()) && Enabled(View(), IdleLoop)
      modifies this`need
      ensures Valid() && View() == Step(old(View()), IdleLoop) && Inv(View())
    {
      hide Lists.Valid, Lists.Run, Lists.Heads, Lists.Prios, Inv;
      StepOk(View(), IdleLoop);
      Mark();
    }

    /** The time slice of the current thread is over. */
    method EndSlice()
      requires Valid() && Inv(View()) && Enabled(View(), Slice)
      modifies this`slice
      ensures Valid() && View() == Step(old(View()), Slice) && Inv(View())
    {
      hide Lists.Valid, Lists.Run, Lists.Heads, Lists.Prios, Inv;
      StepOk(View(), Slice);
      Flag();
    }

    /** The clock goes to `n`. */
    method SetTick(n: int)
      requires Valid() && Inv(View()) && Enabled(View(), Action.Tick(n))
      modifies this`tick
      ensures Valid() && View() == Step(old(View()), Action.Tick(n)) && Inv(View())
    {
      hide Lists.Valid, Lists.Run, Lists.Heads, Lists.Prios, Inv;
      StepOk(View(), Action.Tick(n));
      tick := n;
    }

    // ----- threads and queues

    /** A new thread is queued to run. */
    method StartThread(tp: Thread)
      requires Valid() && Inv(View()) && Enabled(View(), Start(tp.id, tp.base)) && !tp.idle && tp.dprio == 0
      modifies this`num, this`at, this`since, this`running, this`onRq, lists`table, lists.Footprint(), tp
      ensures Valid() && View() == Step(old(View()), Start(tp.id, old(tp.base))) && Inv(View())
      ensures lists.Footprint() == old(lists.Footprint()) + {tp}
    {
      hide Lists.Valid, Lists.Run, Lists.Heads, RqAdd, Inv;
      StepOk(View(), Start(tp.id, tp.base));
      NewLoose(View(), tp.id);
      Register(tp);
      AddThread(tp);
    }

    method Register(tp: Thread)
      requires Valid() && tp.id !in lists.table && !tp.idle && tp.dprio == 0
      modifies lists`table
      ensures Valid() && Known(lists.table, tp) && lists.Footprint() == old(lists.Footprint()) + {tp}
      ensures View() == old(View()).(prio := old(View()).prio[tp.id := tp.base])
    {
      hide Lists.Valid, Lists.Run, Lists.Heads;
      lists.Register(tp);
    }

    /** thread_queue_init. */
    method OpenQueue(q: Qid)
      requires Valid() && Inv(View()) && Enabled(View(), Open(q))
      modifies lists.ws`queues
      ensures Valid() && View() == Step(old(View()), Open(q)) && Inv(View())
      ensures fresh(lists.Footprint() - old(lists.Footprint())) && old(lists.Footprint()) <= lists.Footprint()
    {
      hide Lists.Valid, Lists.Run, Lists.Heads, Lists.Prios, Inv;
      StepOk(View(), Open(q));
      lists.Open(q);
    }
  }

  lemma ListedLoose(s: State)
    requires Inv(s) && s.pc.Listed?
    ensures !Member(s.rq, s.current) && forall p :: p in s.waits ==> !Has(s.waits[p], s.current)
  {
    InvIsMid(s);
    CurrentLoose(s);
  }

  lemma NewLoose(s: State, t: Tid)
    requires Inv(s) && t !in s.prio
    ensures !Member(s.rq, t) && forall p :: p in s.waits ==> !Has(s.waits[p], t)
  {
    forall p | p in s.waits
      ensures !Has(s.waits[p], t)
    {
      assert !InList(s, p, t);
    }
  }

  lemma FreeRuns(s: State)
    requires Inv(s) && Free(s)
    ensures s.current in s.running
  {
  }

  lemma YieldOk(s: State)
    requires Inv(s) && Enabled(s, Yield)
    ensures Inv(Step(s, Yield))
  {
    StepOk(s, Yield);
  }

  lemma PickedReady(m: State)
    ensures Picked(m).pc == Ready
  {
  }

  lemma InvIsMid(s: State)
    requires Inv(s)
    ensures Mid(s)
  {
  }

  /** A current thread that is RUNNING is in no queue. */
  lemma CurrentLoose(s: State)
    requires Mid(s)
    ensures !Member(s.rq, s.current) && (s.current in s.running ==> forall p :: p in s.waits ==> !Has(s.waits[p], s.current))
  {
    forall p | p in s.waits && s.current in s.running
      ensures !Has(s.waits[p], s.current)
    {
      assert !InList(s, p, s.current);
    }
  }

  /** The threads on the wake list are started. */
  lemma WakeStarted(s: State)
    requires Mid(s)
    ensures forall t :: t in s.wake ==> t in s.prio
  {
    forall t | t in s.wake
      ensures t in s.prio
    {
      if Waiting(s, t) {
        assert InList(s, s.at[t].q, t);
      }
    }
  }

  /** A thread whose `queue` field points at a wait queue is in its list. */
  lemma WaitsThere(s: State, t: Tid) returns (list: seq<Entry<Tid>>)
    requires Mid(s) && t in s.at && s.at[t].WaitQueue?
    ensures s.at[t].q in s.waits && s.waits[s.at[t].q] == Threads(list) && Member(list, t) && list != []
  {
    assert InList(s, s.at[t].q, t);
    list := s.waits[s.at[t].q].q;
  }

  /** A thread with events heads its queue, so the count goes down at the head. */
  lemma CountedDownOk(s: State, q: Qid, list: seq<Entry<Tid>>, t: Tid)
    requires Mid(s) && q in s.waits && s.waits[q] == Threads(list) && EcOf(list, t) != 0
    ensures list != [] && CountedDown(list, t) == Recounted(list, list[0].ec - 1)
    ensures Mid(s.(waits := s.waits[q := Threads(Recounted(list, list[0].ec - 1))]))
  {
    assert HeadOk(s.waits[q]);
    CountedHead(list, t);
    RecountOk(s, q, list[0].ec - 1);
  }

  /** The woken thread is in no queue of the step system. */
  lemma WokenLoose(s: State, q: Qid)
    requires Mid(s) && q in s.waits && s.waits[q].Threads? && s.waits[q].q != []
    ensures var tp, off := s.waits[q].q[0].id, TakenOff(s, q);
            !Member(off.rq, tp) && forall p :: p in off.waits ==> !Has(off.waits[p], tp)
  {
    TakenOffLists(s, q);
    var tp, off := s.waits[q].q[0].id, TakenOff(s, q);
    assert InList(s, q, tp);
    forall p | p in off.waits
      ensures !Has(off.waits[p], tp)
    {
      assert !InList(off, p, tp);
    }
  }
}
