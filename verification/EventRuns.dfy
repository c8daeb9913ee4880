/** Events over whole runs: a posted event stays on record until a waiter is woken for it
    or a wait consumes it, and the scheduler delivers what is on record. */
module EventRuns {
  import opened QueueSpec
  import opened Scheduler
  import opened SchedulerRuns
  import opened Wrappers

  // ----- rq_signal_threads delivers

  /** A round of the signal loop touches the queue of the thread it looks at, and only
      when that thread heads it and has events. */
  lemma SignalOneLocal(s: State, t: Tid, q: Qid)
    requires Mid(s) && q in s.waits
    requires s.waits[q].Signaled? || s.waits[q].q == [] || s.waits[q].q[0].id != t
    ensures q in SignalOne(s, t).waits && SignalOne(s, t).waits[q] == s.waits[q]
  {
    if t in s.at && s.at[t].WaitQueue? && s.at[t].q in s.waits && s.waits[s.at[t].q].Threads? {
      var p := s.at[t].q;
      var list := s.waits[p].q;
      assert HeadOk(s.waits[p]);
      CountedHead(list, t);
    }
  }

  lemma {:induction false} SignaledStays(s: State, list: seq<Tid>, q: Qid)
    requires Mid(s) && q in s.waits && s.waits[q].Signaled?
    ensures q in SignalThreads(s, list).waits && SignalThreads(s, list).waits[q].Signaled?
    decreases |list|
  {
    if list != [] {
      SignalOneOk(s, list[0]);
      SignalOneLocal(s, list[0], q);
      SignaledStays(SignalOne(s, list[0]), list[1..], q);
    }
  }

  lemma SignalOneWakes(s: State, q: Qid)
    requires Mid(s) && q in s.waits && s.waits[q].Threads? && s.waits[q].q != [] && s.waits[q].q[0].ec > 0
    ensures s.waits[q].q[0].id in SignalOne(s, s.waits[q].q[0].id).running
  {
    var list := s.waits[q].q;
    var t := list[0].id;
    assert InList(s, q, t) && HeadOk(s.waits[q]) && s.at[t] == WaitQueue(q);
    CountedHead(list, t);
    RecountOk(s, q, list[0].ec - 1);
    WakeHeadOk(s.(waits := s.waits[q := Threads(CountedDown(list, t))]), q);
  }

  lemma {:induction false} SignalReaches(s: State, list: seq<Tid>, q: Qid)
    requires Mid(s) && q in s.waits && s.waits[q].Threads? && s.waits[q].q != [] && s.waits[q].q[0].ec > 0
    requires s.waits[q].q[0].id in list
    ensures s.waits[q].q[0].id in SignalThreads(s, list).running
    decreases |list|
  {
    var t, n := s.waits[q].q[0].id, SignalOne(s, list[0]);
    SignalOneOk(s, list[0]);
    if list[0] == t {
      SignalOneWakes(s, q);
      SignalThreadsOk(n, list[1..]);
    } else {
      SignalOneLocal(s, list[0], q);
      SignalReaches(n, list[1..], q);
    }
  }

  /** A waiter that heads its queue without events is not signaled. */
  lemma {:induction false} NotSignaled(s: State, list: seq<Tid>, q: Qid)
    requires Mid(s) && q in s.waits && s.waits[q].Threads? && s.waits[q].q != [] && s.waits[q].q[0].ec == 0
    ensures s.waits[q].q[0].id !in SignalThreads(s, list).running
    decreases |list|
  {
    assert InList(s, q, s.waits[q].q[0].id);
    if list != [] {
      var n := SignalOne(s, list[0]);
      SignalOneOk(s, list[0]);
      if list[0] != s.waits[q].q[0].id {
        SignalOneLocal(s, list[0], q);
      }
      NotSignaled(n, list[1..], q);
    }
  }

  /** One call of __schedule makes the head of a queue, which is blocked, RUNNING if and
      only if it has pending events. */
  lemma ScheduleDelivers(s: State, q: Qid)
    requires Inv(s) && Enabled(s, Schedule)
    requires q in s.waits && s.waits[q].Threads? && s.waits[q].q != []
    ensures var e := s.waits[q].q[0];
            e.id !in s.running && 0 <= e.ec < 256 && (e.id in Step(s, Schedule).running <==> e.ec > 0)
  {
    var t := s.waits[q].q[0].id;
    assert InList(s, q, t) && t in s.wake && HeadOk(s.waits[q]);
    ScheduleChooses(s);
    if s.waits[q].q[0].ec > 0 {
      SignalReaches(s, s.wake, q);
    } else {
      NotSignaled(s, s.wake, q);
    }
  }

  // ----- no lost wake-up

  /** A wait that takes the signal instead of blocking. */
  predicate Consumes(s: State, a: Action, q: Qid)
  {
    q in s.waits && s.waits[q].Signaled? && (a == Check(q) || a == Discard(q))
  }

  /** A waiter of the queue became RUNNING. */
  ghost predicate WokeOne(s: State, n: State, q: Qid)
  {
    exists t :: InList(s, q, t) && t in n.running
  }

  /** The 8-bit counter of the head goes from 255 back to 0. */
  predicate Wraps(s: State, a: Action, q: Qid)
  {
    a == NotifyIrq(q) && q in s.waits && s.waits[q].Threads? && s.waits[q].q != [] && s.waits[q].q[0].ec == 255
  }

  lemma ScheduleKeeps(s: State, q: Qid)
    requires Inv(s) && Enabled(s, Schedule) && q in s.waits && Recorded(s.waits[q])
    ensures var n := Step(s, Schedule);
            q in n.waits && (Recorded(n.waits[q]) || WokeOne(s, n, q))
  {
    SignalThreadsOk(s, s.wake);
    ScheduleChooses(s);
    if s.waits[q].Signaled? {
      SignaledStays(s, s.wake, q);
    } else {
      ScheduleDelivers(s, q);
      assert InList(s, q, s.waits[q].q[0].id);
    }
  }

  /** The other steps leave the head of `q` as it is, or take its signal. */
  lemma HeadStays(s: State, a: Action, q: Qid)
    requires Inv(s) && Enabled(s, a) && q in s.waits && !Consumes(s, a, q)
    requires !(a.Enqueue? && s.pc.q == q) && !a.NotifyCommit? && !a.Schedule? && a != NotifyIrq(q)
    ensures q in Step(s, a).waits && Step(s, a).waits[q] == s.waits[q]
  {
    if a.Start? || a.Open? || a.Yield? || a.Nice? || a.IdleLoop? || a.Slice? || a.Tick? || a.List? || a.NotifyRead? {
      QueuesStay(s, a, q);
    }
  }

  lemma QueuesStay(s: State, a: Action, q: Qid)
    requires Enabled(s, a) && q in s.waits
    requires a.Start? || a.Open? || a.Yield? || a.Nice? || a.IdleLoop? || a.Slice? || a.Tick? || a.List? || a.NotifyRead?
    ensures q in Step(s, a).waits && Step(s, a).waits[q] == s.waits[q]
  {
  }

  lemma CommitKeeps(s: State, q: Qid)
    requires Inv(s) && Enabled(s, NotifyCommit) && StepSafe(s, NotifyCommit) && q in s.waits && Recorded(s.waits[q])
    ensures var n := Step(s, NotifyCommit);
            q in n.waits && (Recorded(n.waits[q]) || WokeOne(s, n, q))
  {
    var r, off := s.seen[s.current], s.(seen := s.seen - {s.current});
    if r.found == Waiters {
      EndedIsMid(s);
      WakeHeadOk(off, r.q);
      assert InList(s, r.q, s.waits[r.q].q[0].id);
    }
  }

  /** No step but an unsafe write of event_notify loses an event: it stays on record,
      unless a wait takes it, a waiter is made RUNNING for it, or an interrupt posts to a
      full counter. */
  lemma EventKept(s: State, a: Action, q: Qid)
    requires Inv(s) && Enabled(s, a) && StepSafe(s, a) && q in s.waits && Recorded(s.waits[q])
    ensures var n := Step(s, a);
            q in n.waits && (Recorded(n.waits[q]) || Consumes(s, a, q) || WokeOne(s, n, q) || Wraps(s, a, q))
  {
    if Consumes(s, a, q) {
    } else if a.Enqueue? && s.pc.q == q {
      EnqueuedHead(s, q);
    } else if a.NotifyCommit? {
      CommitKeeps(s, q);
    } else if a.Schedule? {
      ScheduleKeeps(s, q);
    } else if a == NotifyIrq(q) {
      assert HeadOk(s.waits[q]);
    } else {
      HeadStays(s, a, q);
    }
  }

  /** An interrupt's post is recorded if and only if the head's counter is not full. */
  lemma IrqPostRecorded(s: State, q: Qid)
    requires Inv(s) && q in s.waits
    ensures Recorded(Step(s, NotifyIrq(q)).waits[q]) <==> !Wraps(s, NotifyIrq(q), q)
  {
    assert HeadOk(s.waits[q]);
  }

  // ----- event_notify reads the head before it disables preemption

  /** The reading still tells what is to be done: a queue found empty has no waiters, one
      found signaled has its event still, one found with waiters has a waiter. */
  predicate Fresh(s: State, r: Reading)
    requires r.q in s.waits
  {
    Safe(s, r) && (r.found == Signal ==> Recorded(s.waits[r.q]))
  }

  /** A thread's post is answered, by an event on record or a waiter made RUNNING, with
      nobody lost, exactly when its reading is fresh. */
  lemma PostAnswered(s: State)
    requires Inv(s) && Enabled(s, NotifyCommit)
    ensures var r, n := s.seen[s.current], Step(s, NotifyCommit);
            Inv(n) && r.q in n.waits && (Recorded(n.waits[r.q]) || WokeOne(s, n, r.q)) <==> Fresh(s, r)
  {
    hide RunQueueOk, WakeOk, HomesOk, CurrentOk, Mid;
    var r, off := s.seen[s.current], s.(seen := s.seen - {s.current});
    CommitOk(s);
    if r.found == Waiters && FoundAt(s.waits[r.q]) == Waiters {
      EndedIsMid(s);
      WakeHeadOk(off, r.q);
      assert InList(s, r.q, s.waits[r.q].q[0].id);
    }
  }

  /** Interrupts alone, between two schedules. */
  predicate Interrupts(acts: seq<Action>)
  {
    forall i :: 0 <= i < |acts| ==> acts[i].NotifyIrq? || acts[i].Slice? || acts[i].Tick?
  }

  /** The current thread is in event_notify and the head is as it found it, or was
      signaled since. */
  predicate JustRead(s: State)
  {
    && s.pc.Ready? && s.current in s.seen
    && var r := s.seen[s.current];
    && r.q in s.waits && (FoundAt(s.waits[r.q]) == r.found || (r.found == Nobody && s.waits[r.q].Signaled?))
  }

  lemma {:induction false} StillJustRead(s: State, acts: seq<Action>)
    requires Inv(s) && CanRun(s, acts) && Interrupts(acts) && JustRead(s)
    ensures Inv(Run(s, acts)) && JustRead(Run(s, acts))
    decreases |acts|
  {
    if acts != [] {
      StepOk(s, acts[0]);
      StillJustRead(Step(s, acts[0]), acts[1..]);
    }
  }

  /** So event_notify is right when no other thread runs between its read and its write,
      as in mutex_unlock, whose caller has preemption off. */
  lemma Unpreempted(s: State, q: Qid, acts: seq<Action>)
    requires Inv(s) && Enabled(s, NotifyRead(q)) && CanRun(Step(s, NotifyRead(q)), acts) && Interrupts(acts)
    ensures var n := Run(Step(s, NotifyRead(q)), acts);
            Enabled(n, NotifyCommit) && Fresh(n, n.seen[n.current]) && Inv(Step(n, NotifyCommit))
  {
    StepOk(s, NotifyRead(q));
    var m := Step(s, NotifyRead(q));
    StillJustRead(m, acts);
    CommitOk(Run(m, acts));
  }

  /** No step of the run takes an event of `q`, wakes one of its waiters or overruns
      its counter. */
  ghost predicate Unanswered(s: State, acts: seq<Action>, q: Qid)
    requires CanRun(s, acts)
    decreases |acts|
  {
    acts == [] ||
    (!Consumes(s, acts[0], q) && !WokeOne(s, Step(s, acts[0]), q) && !Wraps(s, acts[0], q)
     && Unanswered(Step(s, acts[0]), acts[1..], q))
  }

  /** Over every safe interleaving of steps a posted event is on record as long as nobody
      was woken for it or took it; and then the next schedule wakes the waiter, if there
      is one by then. */
  lemma {:induction false} NoLostWakeup(s: State, acts: seq<Action>, q: Qid)
    requires Inv(s) && q in s.waits && Recorded(s.waits[q])
    requires CanRun(s, acts) && RunSafe(s, acts) && Unanswered(s, acts, q)
    ensures var n := Run(s, acts);
            && q in n.waits && Recorded(n.waits[q])
            && (Enabled(n, Schedule) && n.waits[q].Threads? ==> WokeOne(n, Step(n, Schedule), q))
    decreases |acts|
  {
    if acts == [] {
      if Enabled(s, Schedule) && s.waits[q].Threads? {
        ScheduleDelivers(s, q);
        assert InList(s, q, s.waits[q].q[0].id);
      }
    } else {
      EventKept(s, acts[0], q);
      StepOk(s, acts[0]);
      NoLostWakeup(Step(s, acts[0]), acts[1..], q);
    }
  }

  // ----- a wait that finds the queue empty

  /** How many of the steps are posts of interrupts to `q`. */
  function PostCount(acts: seq<Action>, q: Qid): nat
  {
    if acts == [] then 0 else (if acts[0] == NotifyIrq(q) then 1 else 0) + PostCount(acts[1..], q)
  }

  /** The current thread waits on `q` and is the first one there. */
  predicate FirstInLine(s: State, q: Qid)
  {
    s.pc == Enqueued(q) && q in s.waits && s.waits[q].Threads? && s.waits[q].q != [] && s.waits[q].q[0].id == s.current
  }

  predicate NoSchedule(acts: seq<Action>)
  {
    forall i :: 0 <= i < |acts| ==> !acts[i].Schedule?
  }

  lemma FirstStays(s: State, a: Action, q: Qid)
    requires Inv(s) && Enabled(s, a) && !a.Schedule? && FirstInLine(s, q)
    ensures var n := Step(s, a);
            FirstInLine(n, q) && n.current == s.current && n.waits[q].q[0].ec == (s.waits[q].q[0].ec + PostCount([a], q)) % 256
  {
    assert HeadOk(s.waits[q]) && [a][1..] == [];
  }

  lemma FirstWakes(s: State, q: Qid)
    requires Inv(s) && FirstInLine(s, q)
    ensures Enabled(s, Schedule) && (s.current in Step(s, Schedule).running <==> s.waits[q].q[0].ec % 256 != 0)
  {
    hide Step;
    ScheduleDelivers(s, q);
  }

  /** From the moment it is queued, the posts to the first waiter add up modulo 256, and
      the schedule it is about to call leaves it blocked exactly when they add up to 0. */
  lemma {:induction false} PostsWhileQueued(s: State, acts: seq<Action>, q: Qid)
    requires Inv(s) && FirstInLine(s, q) && CanRun(s, acts) && NoSchedule(acts)
    ensures var n := Run(s, acts);
            && Enabled(n, Schedule) && n.current == s.current
            && (s.current in Step(n, Schedule).running <==> (s.waits[q].q[0].ec + PostCount(acts, q)) % 256 != 0)
    decreases |acts|
  {
    hide Inv, Step;
    if acts == [] {
      FirstWakes(s, q);
    } else {
      var n := Step(s, acts[0]);
      StepOk(s, acts[0]);
      FirstStays(s, acts[0], q);
      PostsWhileQueued(n, acts[1..], q);
      ModSum(s.waits[q].q[0].ec + PostCount([acts[0]], q), PostCount(acts[1..], q));
    }
  }

  lemma ModSum(a: int, b: int)
    ensures (a % 256 + b) % 256 == (a + b) % 256
  {
  }

  /** The current thread is in raw_event_wait on `q`, not queued yet, and nobody else waits
      there. */
  predicate Alone(s: State, q: Qid)
  {
    (s.pc.Checked? || s.pc.Listed?) && s.pc.q == q && q in s.waits && (s.waits[q].Signaled? || s.waits[q].q == [])
  }

  lemma AloneStep(s: State, a: Action, q: Qid)
    requires Inv(s) && Enabled(s, a) && !a.Schedule? && !a.Enqueue? && Alone(s, q)
    ensures var n := Step(s, a);
            Alone(n, q) && n.current == s.current && (n.waits[q].Signaled? <==> s.waits[q].Signaled? || a == NotifyIrq(q))
  {
  }

  lemma {:induction false} PostsBeforeQueued(s: State, acts: seq<Action>, q: Qid)
    requires Inv(s) && Alone(s, q) && CanRun(s, acts) && NoSchedule(acts) && Enqueue !in acts
    ensures var n := Run(s, acts);
            Inv(n) && Alone(n, q) && n.current == s.current && (n.waits[q].Signaled? <==> s.waits[q].Signaled? || NotifyIrq(q) in acts)
    decreases |acts|
  {
    if acts != [] {
      assert acts == [acts[0]] + acts[1..];
      StepOk(s, acts[0]);
      AloneStep(s, acts[0], q);
      PostsBeforeQueued(Step(s, acts[0]), acts[1..], q);
    }
  }

  /** The window of raw_event_wait, from the check to the schedule, with any interrupts in
      it: all posts before the thread is queued leave one event, the others count modulo
      256, and the waiter is RUNNING again after that schedule exactly when the sum is not
      0. */
  lemma PostDuringWait(s: State, before: seq<Action>, after: seq<Action>, q: Qid)
    requires Inv(s) && Alone(s, q) && NoSchedule(before) && Enqueue !in before && NoSchedule(after)
    requires CanRun(s, before) && Enabled(Run(s, before), Enqueue) && CanRun(Step(Run(s, before), Enqueue), after)
    ensures var n := Run(Step(Run(s, before), Enqueue), after);
            var first := if s.waits[q].Signaled? || NotifyIrq(q) in before then 1 else 0;
            && Enabled(n, Schedule) && n.current == s.current
            && (s.current in Step(n, Schedule).running <==> (first + PostCount(after, q)) % 256 != 0)
  {
    hide Inv, Run, CanRun;
    PostsBeforeQueued(s, before, q);
    var m := Run(s, before);
    StepOk(m, Enqueue);
    PostsWhileQueued(Step(m, Enqueue), after, q);
  }
}
