/** What the steps of the scheduler do, told by the flags and queues before and after. */
module SchedulerLaws {
  import opened QueueSpec
  import opened Scheduler
  import opened SchedulerRuns
  import opened Wrappers

  // ----- waking

  /** The thread is made RUNNING between the two states, and is not the current one. */
  ghost predicate Woken(s: State, n: State, t: Tid)
  {
    t != s.current && t !in s.running && t in n.running
  }

  /** Some woken thread has a priority value of at most the current one's. */
  ghost predicate Challenged(s: State, n: State)
  {
    exists t :: Woken(s, n, t) && t in s.prio && s.current in s.prio && s.prio[t] <= s.prio[s.current]
  }

  /** Nobody but the current thread is asked to give way, and it is asked exactly when it
      was before or is challenged. */
  ghost predicate AsksRightly(s: State, n: State)
  {
    n.current == s.current && n.prio == s.prio &&
    forall t :: t in n.need <==> t in s.need || (t == s.current && Challenged(s, n))
  }

  /** The first waiter of `q` has left, with an event more than `ec` left to the next one,
      and the queue is signaled when there is none. */
  predicate FirstGone(before: seq<Entry<Tid>>, h: Head<Tid>, ec: int)
    requires before != []
  {
    if |before| == 1 then h == Signaled
    else h.Threads? && |h.q| == |before| - 1 && h.q[0].ec == ec
         && forall i :: 0 <= i < |h.q| ==> h.q[i].id == before[i + 1].id
  }

  lemma WakeMarks(s: State, q: Qid)
    requires Mid(s) && q in s.waits && s.waits[q].Threads? && s.waits[q].q != []
    ensures var t, n := s.waits[q].q[0].id, WakeHead(s, q);
            && t !in s.running && n.running == s.running + {t} && t !in n.wake
            && (t != s.current ==> Member(n.rq, t) && t in n.since && n.since[t] == s.tick)
            && AsksRightly(s, n)
            && n.waits.Keys == s.waits.Keys && FirstGone(s.waits[q].q, n.waits[q], s.waits[q].q[0].ec)
            && forall p :: p in s.waits && p != q ==> n.waits[p] == s.waits[p]
  {
    var list := s.waits[q].q;
    var t, n := list[0].id, WakeHead(s, q);
    HeadWaits(s, q);
    WakeHeadOk(s, q);
    assert HeadOk(s.waits[q]);
    FirstLeft(list);
    LeavesWakeList(s, q);
    if t != s.current {
      QueuedNow(TakenOff(s, q), t);
      assert Woken(s, n, t);
    }
    WakeAsks(s, q);
  }

  lemma FirstLeft(list: seq<Entry<Tid>>)
    requires list != [] && HeadOk(Threads(list))
    ensures FirstGone(list, AfterFirst(list), list[0].ec)
  {
    if |list| > 1 {
      assert NoEvents(list[1..]) && list[1..][0] == list[1];
    }
  }

  lemma LeavesWakeList(s: State, q: Qid)
    requires Mid(s) && q in s.waits && s.waits[q].Threads? && s.waits[q].q != []
    ensures s.waits[q].q[0].id !in WakeHead(s, q).wake
  {
    WithoutMembers(s.wake, s.waits[q].q[0].id);
  }

  lemma QueuedNow(s: State, t: Tid)
    ensures Member(RqAdd(s, t).rq, t) && t in RqAdd(s, t).since && RqAdd(s, t).since[t] == s.tick
  {
    PlaceMembers(s.order, s.rq, Entry(t, KeyOf(s, t), 0), t);
  }

  lemma WakeAsks(s: State, q: Qid)
    requires Mid(s) && q in s.waits && s.waits[q].Threads? && s.waits[q].q != []
    ensures AsksRightly(s, WakeHead(s, q))
  {
    var t, n := s.waits[q].q[0].id, WakeHead(s, q);
    HeadWaits(s, q);
    if t != s.current {
      assert Woken(s, n, t) && forall x :: Woken(s, n, x) ==> x == t;
    } else {
      assert forall x :: !Woken(s, n, x);
    }
  }

  /** event_notify on a queue where it found waiters, and there are: the first one is made
      RUNNING and queued to run, and the caller is asked to give way exactly when it was
      before or the woken thread's priority value is at most its own. */
  lemma NotifyWakes(s: State)
    requires Inv(s) && Enabled(s, NotifyCommit)
    requires var r := s.seen[s.current]; r.found == Waiters && FoundAt(s.waits[r.q]) == Waiters
    ensures var q, n := s.seen[s.current].q, Step(s, NotifyCommit);
            var t := s.waits[q].q[0].id;
            && t !in s.running && n.running == s.running + {t} && t !in n.wake && t != s.current
            && Member(n.rq, t) && n.current == s.current
            && t in s.prio && s.current in s.prio
            && (s.current in n.need <==> s.current in s.need || s.prio[t] <= s.prio[s.current])
            && (forall x :: x != s.current ==> (x in n.need <==> x in s.need))
            && q in n.waits && FirstGone(s.waits[q].q, n.waits[q], s.waits[q].q[0].ec)
  {
    var q, off := s.seen[s.current].q, s.(seen := s.seen - {s.current});
    EndedIsMid(s);
    HeadWaits(off, q);
    WakeMarks(off, q);
    var t, n := s.waits[q].q[0].id, WakeHead(off, q);
    assert Woken(off, n, t) && forall x :: Woken(off, n, x) ==> x == t;
  }

  /** One event is used up and one waiter woken for it: the first one, as events are on
      the first thread only. The others keep what events are left. */
  lemma EventWakesOne(s: State, t: Tid)
    requires Mid(s) && t in s.at && s.at[t].WaitQueue? && s.at[t].q in s.waits && s.waits[s.at[t].q].Threads?
    requires EcOf(s.waits[s.at[t].q].q, t) > 0
    ensures var q, n := s.at[t].q, SignalOne(s, t);
            && s.waits[q].q[0].id == t && n.running == s.running + {t} && AsksRightly(s, n)
            && q in n.waits && FirstGone(s.waits[q].q, n.waits[q], s.waits[q].q[0].ec - 1)
  {
    var q := s.at[t].q;
    var list := s.waits[q].q;
    assert HeadOk(s.waits[q]) && InList(s, q, t);
    CountedHead(list, t);
    RecountOk(s, q, list[0].ec - 1);
    var used := s.(waits := s.waits[q := Threads(CountedDown(list, t))]);
    WakeMarks(used, q);
    assert forall x :: Woken(used, SignalOne(s, t), x) <==> Woken(s, SignalOne(s, t), x);
  }

  /** A round of rq_signal_threads for a thread without events does nothing. */
  lemma NoEventNoWake(s: State, t: Tid)
    requires Mid(s)
    requires t in s.at && s.at[t].WaitQueue? && s.at[t].q in s.waits && s.waits[s.at[t].q].Threads? ==>
      EcOf(s.waits[s.at[t].q].q, t) == 0
    ensures SignalOne(s, t) == s && AsksRightly(s, s)
  {
    assert forall x :: !Woken(s, s, x);
  }

  lemma SignalAsks(s: State, t: Tid)
    requires Mid(s)
    ensures AsksRightly(s, SignalOne(s, t)) && s.running <= SignalOne(s, t).running
  {
    SignalOneOk(s, t);
    if t in s.at && s.at[t].WaitQueue? && s.at[t].q in s.waits && s.waits[s.at[t].q].Threads? && EcOf(s.waits[s.at[t].q].q, t) != 0 {
      assert HeadOk(s.waits[s.at[t].q]);
      CountedHead(s.waits[s.at[t].q].q, t);
      EventWakesOne(s, t);
    } else {
      NoEventNoWake(s, t);
    }
  }

  lemma AsksThrough(s: State, m: State, n: State)
    requires AsksRightly(s, m) && AsksRightly(m, n) && s.running <= m.running <= n.running
    ensures AsksRightly(s, n)
  {
    forall t
      ensures Woken(s, n, t) <==> Woken(s, m, t) || Woken(m, n, t)
    {
    }
    if Challenged(s, m) {
      var t :| Woken(s, m, t) && t in s.prio && s.current in s.prio && s.prio[t] <= s.prio[s.current];
      assert Woken(s, n, t);
    }
    if Challenged(m, n) {
      var t :| Woken(m, n, t) && t in m.prio && m.current in m.prio && m.prio[t] <= m.prio[m.current];
      assert Woken(s, n, t);
    }
  }

  /** The signals __schedule delivers: the thread that called is asked to give way exactly
      when it was before or one of the threads woken challenges it. */
  lemma {:induction false} SignalsAsk(s: State, list: seq<Tid>)
    requires Mid(s)
    ensures AsksRightly(s, SignalThreads(s, list)) && s.running <= SignalThreads(s, list).running
    decreases |list|
  {
    if list == [] {
      assert forall x :: !Woken(s, s, x);
    } else {
      SignalOneOk(s, list[0]);
      SignalAsks(s, list[0]);
      SignalsAsk(SignalOne(s, list[0]), list[1..]);
      AsksThrough(s, SignalOne(s, list[0]), SignalThreads(s, list));
    }
  }

  /** So a RUNNING thread keeps the CPU from the idle thread exactly when nobody asked it
      to give way and no waiter that is woken challenges it. */
  lemma IdleWaits(s: State)
    requires Inv(s) && Enabled(s, Schedule) && s.current in s.running && s.current != s.idle
    ensures var m, n := SignalThreads(s, s.wake), Step(s, Schedule);
            m.rq != [] &&
            (n.current == s.current <==> m.rq[0].id == s.idle && s.current !in s.need && !Challenged(s, n))
  {
    var m, n := SignalThreads(s, s.wake), Step(s, Schedule);
    SignalThreadsOk(s, s.wake);
    SignalsAsk(s, s.wake);
    ScheduleChooses(s);
    assert Member(m.rq, m.idle);
    assert forall t :: Woken(s, m, t) <==> Woken(s, n, t);
  }

  // ----- who is due first

  /** Under EDF nobody is passed over for a thread that came more than 138 ticks later, and
      the idle thread waits for all that come within 15778462999862 ticks. */
  lemma EdfFair(m: State, next: Tid, t: Tid)
    requires m.order == Edf && m.rq != [] && Least(m, next) && Member(m.rq, t) && t != next && t != m.idle
    requires m.prio[t] <= 255 && m.prio[next] <= 255
    ensures m.since[next] <= m.since[t] + 138
    ensures next == m.idle ==> m.since[next] + 15778462999862 <= m.since[t]
  {
    assert Due(m, next) <= Due(m, t);
  }

  // ----- the flags and the priority

  /** sched_yield asks the current thread to give way when its time slice is over or the
      first queued thread has a priority value of at most its own, or when nobody is queued. */
  lemma YieldAsks(s: State)
    requires Inv(s) && Enabled(s, Yield)
    ensures var n := Step(s, Yield);
            && n == s.(need := n.need) && (forall t :: t != s.current ==> (t in n.need <==> t in s.need))
            && (s.current in n.need <==>
                  s.current in s.need || s.current in s.slice || s.rq == [] || s.prio[s.rq[0].id] <= s.prio[s.current])
  {
    NextIsHead(s);
    if s.rq != [] {
      assert Member(s.rq, s.rq[0].id);
    }
  }

  /** The idle thread asks to be replaced on every turn; the end of a slice marks the
      current thread, until it calls schedule; and a timer interrupt sets the time. */
  lemma FlagsSet(s: State)
    requires Inv(s) && Enabled(s, Slice)
    ensures var n := Step(s, Slice);
            n == s.(slice := n.slice) && forall t :: t in n.slice <==> t in s.slice || t == s.current
    ensures Enabled(s, IdleLoop) ==>
      var n := Step(s, IdleLoop);
      n == s.(need := n.need) && forall t :: t in n.need <==> t in s.need || t == s.current
    ensures forall k :: Enabled(s, Tick(k)) && Step(s, Tick(k)).tick == k && Step(s, Tick(k)) == s.(tick := k)
  {
    hide Inv, RqAdd, EnqueueCurrent, Committed, Rescheduled, NextRunnable, Insert, Posted, FoundAt;
  }

  /** nice sets the priority of the current thread, but never to that of the idle thread. */
  lemma NiceSets(s: State, p: nat)
    requires Inv(s) && Enabled(s, Nice(p))
    ensures var n := Step(s, Nice(p));
            && n == s.(prio := n.prio) && s.current in n.prio && n.prio[s.current] < 255
            && (p < 255 ==> n.prio[s.current] == p) && (p == 255 ==> n.prio[s.current] == 254)
            && forall t :: t != s.current ==> (t in n.prio <==> t in s.prio) && (t in s.prio ==> n.prio[t] == s.prio[t])
  {
  }

  /** A new thread is RUNNING and queued to run with its priority. */
  lemma StartQueues(s: State, t: Tid, p: nat)
    requires Inv(s) && Enabled(s, Start(t, p))
    ensures var n := Step(s, Start(t, p));
            && t in n.running && Member(n.rq, t) && t in n.prio && n.prio[t] == p && t in n.since && n.since[t] == s.tick
            && (s.order == Rr ==> QueuedKey(n.rq, t) == p)
            && n.current == s.current && n.need == s.need && n.waits == s.waits
            && forall x :: x != t ==> (Member(n.rq, x) <==> Member(s.rq, x)) && (x in s.prio ==> x in n.prio && n.prio[x] == s.prio[x])
  {
    StepOk(s, Start(t, p));
    var known, n := s.(prio := s.prio[t := p]), Step(s, Start(t, p));
    assert !Member(s.rq, t);
    QueuedNow(known, t);
    forall x
      ensures Member(n.rq, x) <==> Member(s.rq, x) || x == t
    {
      PlaceMembers(s.order, s.rq, Entry(t, KeyOf(known, t), 0), x);
    }
    QueuedBy(n, n.rq, t);
  }

  // ----- the wait

  /** The check of a wait takes a signal, and then the thread does not wait; else it goes
      on. event_wait drops a signal that was there before it. */
  lemma CheckTakes(s: State, q: Qid)
    requires Inv(s) && Enabled(s, Check(q))
    ensures var n := Step(s, Check(q));
            if s.waits[q].Signaled? then n == s.(waits := n.waits) && q in n.waits && n.waits[q] == Threads([]) && n.pc == Ready
            else n == s.(pc := Checked(q))
    ensures var n := Step(s, Discard(q));
            n == s.(waits := n.waits) && n.waits.Keys == s.waits.Keys && !n.waits[q].Signaled?
            && (!s.waits[q].Signaled? ==> n.waits[q] == s.waits[q])
            && forall p :: p in s.waits && p != q ==> n.waits[p] == s.waits[p]
  {
  }

  /** The thread that waits comes first in the wake list and last in the queue; a signal it
      finds there is its event. */
  lemma WaitJoins(s: State)
    requires Inv(s)
    ensures Enabled(s, List) ==> var n := Step(s, List); n.wake == [s.current] + s.wake && n.waits == s.waits && n.rq == s.rq
    ensures Enabled(s, Enqueue) ==>
      var n, q := Step(s, Enqueue), s.pc.q;
      && q in n.waits && n.waits[q].Threads? && n.waits[q].q != [] && n.waits[q].q[|n.waits[q].q| - 1].id == s.current
      && (s.waits[q].Signaled? ==> n.waits[q].q == [Entry(s.current, 0, 1)])
      && (s.waits[q].Threads? ==> n.waits[q].q == s.waits[q].q + [Entry(s.current, 0, 0)])
      && s.current !in n.running && (s.current in n.need) && n.current == s.current
  {
    if Enabled(s, Enqueue) {
      StepOk(s, Enqueue);
      if s.waits[s.pc.q].Threads? {
        FifoEnd(s.waits[s.pc.q].q, Entry(s.current, 0, 0));
      }
      assert InList(Step(s, Enqueue), s.pc.q, s.current) by {
        EnqueuedHead(s, s.pc.q);
      }
    }
  }
}
