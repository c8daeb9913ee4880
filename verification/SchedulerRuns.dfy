/** What every run of the scheduler keeps, and that no posted event is lost. */
module SchedulerRuns {
  import opened QueueSpec
  import opened Sequences
  import opened Scheduler
  import opened Wrappers

  /** The invariant within a step, where the program counter is not yet settled. */
  ghost predicate Mid(s: State)
  {
    RunQueueOk(s) && WaitersOk(s) && WakeOk(s) && HomesOk(s) && CurrentOk(s)
  }

  // ----- waking the head of a queue

  lemma {:induction false} WithoutMembers(s: seq<Tid>, t: Tid)
    requires NoDups(s)
    ensures NoDups(Without(s, t)) && forall x :: x in Without(s, t) <==> x in s && x != t
  {
    if s != [] {
      var w, rest := Without(s, t), s[1..];
      WithoutMembers(rest, t);
      assert s == [s[0]] + rest;
      if s[0] != t {
        assert w[1..] == Without(rest, t);
      }
    }
  }

  lemma TakenOffLists(s: State, q: Qid)
    requires WaitersOk(s) && q in s.waits && s.waits[q].Threads? && s.waits[q].q != []
    ensures var tp := s.waits[q].q[0].id;
            && InList(s, q, tp)
            && HeadOk(TakenOff(s, q).waits[q])
            && forall p, x :: InList(TakenOff(s, q), p, x) <==> InList(s, p, x) && x != tp
  {
    var list, tp, off := s.waits[q].q, s.waits[q].q[0].id, TakenOff(s, q);
    assert InList(s, q, tp) && HeadOk(s.waits[q]);
    FirstLeaves(list, tp);
    forall p, x
      ensures InList(off, p, x) <==> InList(s, p, x) && x != tp
    {
      FirstLeaves(list, x);
      assert InList(s, p, tp) ==> p == q;
    }
  }

  lemma TakenOffOk(s: State, q: Qid)
    requires WaitersOk(s) && WakeOk(s) && q in s.waits && s.waits[q].Threads? && s.waits[q].q != []
    ensures WaitersOk(TakenOff(s, q)) && WakeOk(TakenOff(s, q))
    ensures var tp := s.waits[q].q[0].id;
            Waiting(s, tp) && forall x :: Waiting(TakenOff(s, q), x) <==> Waiting(s, x) && x != tp
  {
    TakenOffLists(s, q);
    var tp, off := s.waits[q].q[0].id, TakenOff(s, q);
    WithoutMembers(s.wake, tp);
    assert WaitersOk(off) by {
      forall p, x | InList(off, p, x)
        ensures x in off.at && off.at[x] == WaitQueue(p) && x !in off.running && x in off.prio && x != off.idle && x in off.wake
      {
        assert InList(s, p, x);
      }
    }
    forall x
      ensures Waiting(off, x) <==> Waiting(s, x) && x != tp
    {
      if x != tp && x in s.at && s.at[x].WaitQueue? {
        assert InList(off, s.at[x].q, x) <==> InList(s, s.at[x].q, x);
      }
    }
  }

  /** A thread that is nowhere else is sorted into the run queue. */
  lemma RqAddOk(s: State, t: Tid)
    requires RunQueueOk(s) && WaitersOk(s) && WakeOk(s)
    requires t in s.prio && !Member(s.rq, t) && !Waiting(s, t)
    ensures RunQueueOk(RqAdd(s, t)) && WaitersOk(RqAdd(s, t)) && WakeOk(RqAdd(s, t))
    ensures forall x :: Member(RqAdd(s, t).rq, x) <==> Member(s.rq, x) || x == t
    ensures forall x :: Waiting(RqAdd(s, t), x) <==> Waiting(s, x)
  {
    var on, n := s.(running := s.running + {t}, onRq := s.onRq + {t}), RqAdd(s, t);
    assert n == Entered(on, t);
    EnteredOk(on, t);
    SameLists(s, n, t);
  }

  /** Changing the `queue` field and the flags of a thread that does not wait leaves the
      waiters alone. */
  lemma SameLists(s: State, n: State, t: Tid)
    requires WaitersOk(s) && WakeOk(s) && !Waiting(s, t)
    requires n.waits == s.waits && n.wake == s.wake && n.prio == s.prio && n.idle == s.idle
    requires n.pc == s.pc && n.current == s.current
    requires forall x :: x != t ==> (x in n.running <==> x in s.running)
    requires forall x :: x != t ==> (x in n.at <==> x in s.at) && (x in s.at ==> n.at[x] == s.at[x])
    requires t in n.at ==> n.at[t] == RunQueue
    ensures WaitersOk(n) && WakeOk(n) && forall x :: Waiting(n, x) <==> Waiting(s, x)
  {
    forall q, x
      ensures InList(n, q, x) <==> InList(s, q, x)
      ensures InList(s, q, x) ==> x != t
    {
      if InList(s, q, x) {
        assert Waiting(s, x);
      }
    }
    forall x
      ensures Waiting(n, x) <==> Waiting(s, x)
    {
      if x != t && x in s.at && s.at[x].WaitQueue? {
        assert InList(n, s.at[x].q, x) <==> InList(s, s.at[x].q, x);
      }
    }
  }

  /** What waking threads leaves as it was. */
  ghost predicate Later(s: State, n: State)
  {
    && n.current == s.current && n.pc == s.pc && n.idle == s.idle && n.order == s.order && n.prio == s.prio
    && n.switches == s.switches && n.slice == s.slice && n.seen == s.seen && n.fault == s.fault
    && n.waits.Keys == s.waits.Keys && s.running <= n.running && s.need <= n.need <= s.need + {s.current}
  }

  lemma HeadWaits(s: State, q: Qid)
    requires Mid(s) && q in s.waits && s.waits[q].Threads? && s.waits[q].q != []
    ensures var t := s.waits[q].q[0].id;
            InList(s, q, t) && t !in s.running && t in s.prio && !Member(s.rq, t) && RunQueueOk(TakenOff(s, q))
  {
    assert InList(s, q, s.waits[q].q[0].id);
  }

  lemma WakeHeadOk(s: State, q: Qid)
    requires Mid(s) && q in s.waits && s.waits[q].Threads? && s.waits[q].q != []
    ensures Mid(WakeHead(s, q)) && Later(s, WakeHead(s, q))
    ensures s.waits[q].q[0].id !in s.running && s.waits[q].q[0].id in WakeHead(s, q).running
    ensures WakeHead(s, q).waits == TakenOff(s, q).waits
  {
    hide RunQueueOk, WaitersOk, WakeOk, HomesOk, CurrentOk;
    var tp, off := s.waits[q].q[0].id, TakenOff(s, q);
    TakenOffOk(s, q);
    HeadWaits(s, q);
    if s.current == tp {
      WakeSelf(s, off);
    } else {
      WakeOther(s, off, tp);
    }
  }

  /** The current thread is woken before it left the CPU. */
  lemma WakeSelf(s: State, off: State)
    requires HomesOk(s) && CurrentOk(s) && RunQueueOk(off) && WaitersOk(off) && WakeOk(off)
    requires off == s.(wake := off.wake, waits := off.waits, at := off.at)
    requires forall x :: Waiting(off, x) <==> Waiting(s, x) && x != s.current
    ensures Mid(off.(running := off.running + {s.current}, onRq := off.onRq + {s.current}))
  {
    SameLists(off, off.(running := off.running + {s.current}, onRq := off.onRq + {s.current}), s.current);
  }

  /** Another thread than the current one is queued to run, and may ask for the CPU. */
  lemma WakeOther(s: State, off: State, tp: Tid)
    requires HomesOk(s) && CurrentOk(s) && RunQueueOk(off) && WaitersOk(off) && WakeOk(off)
    requires off == s.(wake := off.wake, waits := off.waits, at := off.at) && tp != s.current && tp in s.prio
    requires !Member(s.rq, tp) && forall x :: Waiting(off, x) <==> Waiting(s, x) && x != tp
    ensures var on := RqAdd(off, tp);
            Mid(on) && Mid(on.(need := on.need + {on.current}))
  {
    var on := RqAdd(off, tp);
    RqAddOk(off, tp);
    assert Member(on.rq, tp);
    SamePlaces(on, on.(need := on.need + {on.current}));
  }

  // ----- rq_signal_threads

  /** Only the head of a queue carries events, so the thread found on the wake list is
      the one that is woken. */
  lemma {:induction false} CountedHead(q: seq<Entry<Tid>>, t: Tid)
    requires HeadOk(Threads(q))
    ensures EcOf(q, t) != 0 ==> q != [] && q[0].id == t && 0 < q[0].ec
    ensures EcOf(q, t) != 0 ==> CountedDown(q, t) == Recounted(q, q[0].ec - 1)
  {
    if q != [] && q[0].id != t {
      NoCounts(q[1..], t);
    }
  }

  lemma {:induction false} NoCounts(q: seq<Entry<Tid>>, t: Tid)
    requires NoEvents(q)
    ensures EcOf(q, t) == 0
  {
    if q != [] {
      NoCounts(q[1..], t);
    }
  }

  /** Replacing the counter of a queue's head changes no membership. */
  lemma RecountOk(s: State, q: Qid, ec: int)
    requires Mid(s) && q in s.waits && s.waits[q].Threads? && s.waits[q].q != [] && 0 <= ec < 256
    ensures var n := s.(waits := s.waits[q := Threads(Recounted(s.waits[q].q, ec))]);
            Mid(n) && (forall x :: Waiting(n, x) <==> Waiting(s, x)) && (forall p, x :: InList(n, p, x) <==> InList(s, p, x))
  {
    var list := s.waits[q].q;
    var n := s.(waits := s.waits[q := Threads(Recounted(list, ec))]);
    assert HeadOk(s.waits[q]);
    RecountedKeeps(list, ec, s.current);
    forall p, x
      ensures InList(n, p, x) <==> InList(s, p, x)
    {
      RecountedKeeps(list, ec, x);
    }
    forall x
      ensures Waiting(n, x) <==> Waiting(s, x)
    {
      if x in s.at && s.at[x].WaitQueue? {
        assert InList(n, s.at[x].q, x) <==> InList(s, s.at[x].q, x);
      }
    }
  }

  lemma SignalOneOk(s: State, t: Tid)
    requires Mid(s)
    ensures Mid(SignalOne(s, t)) && Later(s, SignalOne(s, t))
  {
    if t in s.at && s.at[t].WaitQueue? && s.at[t].q in s.waits && s.waits[s.at[t].q].Threads? {
      var q := s.at[t].q;
      var list := s.waits[q].q;
      assert HeadOk(s.waits[q]);
      CountedHead(list, t);
      if EcOf(list, t) != 0 {
        RecountOk(s, q, list[0].ec - 1);
        WakeHeadOk(s.(waits := s.waits[q := Threads(CountedDown(list, t))]), q);
      }
    }
  }

  lemma {:induction false} SignalThreadsOk(s: State, list: seq<Tid>)
    requires Mid(s)
    ensures Mid(SignalThreads(s, list)) && Later(s, SignalThreads(s, list))
    decreases |list|
  {
    if list != [] {
      SignalOneOk(s, list[0]);
      SignalThreadsOk(SignalOne(s, list[0]), list[1..]);
    }
  }

  // ----- __schedule

  /** The choice of next_runnable: the first queued thread; the queue is empty only when
      the idle thread runs. */
  lemma NextIsHead(s: State)
    requires Mid(s)
    ensures var next := NextRunnable(s.rq, s.running, s.current);
            && (next == s.current <==> s.rq == [])
            && (s.rq == [] ==> s.current == s.idle)
            && (s.rq != [] ==> next == s.rq[0].id && Member(s.rq, next))
  {
    if s.rq != [] {
      assert Member(s.rq, s.rq[0].id);
    }
  }

  /** Halfway through a switch: the old thread is queued again if it is still RUNNING. */
  function Halfway(s: State, next: Tid): State
  {
    Requeued(s.(current := next, switches := s.switches + 1), s.current)
  }

  lemma HalfwayFields(s: State, next: Tid)
    ensures var left := Halfway(s, next);
            && left == s.(current := next, switches := s.switches + 1, rq := left.rq, num := left.num, onRq := left.onRq, at := left.at,
                         since := left.since)
            && left.onRq == (if s.current in s.running then s.onRq + {s.current} else s.onRq - {s.current})
            && left.at == (if s.current in s.running then s.at[s.current := RunQueue] else s.at)
  {
  }

  lemma SameQueue(s: State, n: State)
    requires RunQueueOk(s) && n.rq == s.rq && n.num == s.num && n.order == s.order && n.prio == s.prio && n.running == s.running
    requires n.since == s.since && n.idle == s.idle
    requires forall t :: t in s.onRq && Member(s.rq, t) ==> t in n.onRq
    ensures RunQueueOk(n)
  {
  }

  lemma HalfwayRuns(s: State, next: Tid)
    requires RunQueueOk(s) && s.current in s.prio && !Member(s.rq, s.current) && s.current in s.running
    ensures RunQueueOk(Halfway(s, next))
    ensures forall t :: Member(Halfway(s, next).rq, t) <==> Member(s.rq, t) || t == s.current
  {
    var now := s.(current := next, switches := s.switches + 1, onRq := s.onRq + {s.current});
    SameQueue(s, now);
    EnteredOk(now, s.current);
  }

  lemma HalfwayOk(s: State, next: Tid) returns (left: State)
    requires RunQueueOk(s) && s.current in s.prio && !Member(s.rq, s.current)
    ensures left == Halfway(s, next) && RunQueueOk(left)
    ensures forall t :: Member(left.rq, t) <==> Member(s.rq, t) || (t == s.current && t in s.running)
  {
    left := Halfway(s, next);
    if s.current in s.running {
      HalfwayRuns(s, next);
    } else {
      SameQueue(s, left);
    }
  }

  /** After a switch the new thread has been taken off the run queue. */
  lemma SwitchedQueue(s: State, next: Tid)
    requires RunQueueOk(s) && s.current in s.prio && !Member(s.rq, s.current) && Member(s.rq, next)
    ensures var n := Switched(s, s.current, next);
            && RunQueueOk(n)
            && forall t :: Member(n.rq, t) <==> (Member(s.rq, t) && t != next) || (t == s.current && t in s.running)
  {
    hide RunQueueOk;
    var left := HalfwayOk(s, next);
    RemovedOk(s, left, next);
  }

  lemma RemovedOk(s: State, left: State, next: Tid)
    requires RunQueueOk(left) && !Member(s.rq, s.current) && Member(s.rq, next)
    requires forall t :: Member(left.rq, t) <==> Member(s.rq, t) || (t == s.current && t in s.running)
    ensures var n := RqRemove(left, next);
            && RunQueueOk(n)
            && forall t :: Member(n.rq, t) <==> (Member(s.rq, t) && t != next) || (t == s.current && t in s.running)
  {
    RqRemoveOk(left, next);
  }

  lemma SwitchedFields(s: State, next: Tid)
    requires RunQueueOk(s) && s.current in s.prio && !Member(s.rq, s.current) && Member(s.rq, next)
    ensures var n := Switched(s, s.current, next);
            && n == s.(current := next, switches := s.switches + 1, rq := n.rq, num := n.num, onRq := n.onRq, at := n.at, since := n.since)
            && n.onRq == (if s.current in s.running then s.onRq + {s.current} else s.onRq - {s.current})
            && n.at == (if s.current in s.running then s.at[s.current := RunQueue] else s.at) - {next}
  {
    var left := HalfwayOk(s, next);
    HalfwayFields(s, next);
    RemoveMembers(left.rq, next, next);
  }

  lemma SwitchedOk(s: State, next: Tid)
    requires RunQueueOk(s) && WaitersOk(s) && WakeOk(s) && HomesOk(s) && PlacesOk(s)
    requires !s.pc.Listed? && Member(s.rq, next)
    ensures var n := Switched(s, s.current, next);
            && RunQueueOk(n) && WaitersOk(n) && HomesOk(n) && NoDups(n.wake) && (forall t :: t in n.wake ==> Waiting(n, t))
            && n.current == next && next in n.running && next in n.onRq && !Member(n.rq, next)
            && (next == s.idle || Member(n.rq, s.idle)) && n.running == s.running && n.prio == s.prio && n.idle == s.idle
  {
    hide Switched;
    SwitchedQueue(s, next);
    SwitchedFields(s, next);
    Moved(s, Switched(s, s.current, next), s.current, next);
  }

  /** Moving two runnable threads about leaves the waiters alone. */
  lemma Moved(s: State, n: State, prev: Tid, next: Tid)
    requires WaitersOk(s) && WakeOk(s) && !s.pc.Listed? && next in s.running
    requires n.waits == s.waits && n.wake == s.wake && n.prio == s.prio && n.idle == s.idle && n.running == s.running
    requires forall x :: x != next && (x != prev || prev !in s.running) ==>
      (x in n.at <==> x in s.at) && (x in s.at ==> n.at[x] == s.at[x])
    requires next in n.at ==> n.at[next] == RunQueue
    requires prev in s.running && prev in n.at ==> n.at[prev] == RunQueue
    ensures WaitersOk(n) && (forall x :: Waiting(n, x) <==> Waiting(s, x))
    ensures NoDups(n.wake) && forall t :: t in n.wake ==> Waiting(n, t)
  {
    forall q, x
      ensures InList(n, q, x) <==> InList(s, q, x)
      ensures InList(s, q, x) ==> x != next && (x != prev || prev !in s.running)
    {
    }
    forall x
      ensures Waiting(n, x) <==> Waiting(s, x)
    {
      if x in s.at && s.at[x].WaitQueue? {
        assert InList(n, s.at[x].q, x) <==> InList(s, s.at[x].q, x);
      }
    }
  }

  lemma SamePlaces(s: State, n: State)
    requires n.waits == s.waits && n.at == s.at
    ensures (forall x :: Waiting(n, x) <==> Waiting(s, x)) && (forall q, x :: InList(n, q, x) <==> InList(s, q, x))
  {
    forall q, x
      ensures InList(n, q, x) <==> InList(s, q, x)
    {
    }
    forall x
      ensures Waiting(n, x) <==> Waiting(s, x)
    {
      if x in s.at && s.at[x].WaitQueue? {
        assert InList(n, s.at[x].q, x) <==> InList(s, s.at[x].q, x);
      }
    }
  }

  lemma StayedOk(m: State)
    requires Mid(m) && !m.fault && !m.pc.Listed? && m.current in m.running
    ensures Inv(Cleared(m, m.current).(pc := Ready))
  {
    var n := Cleared(m, m.current).(pc := Ready);
    SamePlaces(m, n);
  }

  lemma ClearedKeeps(m: State)
    requires RunQueueOk(m)
    ensures RunQueueOk(Cleared(m, m.current))
  {
  }

  lemma SwitchedInv(m: State, next: Tid)
    requires Mid(m) && !m.fault && !m.pc.Listed? && Member(m.rq, next)
    ensures Inv(Switched(Cleared(m, m.current), m.current, next).(pc := Ready))
  {
    hide Switched, RunQueueOk;
    var off := Cleared(m, m.current);
    ClearedKeeps(m);
    SamePlaces(m, off);
    SwitchedOk(off, next);
    SwitchedFields(off, next);
    SettledOk(Switched(off, m.current, next));
  }

  /** A runnable thread is current: the step is over. */
  lemma SettledOk(a: State)
    requires !a.fault && RunQueueOk(a) && WaitersOk(a) && HomesOk(a) && NoDups(a.wake) && (forall t :: t in a.wake ==> Waiting(a, t))
    requires a.current in a.running && a.current in a.prio && a.current in a.onRq && !Member(a.rq, a.current)
    requires a.idle in a.prio && a.idle in a.running && (a.current == a.idle || Member(a.rq, a.idle))
    ensures Inv(a.(pc := Ready))
  {
    SamePlaces(a, a.(pc := Ready));
  }

  lemma PickedOk(m: State)
    requires Mid(m) && !m.fault && !m.pc.Listed?
    ensures Inv(Picked(m))
  {
    NextIsHead(m);
    var next := NextRunnable(m.rq, m.running, m.current);
    if next == m.current || (next == m.idle && m.current !in m.need) {
      StayedOk(m);
    } else {
      SwitchedInv(m, next);
    }
  }

  lemma RescheduledOk(s: State)
    requires Inv(s) && (s.pc.Ready? || s.pc.Enqueued?)
    ensures Inv(Rescheduled(s))
  {
    SignalThreadsOk(s, s.wake);
    PickedOk(SignalThreads(s, s.wake));
  }

  // ----- the other steps

  lemma StartOk(s: State, t: Tid, p: nat)
    requires Inv(s) && Enabled(s, Start(t, p))
    ensures Inv(Step(s, Start(t, p)))
  {
    var known := s.(prio := s.prio[t := p]);
    assert !Member(s.rq, t);
    KeysChange(s.order, s.rq, s.prio, s.since, s.idle, t, known.prio, s.since);
    SamePlaces(s, known);
    RqAddOk(known, t);
  }

  /** A queue without waiters may change its head between NULL and SIGNALED. */
  lemma HeadChange(s: State, q: Qid, h: Head<Tid>)
    requires Inv(s) && (q in s.waits && s.waits[q].Threads? ==> s.waits[q].q == [])
    requires h.Threads? ==> h.q == []
    ensures Inv(s.(waits := s.waits[q := h]))
  {
    var n := s.(waits := s.waits[q := h]);
    forall p, x
      ensures InList(n, p, x) <==> InList(s, p, x)
    {
    }
    forall x
      ensures Waiting(n, x) <==> Waiting(s, x)
    {
      if x in s.at && s.at[x].WaitQueue? {
        assert InList(n, s.at[x].q, x) <==> InList(s, s.at[x].q, x);
      }
    }
  }

  lemma RunningDoesNotWait(s: State, t: Tid)
    requires WaitersOk(s) && t in s.running
    ensures !Waiting(s, t)
  {
  }

  lemma ListOk(s: State)
    requires Inv(s) && s.pc.Checked?
    ensures Inv(Step(s, List))
  {
    var n := Step(s, List);
    SamePlaces(s, n);
    assert n.wake[1..] == s.wake;
    RunningDoesNotWait(s, s.current);
  }

  lemma EnqueuedHead(s: State, q: Qid)
    requires Inv(s) && q in s.waits && s.current in s.running
    ensures var h := Insert(Fifo, s.waits[q], Entry(s.current, 0, 0));
            && HeadOk(h) && h.Threads? && (forall x :: Has(h, x) <==> InList(s, q, x) || x == s.current)
            && (Recorded(s.waits[q]) ==> Recorded(h))
  {
    var h := Insert(Fifo, s.waits[q], Entry(s.current, 0, 0));
    assert HeadOk(s.waits[q]) && !InList(s, q, s.current);
    LastJoins(s.waits[q], s.current, s.current);
    forall x
      ensures Has(h, x) <==> InList(s, q, x) || x == s.current
    {
      LastJoins(s.waits[q], s.current, x);
    }
  }

  lemma EnqueueOk(s: State)
    requires Inv(s) && s.pc.Listed? && s.pc.q in s.waits
    ensures Inv(Step(s, Enqueue))
  {
    var q, n, t := s.pc.q, Step(s, Enqueue), s.current;
    EnqueuedHead(s, q);
    assert n.running == s.running - {t} && t in n.need;
    forall p, x
      ensures InList(n, p, x) <==> InList(s, p, x) || (p == q && x == t)
      ensures InList(s, p, x) ==> x != t
    {
    }
    assert InList(n, q, t);
    forall x
      ensures Waiting(n, x) <==> Waiting(s, x) || x == t
    {
      if x != t && x in s.at && s.at[x].WaitQueue? {
        assert InList(n, s.at[x].q, x) <==> InList(s, s.at[x].q, x);
      }
    }
  }

  /** What event_notify may not find changed when it writes: a queue it found empty must
      have no waiters, and one where it found a waiter must have one. */
  predicate Safe(s: State, r: Reading)
    requires r.q in s.waits
  {
    match r.found
    case Nobody => FoundAt(s.waits[r.q]) != Waiters
    case Signal => true
    case Waiters => FoundAt(s.waits[r.q]) == Waiters
  }

  /** Leaving event_notify moves no thread. */
  lemma EndedIsMid(s: State)
    requires Inv(s)
    ensures Mid(s.(seen := s.seen - {s.current}))
  {
    SamePlaces(s, s.(seen := s.seen - {s.current}));
  }

  /** The write of event_notify keeps the invariant exactly when its reading is safe:
      else a waiter is dropped from the queue, or a NULL pointer followed. */
  lemma CommitOk(s: State)
    requires Inv(s) && Enabled(s, NotifyCommit)
    ensures Inv(Step(s, NotifyCommit)) <==> Safe(s, s.seen[s.current])
  {
    var r, off := s.seen[s.current], s.(seen := s.seen - {s.current});
    SamePlaces(s, off);
    if r.found == Nobody {
      if FoundAt(s.waits[r.q]) == Waiters {
        Dropped(s, r.q);
      } else {
        HeadChange(off, r.q, Signaled);
      }
    } else if r.found == Waiters && FoundAt(s.waits[r.q]) == Waiters {
      WakeHeadOk(off, r.q);
    }
  }

  /** Signaling a queue over its waiters leaves the first of them nowhere. */
  lemma Dropped(s: State, q: Qid)
    requires Inv(s) && s.pc.Ready? && q in s.waits && FoundAt(s.waits[q]) == Waiters
    ensures !Inv(s.(seen := s.seen - {s.current}, waits := s.waits[q := Signaled]))
  {
    var t, n := s.waits[q].q[0].id, s.(seen := s.seen - {s.current}, waits := s.waits[q := Signaled]);
    assert InList(s, q, t);
    assert t in n.prio && t != n.current && !Member(n.rq, t) && !Waiting(n, t);
  }

  lemma NotifyIrqOk(s: State, q: Qid)
    requires Inv(s) && q in s.waits
    ensures Inv(Step(s, NotifyIrq(q)))
  {
    if s.waits[q].Signaled? || s.waits[q].q == [] {
      HeadChange(s, q, Signaled);
    } else {
      RecountOk(s, q, (s.waits[q].q[0].ec + 1) % 256);
    }
  }

  lemma NiceOk(s: State, p: nat)
    requires Inv(s) && Enabled(s, Nice(p))
    ensures Inv(Step(s, Nice(p)))
  {
    var n := Step(s, Nice(p));
    KeysChange(s.order, s.rq, s.prio, s.since, s.idle, s.current, n.prio, s.since);
    SamePlaces(s, n);
  }

  /** The step is not a write of event_notify on an unsafe reading. */
  predicate StepSafe(s: State, a: Action)
    requires Enabled(s, a)
  {
    a == NotifyCommit ==> Safe(s, s.seen[s.current])
  }

  predicate Quiet(s: State, a: Action)
  {
    match a
    case Check(q) => q in s.waits && !s.waits[q].Signaled?
    case NotifyRead(q) => true
    case Yield => true
    case IdleLoop => true
    case Slice => true
    case Tick(n) => true
    case _ => false
  }

  /** Steps that move no thread. */
  lemma QuietOk(s: State, a: Action)
    requires Inv(s) && Enabled(s, a) && Quiet(s, a)
    ensures Inv(Step(s, a))
  {
    SamePlaces(s, Step(s, a));
  }

  lemma TakeSignalOk(s: State, a: Action, q: Qid)
    requires Inv(s) && Enabled(s, a) && q in s.waits && s.waits[q].Signaled? && (a == Discard(q) || a == Check(q))
    ensures Inv(Step(s, a))
  {
    HeadChange(s, q, Threads([]));
  }

  /** A step keeps the invariant if and only if it is not such a write. */
  lemma StepOk(s: State, a: Action)
    requires Inv(s) && Enabled(s, a)
    ensures Inv(Step(s, a)) <==> StepSafe(s, a)
  {
    match a
    case Start(t, p) => StartOk(s, t, p);
    case Open(q) => HeadChange(s, q, Signaled);
    case Discard(q) => if s.waits[q].Signaled? { TakeSignalOk(s, a, q); }
    case Check(q) => if s.waits[q].Signaled? { TakeSignalOk(s, a, q); } else { QuietOk(s, a); }
    case List => ListOk(s);
    case Enqueue => EnqueueOk(s);
    case NotifyRead(q) => QuietOk(s, a);
    case NotifyCommit => CommitOk(s);
    case NotifyIrq(q) => NotifyIrqOk(s, q);
    case Yield => QuietOk(s, a);
    case Nice(p) => NiceOk(s, p);
    case IdleLoop => QuietOk(s, a);
    case Slice => QuietOk(s, a);
    case Tick(n) => QuietOk(s, a);
    case Schedule => RescheduledOk(s);
  }

  // ----- every run

  ghost predicate CanRun(s: State, acts: seq<Action>)
    decreases |acts|
  {
    acts == [] || (Enabled(s, acts[0]) && CanRun(Step(s, acts[0]), acts[1..]))
  }

  ghost function Run(s: State, acts: seq<Action>): State
    requires CanRun(s, acts)
    decreases |acts|
  {
    if acts == [] then s else Run(Step(s, acts[0]), acts[1..])
  }

  /** No step of the run is a write of event_notify on an unsafe reading. */
  ghost predicate RunSafe(s: State, acts: seq<Action>)
    requires CanRun(s, acts)
    decreases |acts|
  {
    acts == [] || (StepSafe(s, acts[0]) && RunSafe(Step(s, acts[0]), acts[1..]))
  }

  lemma {:induction false} RunOk(s: State, acts: seq<Action>)
    requires Inv(s) && CanRun(s, acts) && RunSafe(s, acts)
    ensures Inv(Run(s, acts))
    decreases |acts|
  {
    if acts != [] {
      StepOk(s, acts[0]);
      RunOk(Step(s, acts[0]), acts[1..]);
    }
  }

  // ----- who runs next

  function QueuedKey(q: seq<Entry<Tid>>, t: Tid): int
    requires Member(q, t)
  {
    if q[0].id == t then q[0].key else QueuedKey(q[1..], t)
  }

  lemma {:induction false} AtLeastKey(q: seq<Entry<Tid>>, t: Tid, key: int)
    requires AllAtLeast(q, key) && Member(q, t)
    ensures key <= QueuedKey(q, t)
  {
    if q[0].id != t {
      AtLeastKey(q[1..], t, key);
    }
  }

  lemma {:induction false} QueuedBy(m: State, q: seq<Entry<Tid>>, t: Tid)
    requires KeysAre(m.order, q, m.prio, m.since, m.idle) && Member(q, t)
    ensures t in m.prio && t in m.since && QueuedKey(q, t) == KeyFor(m.order, m.prio[t], m.since[t], t == m.idle)
  {
    if q[0].id != t {
      QueuedBy(m, q[1..], t);
    }
  }

  /** When a thread that was queued to run is due: 10 to 148 ticks after it came, by its
      priority, and the idle thread a very long time later. */
  function Due(m: State, t: Tid): int
    requires t in m.prio && t in m.since
  {
    m.since[t] + 10 + 13 * m.prio[t] / 24 + (if t == m.idle then 15778463000000 else 0)
  }

  /** The thread that takes over the CPU has the least priority value (round robin), or is
      due first (EDF), of all queued threads. */
  ghost predicate Least(m: State, next: Tid)
  {
    && Member(m.rq, next) && m.rq[0].id == next
    && (m.order == Rr ==> forall t :: Member(m.rq, t) ==> Prio(m, next) <= Prio(m, t))
    && (m.order == Edf ==> next in m.prio && next in m.since
                           && forall t :: Member(m.rq, t) ==> t in m.prio && t in m.since && Due(m, next) <= Due(m, t))
  }

  lemma HeadLeast(m: State)
    requires Mid(m) && m.rq != []
    ensures Least(m, m.rq[0].id)
  {
    var next := m.rq[0].id;
    forall t | Member(m.rq, t)
      ensures t in m.prio && t in m.since && next in m.prio && next in m.since
      ensures m.order == Rr ==> Prio(m, next) <= Prio(m, t)
      ensures m.order == Edf ==> Due(m, next) <= Due(m, t)
    {
      if m.order != Fifo && t != next {
        AtLeastKey(m.rq[1..], t, m.rq[0].key);
      }
      QueuedBy(m, m.rq, t);
      QueuedBy(m, m.rq, next);
    }
  }

  /** Who is queued to run after the choice between `m` and the next state. */
  ghost predicate QueuedAfter(m: State, n: State, t: Tid)
  {
    if n.current == m.current then Member(m.rq, t)
    else (Member(m.rq, t) && t != n.current) || (t == m.current && t in m.running)
  }

  lemma PickChooses(m: State)
    requires Mid(m) && !m.pc.Listed?
    ensures var n := Picked(m);
            && (n.current != m.current <==> m.rq != [] && (m.rq[0].id != m.idle || m.current in m.need))
            && n.switches == m.switches + (if n.current != m.current then 1 else 0)
            && (n.current != m.current ==> n.current == m.rq[0].id)
            && n.running == m.running && n.waits == m.waits && n.order == m.order
            && n.need == m.need - {m.current} && n.slice == m.slice - {m.current}
            && (forall t :: Member(n.rq, t) <==> QueuedAfter(m, n, t))
  {
    hide RunQueueOk, WaitersOk, WakeOk, HomesOk, NextRunnable, Switched;
    NextIsHead(m);
    if m.rq != [] && (m.rq[0].id != m.idle || m.current in m.need) {
      PickSwitches(m, m.rq[0].id);
    }
  }

  lemma PickSwitches(m: State, next: Tid)
    requires RunQueueOk(m) && PlacesOk(m) && Member(m.rq, next)
    ensures var n := Switched(Cleared(m, m.current), m.current, next);
            && n.current == next && n.switches == m.switches + 1
            && n.running == m.running && n.waits == m.waits && n.order == m.order
            && n.need == m.need - {m.current} && n.slice == m.slice - {m.current}
            && forall t :: Member(n.rq, t) <==> (Member(m.rq, t) && t != next) || (t == m.current && t in m.running)
  {
    SwitchedQueue(Cleared(m, m.current), next);
    SwitchedFields(Cleared(m, m.current), next);
  }

  /** What __schedule does, with `m` the state after the pending events: it switches
      exactly when someone is queued, unless only the idle thread is and nobody asked.
      A thread that is still blocked is always replaced, by the least of the queued
      threads, and a RUNNING thread is current in the end. Both flags of the thread that
      called are cleared, and no others. */
  lemma ScheduleChooses(s: State)
    requires Inv(s) && Enabled(s, Schedule)
    ensures var m, n := SignalThreads(s, s.wake), Step(s, Schedule);
            && (n.current != s.current <==> m.rq != [] && (m.rq[0].id != m.idle || s.current in m.need))
            && n.switches == s.switches + (if n.current != s.current then 1 else 0)
            && (n.current != s.current ==> Least(m, n.current))
            && (s.current !in m.running ==> n.current != s.current)
            && n.current in n.running && n.running == m.running && s.running <= m.running && n.waits == m.waits && n.order == s.order
            && n.need == m.need - {s.current} && n.slice == s.slice - {s.current}
            && (forall t :: Member(n.rq, t) <==> QueuedAfter(m, n, t))
  {
    var m := SignalThreads(s, s.wake);
    SignalThreadsOk(s, s.wake);
    RescheduledOk(s);
    PickChooses(m);
    NextIsHead(m);
    if m.rq != [] {
      HeadLeast(m);
    }
  }

  // ----- every run from boot

  /** Where a started thread is, after any safe run from boot: running, queued to run or in
      one wait queue, and in no two of them unless it is on its way out of the CPU. */
  lemma OnePlaceEach(order: Order, idle: Tid, acts: seq<Action>, t: Tid)
    requires CanRun(Init(order, idle), acts) && RunSafe(Init(order, idle), acts) && t in Run(Init(order, idle), acts).prio
    ensures var s := Run(Init(order, idle), acts);
            && s.num == |s.rq| && DistinctIds(s.rq) && (order != Fifo ==> s.order == order && Sorted(s.rq))
            && (s.current == s.idle || Member(s.rq, s.idle))
            && (t == s.current || Member(s.rq, t) || exists q :: InList(s, q, t))
            && (Member(s.rq, t) ==> t in s.running && t != s.current && forall q :: !InList(s, q, t))
            && (forall p, q :: InList(s, p, t) && InList(s, q, t) ==> p == q && t !in s.running)
            && (t == s.current && t !in s.running ==> s.pc.Enqueued? && InList(s, s.pc.q, t) && t in s.need)
  {
    var s := Run(Init(order, idle), acts);
    RunOk(Init(order, idle), acts);
    RunOrder(Init(order, idle), acts);
    if Waiting(s, t) {
      assert InList(s, s.at[t].q, t);
    }
  }

  lemma StepOrder(s: State, a: Action)
    requires Inv(s) && Enabled(s, a)
    ensures Step(s, a).order == s.order
  {
    if a.Schedule? {
      ScheduleChooses(s);
    } else if a.NotifyCommit? && s.seen[s.current].found == Waiters && FoundAt(s.waits[s.seen[s.current].q]) == Waiters {
      var off := s.(seen := s.seen - {s.current});
      SamePlaces(s, off);
      WakeHeadOk(off, s.seen[s.current].q);
    }
  }

  lemma {:induction false} RunOrder(s: State, acts: seq<Action>)
    requires Inv(s) && CanRun(s, acts) && RunSafe(s, acts)
    ensures Run(s, acts).order == s.order
    decreases |acts|
  {
    if acts != [] {
      StepOk(s, acts[0]);
      StepOrder(s, acts[0]);
      RunOrder(Step(s, acts[0]), acts[1..]);
    }
  }
}
