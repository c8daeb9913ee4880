/** The scheduler and the event protocol of one CPU as a step system: each step is one
    stretch of core.c or event.c that runs with interrupts off. */
module Scheduler {
  import opened QueueSpec
  import opened Sequences
  import opened Wrappers

  type Tid = nat
  type Qid = nat

  /** What `thread.queue` points at. */
  datatype Loc = RunQueue | WaitQueue(q: Qid)

  /** Where the current thread is in raw_event_wait: outside it, past the check, on the
      wake list, or in the wait queue and about to call schedule. */
  datatype Pc = Ready | Checked(q: Qid) | Listed(q: Qid) | Enqueued(q: Qid)

  /** What event_notify found at the head of a queue before it disabled preemption. */
  datatype Found = Nobody | Signal | Waiters
  datatype Reading = Reading(q: Qid, found: Found)

  datatype State = State(
    order: Order, idle: Tid,
    rq: seq<Entry<Tid>>, num: int, current: Tid, switches: nat,
    running: set<Tid>,               // THREAD_RUNNING_FLAG
    onRq: set<Tid>,                  // thread.on_rq
    need: set<Tid>,                  // THREAD_NEED_RESCHED_FLAG
    slice: set<Tid>,                 // PREEMPT_NEED_RESCHED_FLAG
    wake: seq<Tid>,                  // rq.wake_head
    waits: map<Qid, Head<Tid>>,
    at: map<Tid, Loc>,
    prio: map<Tid, nat>,             // the started threads
    tick: int,
    since: map<Tid, int>,            // the tick at which a thread was queued to run
    pc: Pc,
    seen: map<Tid, Reading>,         // the threads in event_notify, between its read and its write
    fault: bool)                     // a NULL or SIGNALED head was followed as a thread

  function Init(order: Order, idle: Tid): State
  {
    State(order, idle, [], 0, idle, 0, {idle}, {}, {}, {}, [], map[], map[], map[idle := IDLE_PRIO], 0, map[], Ready, map[], false)
  }

  // ----- run queue

  function Prio(s: State, t: Tid): nat
  {
    if t in s.prio then s.prio[t] else 0
  }

  /** The sort key of a thread of priority `p` that is queued to run at `tick`. */
  function KeyFor(order: Order, p: nat, tick: int, idle: bool): int
  {
    match order
    case Rr => p
    case Edf => Deadline(tick, p, idle)
    case Fifo => 0
  }

  function KeyOf(s: State, t: Tid): int
  {
    KeyFor(s.order, Prio(s, t), s.tick, t == s.idle)
  }

  /** add_thread of the scheduling class. */
  function Entered(s: State, t: Tid): State
  {
    s.(rq := Place(s.order, s.rq, Entry(t, KeyOf(s, t), 0)), num := s.num + 1, at := s.at[t := RunQueue],
       since := s.since[t := s.tick])
  }

  /** raw_rq_add_thread. */
  function RqAdd(s: State, t: Tid): State
  {
    Entered(s, t).(running := s.running + {t}, onRq := s.onRq + {t})
  }

  /** rm_thread of the scheduling class. */
  function RqRemove(s: State, t: Tid): State
  {
    match Remove(s.rq, t)
    case None => s
    case Some(r) => s.(rq := r, num := s.num - 1, at := s.at - {t})
  }

  /** next_runnable of the class, else the current thread. */
  function NextRunnable(q: seq<Entry<Tid>>, running: set<Tid>, current: Tid): Tid
  {
    if q == [] then current
    else if q[0].id in running then q[0].id
    else NextRunnable(q[1..], running, current)
  }

  // ----- waking

  /** list_del of the wake list. */
  function Without(s: seq<Tid>, t: Tid): seq<Tid>
  {
    if s == [] then [] else if s[0] == t then s[1..] else [s[0]] + Without(s[1..], t)
  }

  /** The head of wait queue `q` leaves the wake list and the queue; an emptied queue
      is signaled. */
  function TakenOff(s: State, q: Qid): State
    requires q in s.waits && s.waits[q].Threads? && s.waits[q].q != []
  {
    var list := s.waits[q].q;
    s.(wake := Without(s.wake, list[0].id), waits := s.waits[q := AfterFirst(list)], at := s.at - {list[0].id})
  }

  /** The head of wait queue `q` leaves it and becomes runnable: the body shared by
      __raw_event_notify and rq_signal_event_queue. */
  function WakeHead(s: State, q: Qid): State
    requires q in s.waits && s.waits[q].Threads? && s.waits[q].q != []
  {
    var tp := s.waits[q].q[0].id;
    var off := TakenOff(s, q);
    if s.current == tp then off.(running := off.running + {tp}, onRq := off.onRq + {tp})
    else
      var on := RqAdd(off, tp);
      if Prio(on, tp) <= Prio(on, on.current) then on.(need := on.need + {on.current}) else on
  }

  function EcOf(q: seq<Entry<Tid>>, t: Tid): int
  {
    if q == [] then 0 else if q[0].id == t then q[0].ec else EcOf(q[1..], t)
  }

  function CountedDown(q: seq<Entry<Tid>>, t: Tid): seq<Entry<Tid>>
  {
    if q == [] then [] else if q[0].id == t then Recounted(q, q[0].ec - 1) else [q[0]] + CountedDown(q[1..], t)
  }

  /** One round of the loop of rq_signal_threads. */
  function SignalOne(s: State, t: Tid): State
  {
    if t in s.at && s.at[t].WaitQueue? && s.at[t].q in s.waits && s.waits[s.at[t].q].Threads? then
      var q := s.at[t].q;
      var list := s.waits[q].q;
      if EcOf(list, t) != 0 && CountedDown(list, t) != [] then WakeHead(s.(waits := s.waits[q := Threads(CountedDown(list, t))]), q)
      else s
    else s
  }

  /** rq_signal_threads over the wake list as it was found. */
  function SignalThreads(s: State, list: seq<Tid>): State
    decreases |list|
  {
    if list == [] then s else SignalThreads(SignalOne(s, list[0]), list[1..])
  }

  // ----- rescheduling

  /** A thread that loses the CPU is queued again if it is still RUNNING. */
  function Requeued(s: State, prev: Tid): State
  {
    if prev in s.running then Entered(s.(onRq := s.onRq + {prev}), prev) else s.(onRq := s.onRq - {prev})
  }

  /** rq_switch_context, after `next` was made current. */
  function Switched(s: State, prev: Tid, next: Tid): State
  {
    RqRemove(Requeued(s.(current := next, switches := s.switches + 1), prev), next)
  }

  function Cleared(s: State, prev: Tid): State
  {
    s.(need := s.need - {prev}, slice := s.slice - {prev})
  }

  /** The answer of reschedule_decide, which also clears both flags; preempt_check has just
      set the preemption flag. */
  predicate Switches(s: State, prev: Tid, next: Tid)
  {
    prev != next && (next != s.idle || prev in s.need)
  }

  /** __schedule after the signals: picking the next thread and switching to it. */
  function Picked(s: State): State
  {
    var next := NextRunnable(s.rq, s.running, s.current);
    var off := Cleared(s, s.current);
    (if Switches(s, s.current, next) then Switched(off, s.current, next) else off).(pc := Ready)
  }

  /** __schedule. */
  function Rescheduled(s: State): State
  {
    Picked(SignalThreads(s, s.wake))
  }

  // ----- steps

  datatype Action =
    | Start(t: Tid, p: nat) | Open(q: Qid) | Discard(q: Qid) | Check(q: Qid) | List | Enqueue
    | NotifyRead(q: Qid) | NotifyCommit | NotifyIrq(q: Qid) | Yield | Nice(p: nat) | IdleLoop | Slice | Tick(n: int) | Schedule

  /** The current thread is in none of the routines modelled here. */
  predicate Free(s: State)
  {
    s.pc.Ready? && s.current !in s.seen
  }

  /** Who may take a step. Preemption is off between the check and the end of the wait, so
      there schedule is called at the end only; between the read and the write of
      event_notify it is on, so schedule may come in and another thread run. */
  predicate Enabled(s: State, a: Action)
  {
    !s.fault &&
    match a
    case Start(t, p) => Free(s) && t !in s.prio && p <= IDLE_PRIO
    case Open(q) => Free(s) && q !in s.waits
    case Discard(q) => Free(s) && q in s.waits && s.current != s.idle
    case Check(q) => Free(s) && q in s.waits && s.current != s.idle
    case List => s.pc.Checked?
    case Enqueue => s.pc.Listed? && s.pc.q in s.waits
    case NotifyRead(q) => Free(s) && q in s.waits
    case NotifyCommit => s.pc.Ready? && s.current in s.seen && s.seen[s.current].q in s.waits
    case NotifyIrq(q) => q in s.waits
    case Yield => Free(s)
    case Nice(p) => Free(s) && s.current != s.idle && p <= IDLE_PRIO
    case IdleLoop => Free(s) && s.current == s.idle
    case Slice => true
    case Tick(n) => true
    case Schedule => s.pc.Ready? || s.pc.Enqueued?
  }

  function FoundAt(h: Head<Tid>): Found
  {
    if h.Signaled? then Signal else if h.q == [] then Nobody else Waiters
  }

  /** event_notify once preemption is off: it goes by what it found at the head before,
      and takes the first waiter from the head as it is now. */
  function Committed(s: State, r: Reading): State
    requires r.q in s.waits
  {
    match r.found
    case Nobody => s.(waits := s.waits[r.q := Signaled])
    case Signal => s
    case Waiters => if FoundAt(s.waits[r.q]) == Waiters then WakeHead(s, r.q) else s.(fault := true)
  }

  /** raw_queue_add_thread of the current thread. */
  function EnqueueCurrent(s: State, q: Qid): State
    requires q in s.waits
  {
    var t := s.current;
    var off := if t in s.onRq && t in s.running then s.(running := s.running - {t}, need := s.need + {t}) else s;
    off.(waits := s.waits[q := Insert(Fifo, s.waits[q], Entry(t, 0, 0))], at := s.at[t := WaitQueue(q)], pc := Enqueued(q))
  }

  function Step(s: State, a: Action): State
    requires Enabled(s, a)
  {
    match a
    case Start(t, p) => RqAdd(s.(prio := s.prio[t := p]), t)
    case Open(q) => s.(waits := s.waits[q := Signaled])
    case Discard(q) => if s.waits[q].Signaled? then s.(waits := s.waits[q := Threads([])]) else s
    case Check(q) => if s.waits[q].Signaled? then s.(waits := s.waits[q := Threads([])]) else s.(pc := Checked(q))
    case List => s.(wake := [s.current] + s.wake, pc := Listed(s.pc.q))
    case Enqueue => EnqueueCurrent(s, s.pc.q)
    case NotifyRead(q) => s.(seen := s.seen[s.current := Reading(q, FoundAt(s.waits[q]))])
    case NotifyCommit => Committed(s.(seen := s.seen - {s.current}), s.seen[s.current])
    case NotifyIrq(q) => s.(waits := s.waits[q := Posted(s.waits[q])])
    case Yield =>
      var next := NextRunnable(s.rq, s.running, s.current);
      if s.current in s.slice || s.current in s.need || Prio(s, next) <= Prio(s, s.current) then s.(need := s.need + {s.current}) else s
    case Nice(p) => s.(prio := s.prio[s.current := if p == IDLE_PRIO then IDLE_PRIO - 1 else p])
    case IdleLoop => s.(need := s.need + {s.current})
    case Slice => s.(slice := s.slice + {s.current})
    case Tick(n) => s.(tick := n)
    case Schedule => Rescheduled(s)
  }

  // ----- the invariant

  ghost predicate InList(s: State, q: Qid, t: Tid)
  {
    q in s.waits && Has(s.waits[q], t)
  }

  ghost predicate Waiting(s: State, t: Tid)
  {
    t in s.at && s.at[t].WaitQueue? && InList(s, s.at[t].q, t)
  }

  /** Every queued thread is sorted in by its own priority and the tick at which it came. */
  predicate KeysAre(o: Order, q: seq<Entry<Tid>>, prio: map<Tid, nat>, since: map<Tid, int>, idle: Tid)
  {
    q == [] ||
    (q[0].id in prio && q[0].id in since && q[0].key == KeyFor(o, prio[q[0].id], since[q[0].id], q[0].id == idle)
     && KeysAre(o, q[1..], prio, since, idle))
  }

  /** The run queue is sorted, counts its threads, and holds distinct RUNNING threads. */
  ghost predicate RunQueueOk(s: State)
  {
    && DistinctIds(s.rq) && NoEvents(s.rq) && s.num == |s.rq|
    && (s.order != Fifo ==> Sorted(s.rq))
    && KeysAre(s.order, s.rq, s.prio, s.since, s.idle)
    && (forall t :: Member(s.rq, t) ==> t in s.running && t in s.onRq && t in s.prio)
  }

  /** A queued waiter is in that queue only, stopped, and on the wake list. */
  ghost predicate WaitersOk(s: State)
  {
    && (forall q :: q in s.waits ==> HeadOk(s.waits[q]))
    && (forall q, t :: InList(s, q, t) ==>
          t in s.at && s.at[t] == WaitQueue(q) && t !in s.running && t in s.prio && t != s.idle && t in s.wake)
    && (forall t :: t in s.at && s.at[t].WaitQueue? ==> InList(s, s.at[t].q, t))
  }

  /** The wake list holds the waiters, and the thread about to become one. */
  ghost predicate WakeOk(s: State)
  {
    NoDups(s.wake) && forall t :: t in s.wake ==> Waiting(s, t) || (s.pc.Listed? && t == s.current)
  }

  /** Nobody is lost: a started thread is current, queued to run, or waiting. */
  ghost predicate HomesOk(s: State)
  {
    forall t :: t in s.prio ==> t == s.current || Member(s.rq, t) || Waiting(s, t)
  }

  /** The current thread is not queued to run, and the idle thread always is ready. */
  ghost predicate PlacesOk(s: State)
  {
    && s.current in s.prio && !Member(s.rq, s.current)
    && (s.current == s.idle || s.current in s.onRq)
    && s.idle in s.prio && s.idle in s.running && (s.current == s.idle || Member(s.rq, s.idle))
    && (s.current in s.running || Waiting(s, s.current))
  }

  /** A current thread that stopped to wait is marked to be replaced. */
  ghost predicate CurrentOk(s: State)
  {
    PlacesOk(s) && (s.current !in s.running ==> s.current in s.need)
  }

  ghost predicate PcOk(s: State)
  {
    match s.pc
    case Ready => s.current in s.running
    case Checked(q) => s.current in s.running && s.current != s.idle && q in s.waits
    case Listed(q) => s.current in s.running && s.current != s.idle && q in s.waits && s.current in s.wake
    case Enqueued(q) => InList(s, q, s.current)
  }

  ghost predicate Inv(s: State)
  {
    !s.fault && RunQueueOk(s) && WaitersOk(s) && WakeOk(s) && HomesOk(s) && CurrentOk(s) && PcOk(s)
  }

  // ----- run queue lemmas

  lemma {:induction false} PlaceKeys(o: Order, q: seq<Entry<Tid>>, e: Entry<Tid>, prio: map<Tid, nat>, since: map<Tid, int>, idle: Tid)
    requires KeysAre(o, q, prio, since, idle)
    requires e.id in prio && e.id in since && e.key == KeyFor(o, prio[e.id], since[e.id], e.id == idle)
    ensures KeysAre(o, Place(o, q, e), prio, since, idle)
  {
    hide KeyFor;
    var p := Place(o, q, e);
    if q != [] {
      if Before(o, q[0], e) {
        assert p[1..] == [q[0].(ec := 0)] + q[1..] && p[1..][1..] == q[1..];
      } else {
        PlaceKeys(o, q[1..], e, prio, since, idle);
        assert p[1..] == Place(o, q[1..], e);
      }
    }
  }

  lemma {:induction false} RemoveKeys(o: Order, q: seq<Entry<Tid>>, id: Tid, prio: map<Tid, nat>, since: map<Tid, int>, idle: Tid)
    requires KeysAre(o, q, prio, since, idle) && Remove(q, id).Some?
    ensures KeysAre(o, Remove(q, id).value, prio, since, idle)
  {
    hide KeyFor;
    var r := Remove(q, id).value;
    if q[0].id == id {
      assert r != [] ==> r[1..] == q[1..][1..] && r[0].key == q[1].key && r[0].id == q[1].id;
    } else {
      RemoveKeys(o, q[1..], id, prio, since, idle);
      assert r[1..] == Remove(q[1..], id).value;
    }
  }

  /** What is known of a thread that is not queued may change. */
  lemma {:induction false} KeysChange(o: Order, q: seq<Entry<Tid>>, prio: map<Tid, nat>, since: map<Tid, int>, idle: Tid,
                                      t: Tid, prio': map<Tid, nat>, since': map<Tid, int>)
    requires KeysAre(o, q, prio, since, idle) && !Member(q, t)
    requires forall x :: x != t ==>
      (x in prio ==> x in prio' && prio'[x] == prio[x]) && (x in since ==> x in since' && since'[x] == since[x])
    ensures KeysAre(o, q, prio', since', idle)
  {
    hide KeyFor;
    if q != [] {
      KeysChange(o, q[1..], prio, since, idle, t, prio', since');
    }
  }

  /** Sorting a thread in keeps the run queue in order and adds just that thread. */
  lemma EnteredOk(s: State, t: Tid)
    requires RunQueueOk(s) && !Member(s.rq, t) && t in s.running && t in s.onRq && t in s.prio
    ensures RunQueueOk(Entered(s, t))
    ensures forall x :: Member(Entered(s, t).rq, x) <==> Member(s.rq, x) || x == t
  {
    var e, n := Entry(t, KeyOf(s, t), 0), Entered(s, t);
    PlaceDistinct(s.order, s.rq, e);
    PlaceEvents(s.order, s.rq, e);
    if s.order != Fifo {
      PlaceSorted(s.order, s.rq, e);
    }
    KeysChange(s.order, s.rq, s.prio, s.since, s.idle, t, s.prio, n.since);
    PlaceKeys(s.order, s.rq, e, s.prio, n.since, s.idle);
    PlaceMembers(s.order, s.rq, e, t);
    forall x
      ensures Member(n.rq, x) <==> Member(s.rq, x) || x == t
    {
      PlaceMembers(s.order, s.rq, e, x);
    }
  }

  lemma RqRemoveOk(s: State, t: Tid)
    requires RunQueueOk(s) && Member(s.rq, t)
    ensures RunQueueOk(RqRemove(s, t)) && Remove(s.rq, t).Some?
    ensures forall x :: Member(RqRemove(s, t).rq, x) <==> Member(s.rq, x) && x != t
  {
    var n := RqRemove(s, t);
    RemoveMembers(s.rq, t, t);
    NoEventsRemove(s.rq, t);
    if s.order != Fifo {
      RemoveSorted(s.rq, t, 0);
    }
    RemoveKeys(s.order, s.rq, t, s.prio, s.since, s.idle);
    forall x
      ensures Member(n.rq, x) <==> Member(s.rq, x) && x != t
    {
      RemoveMembers(s.rq, t, x);
    }
  }
}
