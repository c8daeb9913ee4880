/** mutex.c: a recursive mutex over an event queue. A thread in mutex_lock has preemption
    off, so past the test of its loop it leaves the CPU only by blocking. */
module Mutex {
  import opened QueueIds
  import opened QueueSpec
  import opened ThreadQueue
  import opened Wrappers

  type Tid = nat

  /** Where a thread is: outside; before the test of the wait loop; in raw_event_wait
      before and after its check; queued; past the release and before its notify. */
  datatype Place = Out | Contend | Waiting | Enqueuing | Queued | Notifying

  datatype Lock = Lock(
    count: int, owner: Option<Tid>, head: Head<Tid>, current: Tid,
    places: map<Tid, Place>, depth: map<Tid, int>)

  /** mutex_init; depths and places start at 0 and Out. */
  function Unlocked(current: Tid): Lock
  {
    Lock(0, None, Signaled, current, map[], map[])
  }

  function PlaceOf(s: Lock, t: Tid): Place
  {
    if t in s.places then s.places[t] else Out
  }

  /** Completed locks less unlocks of thread `t`. */
  function DepthOf(s: Lock, t: Tid): int
  {
    if t in s.depth then s.depth[t] else 0
  }

  datatype Move = Enter | Test | Wait | Enlist | Release | Notify | PostIrq | Deliver | Switch(t: Tid)

  /** The scheduler is entered from outside the mutex code or by a queued thread, which it
      may have woken, and so sent back to the test, before it switches away from it. Any
      thread at the test may be left here: that is more than the code allows. */
  predicate MaySchedule(s: Lock)
  {
    var p := PlaceOf(s, s.current);
    p == Out || p == Queued || p == Contend
  }

  predicate Ready(s: Lock, m: Move)
  {
    var p := PlaceOf(s, s.current);
    match m
    case Enter => p == Out
    case Test => p == Contend
    case Wait => p == Waiting
    case Enlist => p == Enqueuing
    case Release => p == Out
    case Notify => p == Notifying
    case PostIrq => true
    case Deliver => MaySchedule(s) && s.head.Threads? && s.head.q != [] && s.head.q[0].ec > 0
    case Switch(t) => MaySchedule(s) && PlaceOf(s, t) != Queued
  }

  function At(s: Lock, p: Place): Lock
  {
    s.(places := s.places[s.current := p])
  }

  /** The head of the queue goes back to the test of the wait loop. */
  function Woken(s: Lock): Lock
    requires s.head.Threads? && s.head.q != []
  {
    s.(head := AfterFirst(s.head.q), places := s.places[s.head.q[0].id := Contend])
  }

  /** One step; nothing when the kernel panics. */
  function Next(s: Lock, m: Move): Option<Lock>
    requires Ready(s, m)
  {
    var t := s.current;
    match m
    case Enter =>
      Some(if s.owner == Some(t) then s.(count := s.count + 1, depth := s.depth[t := DepthOf(s, t) + 1]) else At(s, Contend))
    case Test =>
      Some(if s.count == 0
           then At(s, Out).(count := s.count + 1, owner := Some(t), depth := s.depth[t := DepthOf(s, t) + 1])
           else At(s, Waiting))
    case Wait =>
      Some(if s.head.Signaled? then At(s, Contend).(head := Threads([])) else At(s, Enqueuing))
    case Enlist => Some(At(s, Queued).(head := Insert(Fifo, s.head, Entry(t, 0, 0))))
    case Release =>
      if s.owner != Some(t) then None
      else
        var less := s.(count := s.count - 1, depth := s.depth[t := DepthOf(s, t) - 1]);
        Some(if less.count == 0 then At(less, Notifying).(owner := None) else less)
    case Notify =>
      Some(if s.head.Signaled? then At(s, Out)
           else if s.head.q == [] then At(s, Out).(head := Signaled)
           else Woken(At(s, Out)))
    case PostIrq => Some(s.(head := Posted(s.head)))
    case Deliver => Some(Woken(s.(head := Threads(Recounted(s.head.q, s.head.q[0].ec - 1)))))
    case Switch(u) => Some(s.(current := u))
  }

  // ----- the invariant

  /** The owner is the one thread with locks to undo, and `count` is their number. */
  ghost predicate CountOk(s: Lock)
  {
    && 0 <= s.count && (s.owner == None <==> s.count == 0)
    && (forall t: Tid :: DepthOf(s, t) == if s.owner == Some(t) then s.count else 0)
    && (s.owner.Some? ==> PlaceOf(s, s.owner.value) == Out)
  }

  ghost predicate Listed(s: Lock, t: Tid)
  {
    Has(s.head, t)
  }

  ghost predicate PlacesOk(s: Lock)
  {
    && HeadOk(s.head)
    && (forall t: Tid :: Listed(s, t) <==> PlaceOf(s, t) == Queued)
    && (forall t: Tid :: PlaceOf(s, t) == Waiting || PlaceOf(s, t) == Enqueuing ==> t == s.current && s.count > 0)
    && (forall t: Tid :: PlaceOf(s, t) == Notifying ==> t == s.current && s.count == 0)
  }

  /** Someone will pass the mutex on: it is held, about to be notified, or a woken
      contender is about to test it again. */
  ghost predicate InHand(s: Lock)
  {
    s.count > 0 || PlaceOf(s, s.current) == Notifying || exists t: Tid :: PlaceOf(s, t) == Contend
  }

  ghost predicate Inv(s: Lock)
  {
    CountOk(s) && PlacesOk(s) && (s.head.Threads? && s.head.q != [] ==> InHand(s))
  }

  lemma EnlistKeeps(s: Lock)
    requires Inv(s) && Ready(s, Enlist)
    ensures Inv(Next(s, Enlist).value)
  {
    var t, n := s.current, Next(s, Enlist).value;
    assert forall x: Tid :: PlaceOf(n, x) == if x == t then Queued else PlaceOf(s, x);
    assert !Listed(s, t);
    LastJoins(s.head, t, t);
    forall x: Tid
      ensures Listed(n, x) <==> Listed(s, x) || x == t
    {
      LastJoins(s.head, t, x);
    }
  }

  lemma WokenKeeps(s: Lock)
    requires CountOk(s) && PlacesOk(s) && s.head.Threads? && s.head.q != []
    ensures CountOk(Woken(s)) && PlacesOk(Woken(s)) && InHand(Woken(s))
  {
    var list, n := s.head.q, Woken(s);
    var t := list[0].id;
    assert Listed(s, t);
    FirstLeaves(list, t);
    forall x: Tid
      ensures Listed(n, x) <==> Listed(s, x) && x != t
    {
      FirstLeaves(list, x);
    }
    assert forall x: Tid :: PlaceOf(n, x) == if x == t then Contend else PlaceOf(s, x);
    assert PlaceOf(n, t) == Contend;
  }

  lemma ReleaseKeeps(s: Lock)
    requires Inv(s) && Ready(s, Release) && s.owner == Some(s.current)
    ensures Next(s, Release).Some? && Inv(Next(s, Release).value)
  {
    var n := Next(s, Release).value;
    assert DepthOf(s, s.current) == s.count;
    assert forall x: Tid :: PlaceOf(n, x) == if x == s.current && n.count == 0 then Notifying else PlaceOf(s, x);
    assert forall x: Tid :: DepthOf(n, x) == if x == s.current then s.count - 1 else DepthOf(s, x);
    assert forall x: Tid :: Listed(n, x) <==> Listed(s, x);
  }

  /** Only the counter of the first waiter changes. */
  lemma RecountKeeps(s: Lock, ec: int)
    requires Inv(s) && s.head.Threads? && s.head.q != [] && 0 <= ec < 256
    ensures Inv(s.(head := Threads(Recounted(s.head.q, ec))))
  {
    var n := s.(head := Threads(Recounted(s.head.q, ec)));
    RecountedKeeps(s.head.q, ec, s.current);
    forall x: Tid
      ensures Listed(n, x) <==> Listed(s, x)
    {
      RecountedKeeps(s.head.q, ec, x);
    }
    assert forall x: Tid :: PlaceOf(n, x) == PlaceOf(s, x) && DepthOf(n, x) == DepthOf(s, x);
  }

  lemma DeliverKeeps(s: Lock)
    requires Inv(s) && Ready(s, Deliver)
    ensures Inv(Next(s, Deliver).value)
  {
    RecountKeeps(s, s.head.q[0].ec - 1);
    WokenKeeps(s.(head := Threads(Recounted(s.head.q, s.head.q[0].ec - 1))));
  }

  lemma PostKeeps(s: Lock)
    requires Inv(s)
    ensures Inv(Next(s, PostIrq).value)
  {
    if s.head.Threads? && s.head.q != [] {
      RecountKeeps(s, (s.head.q[0].ec + 1) % 256);
    } else {
      assert forall x: Tid :: !Listed(s, x) && !Listed(s.(head := Signaled), x);
    }
  }

  lemma NotifyKeeps(s: Lock)
    requires Inv(s) && Ready(s, Notify)
    ensures Inv(Next(s, Notify).value)
  {
    var out, n := At(s, Out), Next(s, Notify).value;
    assert CountOk(out) && PlacesOk(out) by {
      assert forall x: Tid :: PlaceOf(out, x) == if x == s.current then Out else PlaceOf(s, x);
      assert forall x: Tid :: Listed(out, x) <==> Listed(s, x);
    }
    if s.head.Threads? && s.head.q != [] {
      WokenKeeps(out);
    } else {
      assert forall x: Tid :: !Listed(s, x) && !Listed(n, x);
    }
  }

  lemma TestKeeps(s: Lock, m: Move)
    requires Inv(s) && Ready(s, m) && (m.Enter? || m.Test? || m.Wait?)
    ensures Inv(Next(s, m).value)
  {
    var n := Next(s, m).value;
    assert forall x: Tid :: Listed(n, x) <==> Listed(s, x);
    assert forall x: Tid :: x != s.current ==> PlaceOf(n, x) == PlaceOf(s, x) && DepthOf(n, x) == DepthOf(s, x);
    assert DepthOf(s, s.current) == if s.owner == Some(s.current) then s.count else 0;
  }

  lemma SwitchKeeps(s: Lock, t: Tid)
    requires Inv(s) && Ready(s, Switch(t))
    ensures Inv(Next(s, Switch(t)).value)
  {
    var n := Next(s, Switch(t)).value;
    assert forall x: Tid :: (Listed(n, x) <==> Listed(s, x)) && PlaceOf(n, x) == PlaceOf(s, x) && DepthOf(n, x) == DepthOf(s, x);
  }

  /** A step keeps the invariant, and panics exactly when a thread unlocks a mutex that
      it does not own. */
  lemma StepKeeps(s: Lock, m: Move)
    requires Inv(s) && Ready(s, m)
    ensures Next(s, m) == None <==> m == Release && s.owner != Some(s.current)
    ensures Next(s, m).Some? ==> Inv(Next(s, m).value)
  {
    assert DepthOf(s, s.current) == if s.owner == Some(s.current) then s.count else 0;
    match m
    case Enter => TestKeeps(s, m);
    case Test => TestKeeps(s, m);
    case Wait => TestKeeps(s, m);
    case Enlist => EnlistKeeps(s);
    case Release => if s.owner == Some(s.current) { ReleaseKeeps(s); }
    case Notify => NotifyKeeps(s);
    case PostIrq => PostKeeps(s);
    case Deliver => DeliverKeeps(s);
    case Switch(t) => SwitchKeeps(s, t);
  }

  // ----- whole runs

  ghost predicate CanRun(s: Lock, moves: seq<Move>)
    decreases |moves|
  {
    moves == [] || (Ready(s, moves[0]) && Next(s, moves[0]).Some? && CanRun(Next(s, moves[0]).value, moves[1..]))
  }

  ghost function Run(s: Lock, moves: seq<Move>): Lock
    requires CanRun(s, moves)
    decreases |moves|
  {
    if moves == [] then s else Run(Next(s, moves[0]).value, moves[1..])
  }

  lemma {:induction false} RunKeeps(s: Lock, moves: seq<Move>)
    requires Inv(s) && CanRun(s, moves)
    ensures Inv(Run(s, moves))
    decreases |moves|
  {
    if moves != [] {
      StepKeeps(s, moves[0]);
      RunKeeps(Next(s, moves[0]).value, moves[1..]);
    }
  }

  /** After any run: `count` is the depth of the one owner, the owner is NULL exactly when
      it is 0, no other thread has a lock to undo, and queued waiters are never stranded. */
  lemma EveryRun(t: Tid, moves: seq<Move>)
    requires CanRun(Unlocked(t), moves)
    ensures var s := Run(Unlocked(t), moves);
            && (s.owner == None <==> s.count == 0)
            && (forall u: Tid :: DepthOf(s, u) != 0 ==> s.owner == Some(u) && DepthOf(s, u) == s.count)
            && (forall u: Tid, v: Tid :: DepthOf(s, u) != 0 && DepthOf(s, v) != 0 ==> u == v)
            && (forall u: Tid :: PlaceOf(s, u) == Queued ==> InHand(s))
  {
    var s := Run(Unlocked(t), moves);
    RunKeeps(Unlocked(t), moves);
    forall u: Tid | PlaceOf(s, u) == Queued
      ensures InHand(s)
    {
      assert Listed(s, u);
    }
  }

  // ----- the mutex object

  /** mutex_lock and mutex_unlock as they update the mutex and its linked queue in place,
      cut where an interrupt or another thread may come in; the places and depths are
      ghosts. */
  class MutexObject {
    const qp: Queue
    var count: int
    var owner: Thread?
    var current: Thread
    ghost var all: map<Tid, Thread>
    ghost var places: map<Tid, Place>
    ghost var depth: map<Tid, int>

    ghost function View(): Lock
      reads this, qp
    {
      Lock(count, if owner == null then None else Some(owner.id), HeadIds(qp.View()), current.id, places, depth)
    }

    /** The queue is linked, and every thread has its number to itself. */
    ghost predicate Valid()
      reads this`all, this`owner, this`current, qp, qp.threads
    {
      && qp.Valid() && qp.order == Fifo && Known(all, current) && (owner != null ==> Known(all, owner))
      && (forall i :: i in all ==> all[i].id == i) && (forall t :: t in qp.threads ==> Known(all, t))
    }

    /** mutex_init. */
    constructor (current: Thread)
      ensures Valid() && Inv(View()) && View() == Unlocked(current.id) && fresh(qp)
    {
      count, owner, this.current, places, depth := 0, null, current, map[], map[];
      all := map[current.id := current];
      qp := new Queue(Fifo);
    }

    /** The end of mutex_lock. */
    method Take()
      requires Valid()
      modifies this`count, this`owner, this`depth
      ensures Valid() && count == old(count) + 1 && owner == current
      ensures depth == old(depth)[current.id := old(DepthOf(View(), current.id)) + 1]
    {
      depth := depth[current.id := DepthOf(View(), current.id) + 1];
      count := count + 1;
      owner := current;
    }

    /** mutex_lock up to its loop: true when the caller holds the mutex already, and then
        it holds it once more. */
    method EnterLock() returns (done: bool)
      requires Valid() && Inv(View()) && Ready(View(), Enter)
      modifies this`count, this`owner, this`depth, this`places
      ensures Valid() && Inv(View()) && Some(View()) == Next(old(View()), Enter)
      ensures done == (old(DepthOf(View(), current.id)) > 0)
      ensures DepthOf(View(), current.id) == old(DepthOf(View(), current.id)) + (if done then 1 else 0)
    {
      hide Inv;
      ghost var s := View();
      StepKeeps(s, Enter);
      OwnDepth(s);
      done := owner == current;
      if done {
        Take();
      } else {
        places := places[current.id := Contend];
      }
    }

    /** The loop test of mutex_lock, and the take when it ends: the caller then holds the
        mutex once, and no other thread does. */
    method TestCount() returns (done: bool)
      requires Valid() && Inv(View()) && Ready(View(), Test)
      modifies this`count, this`owner, this`depth, this`places
      ensures Valid() && Inv(View()) && Some(View()) == Next(old(View()), Test)
      ensures done == forall u: Tid :: old(DepthOf(View(), u)) == 0
      ensures done ==> forall u: Tid :: DepthOf(View(), u) == if u == current.id then 1 else 0
    {
      ghost var s := View();
      StepKeeps(s, Test);
      HeldByOwner(s);
      done := count == 0;
      if done {
        Take();
        places := places[current.id := Out];
      } else {
        places := places[current.id := Waiting];
      }
    }

    /** The check of raw_event_wait: a signal sends the caller back to the test, and is
        gone; without one the caller goes on to wait. */
    method CheckSignal() returns (done: bool)
      requires Valid() && Inv(View()) && Ready(View(), Wait)
      modifies this`places, qp
      ensures Valid() && Inv(View()) && Some(View()) == Next(old(View()), Wait)
      ensures done == old(View().head.Signaled?) && !View().head.Signaled?
    {
      StepKeeps(View(), Wait);
      done := qp.TakeSignal();
      places := places[current.id := if done then Contend else Enqueuing];
    }

    /** mutex_unlock up to its notify: it panics exactly when the caller has no lock to
        undo; else one is undone, and the owner is NULL when it was the last. */
    method Unlock() returns (panics: bool)
      requires Valid() && Inv(View()) && Ready(View(), Release)
      modifies this`count, this`owner, this`depth, this`places
      ensures Valid() && Inv(View())
      ensures panics == (old(DepthOf(View(), current.id)) == 0)
      ensures if panics then View() == old(View()) else Some(View()) == Next(old(View()), Release)
      ensures !panics ==> DepthOf(View(), current.id) == old(DepthOf(View(), current.id)) - 1
      ensures !panics ==> (owner == null <==> DepthOf(View(), current.id) == 0)
    {
      hide Inv;
      ghost var s := View();
      StepKeeps(s, Release);
      OwnDepth(s);
      if owner != current {
        return true;
      }
      panics := false;
      count := count - 1;
      depth := depth[current.id := DepthOf(View(), current.id) - 1];
      if count == 0 {
        owner := null;
        places := places[current.id := Notifying];
      }
    }

    /** A number is listed exactly when its thread is linked into the queue. */
    lemma Linked(n: Tid)
      requires Valid() && n in all
      ensures Listed(View(), n) <==> all[n] in qp.threads
    {
      assert forall i :: 0 <= i < |qp.entries| ==> qp.entries[i] == qp.EntryOf(qp.threads[i]) && qp.threads[i] in qp.threads;
      IdsMember(all, qp.entries, n);
    }

    /** queue_add_thread of raw_event_wait: the caller becomes the last waiter. */
    method JoinQueue()
      requires Valid() && Inv(View()) && Ready(View(), Enlist)
      modifies this`places, qp, current`ec, current`next, qp.threads`ec, qp.threads`next
      ensures Valid() && Inv(View()) && Some(View()) == Next(old(View()), Enlist)
      ensures Listed(View(), current.id) && forall t :: t in qp.threads <==> t in old(qp.threads) || t == current
    {
      hide Inv;
      ghost var s := View();
      StepKeeps(s, Enlist);
      HeadIsOk(s);
      NotYetListed(s);
      Linked(current.id);
      LastJoins(s.head, current.id, current.id);
      IdsInsert(Fifo, qp.View(), qp.EntryOf(current));
      qp.InsertThread(current);
      places := places[current.id := Queued];
    }

    /** mutex_unlock_irq. */
    method UnlockIrq()
      requires Valid() && Inv(View())
      modifies qp, qp.threads`ec
      ensures Valid() && Inv(View()) && Some(View()) == Next(old(View()), PostIrq)
    {
      StepKeeps(View(), PostIrq);
      IdsPosted(qp.View());
      qp.Post();
    }

    method TakeWaiter() returns (tp: Thread)
      requires Valid() && qp.threads != []
      modifies qp, qp.threads`ec, qp.threads`next
      ensures Valid() && old(View().head.Threads?) && old(View().head.q) != [] && tp.id == old(View().head.q[0].id)
      ensures View() == old(View()).(head := AfterFirst(old(View().head.q)))
    {
      IdsFirst(qp.entries);
      assert qp.entries[0] == qp.EntryOf(qp.threads[0]);
      tp := qp.TakeFirst();
    }

    /** event_notify at the end of mutex_unlock, with preemption off: the first waiter goes
        back to the test of the loop, or the event is on record when nobody waits. */
    method NotifyWaiter()
      requires Valid() && Inv(View()) && Ready(View(), Notify)
      modifies this`places, qp, qp.threads`ec, qp.threads`next
      ensures Valid() && Inv(View()) && Some(View()) == Next(old(View()), Notify)
      ensures var h := old(View().head);
              if h.Threads? && h.q != [] then PlaceOf(View(), h.q[0].id) == Contend && !Listed(View(), h.q[0].id)
              else View().head.Signaled?
    {
      hide Inv;
      ghost var s := View();
      StepKeeps(s, Notify);
      HeadIsOk(s);
      places := places[current.id := Out];
      if qp.root == NULL {
        qp.Overwrite();
      } else if qp.root != SIGNALED {
        FirstLeaves(s.head.q, s.head.q[0].id);
        var tp := TakeWaiter();
        places := places[tp.id := Contend];
      }
    }
  }

  lemma HeadIsOk(s: Lock)
    requires Inv(s)
    ensures HeadOk(s.head)
  {
  }

  lemma NotYetListed(s: Lock)
    requires Inv(s) && Ready(s, Enlist)
    ensures !Listed(s, s.current)
  {
    assert Listed(s, s.current) <==> PlaceOf(s, s.current) == Queued;
  }

  lemma OwnDepth(s: Lock)
    requires Inv(s)
    ensures DepthOf(s, s.current) == if s.owner == Some(s.current) then s.count else 0
    ensures 0 <= s.count && (s.owner == None <==> s.count == 0)
  {
  }

  lemma HeldByOwner(s: Lock)
    requires Inv(s)
    ensures s.count == 0 <==> forall u: Tid :: DepthOf(s, u) == 0
  {
    if s.count > 0 {
      assert DepthOf(s, s.owner.value) == s.count;
    }
  }
}
