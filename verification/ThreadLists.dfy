/** The run queue and the wait queues of one CPU, linked over the same threads: what a
    step of the scheduler does to them, told by the numbers of the threads. */
module ThreadLists {
  import opened QueueIds
  import opened QueueSpec
  import opened Scheduler
  import opened ThreadQueue
  import opened WaitQueues
  import opened Wrappers

  class Lists {
    const order: Order
    const idle: Thread
    const rq: Queue
    const ws: Waits
    var table: map<Tid, Thread>                // the started threads

    /** The run queue by numbers. */
    ghost function Run(): seq<Entry<Tid>>
      reads rq
    {
      Ids(rq.entries)
    }

    /** The wait queues by numbers. */
    ghost function Heads(): map<Qid, Head<Tid>>
      reads ws, ws.queues.Values
    {
      ws.Heads()
    }

    ghost function Prios(): map<Tid, nat>
      reads this`table, table.Values`base
    {
      map i | i in table :: table[i].base
    }

    /** Everything that is relinked. */
    ghost function Footprint(): set<object>
      reads this`table, ws`queues
    {
      {rq, ws} + ws.queues.Values + table.Values
    }

    /** Each thread has its number to itself; one that is queued to run does not wait. */
    ghost predicate Named()
      reads this`table, rq, ws
    {
      && (forall i :: i in table ==> table[i].id == i && (table[i].idle <==> i == idle.id))
      && Known(table, idle)
      && (forall t :: t in rq.threads ==> Known(table, t) && t !in ws.home)
      && (forall t :: t in ws.home ==> Known(table, t))
    }

    ghost predicate RunQueueLinked()
      reads rq, rq.threads
    {
      rq.Valid() && rq.order == order && rq.root != SIGNALED
    }

    ghost predicate Valid()
      reads this`table, rq, rq.threads, ws, ws.queues.Values, ws.home.Keys, table.Values
    {
      && Named() && rq !in ws.queues.Values && RunQueueLinked() && ws.Valid()
      && (forall i :: i in table ==> table[i].dprio == 0)
    }

    /** A number is queued to run exactly when its thread is linked in. */
    lemma InRunQueue(n: Tid)
      requires Valid()
      ensures Member(Run(), n) <==> n in table && table[n] in rq.threads
    {
      assert forall i :: 0 <= i < |rq.entries| ==> rq.entries[i] == rq.EntryOf(rq.threads[i]) && rq.threads[i] in rq.threads;
      if n in table {
        IdsMember(table, rq.entries, n);
      } else {
        IdsUnknown(table, rq.entries, n);
      }
    }

    /** A number waits exactly where its thread is at home. */
    lemma InWaitQueue(q: Qid, n: Tid)
      requires Valid() && q in ws.queues
      ensures Has(Heads()[q], n) <==> n in table && table[n] in ws.home && ws.home[table[n]] == q
    {
      ws.AtHome(table, q, n);
    }

    /** Only the idle thread is there, and it is not queued. */
    constructor (order: Order, idle: Thread)
      requires idle.idle && idle.dprio == 0
      ensures Valid() && this.order == order && this.idle == idle && table == map[idle.id := idle] && Run() == [] && Heads() == map[]
      ensures Prios() == map[idle.id := idle.base] && fresh(Footprint() - {idle})
    {
      hide Waits.Valid, Queue.Valid;
      this.order, this.idle := order, idle;
      rq := new Queue.Runnable(order);
      ws := new Waits();
      table := map[idle.id := idle];
    }

    // ----- the run queue

    lemma QueuedAreStarted()
      requires Named()
      ensures forall t :: t in rq.threads ==> t in table.Values
    {
      forall t | t in rq.threads
        ensures t in table.Values
      {
        assert table[t.id] == t;
      }
    }

    /** The wait queues are apart from the run queue. */
    ghost predicate Apart()
      reads rq, ws
    {
      rq !in ws.queues.Values && forall t :: t in rq.threads ==> t !in ws.home
    }

    /** The wait queues and the priorities are as they were. */
    twostate predicate WaitsUntouched()
      reads this`table, ws, ws.queues.Values, ws.home.Keys, table.Values
    {
      && unchanged(`table) && unchanged(ws) && unchanged(ws.queues.Values) && unchanged(ws.home.Keys)
      && forall i :: i in table ==> table[i].base == old(table[i].base) && table[i].dprio == old(table[i].dprio)
    }

    twostate lemma WaitsStay()
      requires old(Valid()) && WaitsUntouched() && RunQueueLinked()
      requires forall t :: t in rq.threads ==> Known(table, t) && t !in ws.home
      ensures Valid() && Heads() == old(Heads()) && Prios() == old(Prios())
    {
      ws.Untouched();
    }

    /** The entry a thread is queued to run with. */
    ghost function EntryFor(tp: Thread, tick: int): Entry<Thread>
      reads tp`base, tp`dprio
    {
      Entry(tp, KeyFor(order, tp.Prio(), tick, tp.idle), 0)
    }

    method Link(tp: Thread, tick: int)
      requires RunQueueLinked() && tp !in rq.threads
      modifies rq, tp`ec, tp`next, tp`deadline, rq.threads`ec, rq.threads`next
      ensures RunQueueLinked() && rq.entries == Place(order, old(rq.entries), old(EntryFor(tp, tick)))
      ensures forall t :: t in rq.threads <==> t in old(rq.threads) || t == tp
    {
      if order == Edf {
        rq.InsertByDeadline(tp, tick);
      } else {
        rq.InsertThread(tp);
      }
    }

    method Put(tp: Thread, tick: int)
      requires RunQueueLinked() && Apart() && tp !in rq.threads && tp !in ws.home
      modifies rq, tp`ec, tp`next, tp`deadline, rq.threads`ec, rq.threads`next
      ensures RunQueueLinked() && WaitsUntouched() && rq.entries == Place(order, old(rq.entries), old(EntryFor(tp, tick)))
      ensures forall t :: t in rq.threads <==> t in old(rq.threads) || t == tp
    {
      Link(tp, tick);
    }

    /** The thread with number `n` is in none of the queues. */
    ghost predicate Loose(n: Tid)
      reads rq, ws, ws.queues.Values
    {
      !Member(Run(), n) && forall q :: q in Heads() ==> !Has(Heads()[q], n)
    }

    lemma LooseThread(tp: Thread)
      requires Valid() && Known(table, tp) && Loose(tp.id)
      ensures tp !in rq.threads && tp !in ws.home
    {
      InRunQueue(tp.id);
      if tp in ws.home {
        InWaitQueue(ws.home[tp], tp.id);
      }
    }

    lemma EntryIs(tp: Thread, tick: int)
      requires Valid() && Known(table, tp)
      ensures Place(order, Run(), Entry(tp.id, KeyFor(order, tp.base, tick, tp.id == idle.id), 0))
           == Ids(Place(order, rq.entries, EntryFor(tp, tick)))
    {
      assert tp.dprio == 0 && IdOf(EntryFor(tp, tick)) == Entry(tp.id, KeyFor(order, tp.base, tick, tp.id == idle.id), 0);
      IdsPlace(order, rq.entries, EntryFor(tp, tick));
    }

    /** add_thread of the scheduling class. */
    method Insert(tp: Thread, tick: int)
      requires Valid() && Known(table, tp) && Loose(tp.id)
      modifies Footprint()
      ensures Valid() && ws.queues == old(ws.queues) && Prios() == old(Prios()) && Heads() == old(Heads())
      ensures Run() == Place(order, old(Run()), Entry(tp.id, KeyFor(order, tp.base, tick, tp.id == idle.id), 0))
    {
      QueuedAreStarted();
      LooseThread(tp);
      EntryIs(tp, tick);
      Put(tp, tick);
      WaitsStay();
    }

    method Unlink(tp: Thread) returns (ok: bool)
      requires RunQueueLinked() && Known(table, tp) && forall t :: t in rq.threads ==> Known(table, t)
      modifies rq, rq.threads`ec, rq.threads`next
      ensures RunQueueLinked() && forall t :: t in rq.threads ==> t in old(rq.threads)
      ensures Remove(old(Ids(rq.entries)), tp.id) == if ok then Some(Ids(rq.entries)) else None
      ensures !ok ==> rq.entries == old(rq.entries)
    {
      assert forall i :: 0 <= i < |rq.entries| ==> rq.entries[i] == rq.EntryOf(rq.threads[i]) && rq.threads[i] in rq.threads;
      IdsRemove(table, rq.entries, tp);
      if tp !in rq.threads {
        NotQueued(rq.entries, tp);
      }
      ok := rq.RemoveThread(tp);
    }

    /** rm_thread of the scheduling class. */
    method Delete(tp: Thread) returns (ok: bool)
      requires Valid() && Known(table, tp)
      modifies Footprint()
      ensures Valid() && ws.queues == old(ws.queues) && Prios() == old(Prios()) && Heads() == old(Heads())
      ensures Remove(old(Run()), tp.id) == (if ok then Some(Run()) else None) && (!ok ==> Run() == old(Run()))
    {
      QueuedAreStarted();
      ok := Unlink(tp);
      WaitsStay();
    }

    lemma IdleFlag(tp: Thread)
      requires Valid() && Known(table, tp)
      ensures tp.idle <==> tp.id == idle.id
    {
    }

    /** prio(): the dynamic priorities are all 0 here. */
    method PrioOf(tp: Thread) returns (p: int)
      requires Valid() && Known(table, tp)
      ensures p == tp.base && tp.id in Prios() && Prios()[tp.id] == p
    {
      assert table[tp.id].dprio == 0;
      p := tp.Prio();
    }

    /** `tp->prio = prio;` for a thread in none of the queues. */
    method Renice(tp: Thread, prio: nat)
      requires Valid() && Known(table, tp) && Loose(tp.id)
      modifies tp`base
      ensures Valid() && Run() == old(Run()) && Heads() == old(Heads()) && Prios() == old(Prios())[tp.id := prio]
    {
      LooseThread(tp);
      tp.base := prio;
      rq.Untouched();
      ws.Untouched();
    }

    /** next_runnable of the class: the first queued thread that is RUNNING, else null. */
    method Next(running: set<Tid>, ghost current: Tid) returns (next: Thread?)
      requires Valid()
      ensures NextRunnable(Run(), running, current) == if next == null then current else next.id
      ensures next != null ==> Known(table, next)
    {
      next := if rq.root == NULL then null else rq.root.t;
      ghost var i := 0;
      while next != null && next.id !in running
        invariant i <= |rq.threads| == |Run()| && next == rq.After(i - 1)
        invariant NextRunnable(Run()[i..], running, current) == NextRunnable(Run(), running, current)
        decreases |rq.threads| - i
      {
        IdsAt(rq.entries, i);
        assert rq.entries[i] == rq.EntryOf(rq.threads[i]) && Run()[i..][1..] == Run()[i + 1..];
        next, i := next.next, i + 1;
      }
      if next != null {
        IdsAt(rq.entries, i);
        assert rq.entries[i] == rq.EntryOf(rq.threads[i]);
      }
    }

    // ----- the wait queues

    /** The run queue and the priorities are as they were. */
    twostate predicate RunUntouched()
      reads this`table, rq, rq.threads, ws`queues, table.Values
    {
      && unchanged(rq) && unchanged(rq.threads) && ws.queues == old(ws.queues) && unchanged(`table)
      && forall i :: i in table ==> table[i].base == old(table[i].base) && table[i].dprio == old(table[i].dprio)
    }

    twostate lemma RunStays()
      requires old(Valid()) && RunUntouched()
      requires forall t :: t in ws.home ==> Known(table, t) && t !in rq.threads
      ensures Run() == old(Run()) && Prios() == old(Prios()) && (ws.Valid() ==> Valid())
    {
      rq.Untouched();
    }

    method Join(q: Qid, tp: Thread)
      requires ws.Valid() && Apart() && q in ws.queues && tp !in rq.threads && tp !in ws.home
      modifies ws`home, ws.At(q), tp`ec, tp`next, ws.home.Keys`ec, ws.home.Keys`next
      ensures ws.Valid() && ws.home == old(ws.home)[tp := q] && RunUntouched()
      ensures ws.Heads() == old(ws.Heads())[q := QueueSpec.Insert(Fifo, old(ws.Heads()[q]), Entry(tp.id, 0, 0))]
    {
      hide Waits.Valid, Waits.QueueOk, Waits.Heads, Queue.Valid, Queue.View;
      ws.Enqueue(q, tp);
    }

    /** queue_add of the FIFO class. */
    method Enqueue(q: Qid, tp: Thread)
      requires Valid() && q in Heads() && Known(table, tp) && Loose(tp.id)
      modifies Footprint()
      ensures Valid() && ws.queues == old(ws.queues) && Prios() == old(Prios()) && Run() == old(Run())
      ensures Heads() == old(Heads())[q := QueueSpec.Insert(Fifo, old(Heads()[q]), Entry(tp.id, 0, 0))]
    {
      LooseThread(tp);
      Join(q, tp);
      RunStays();
    }

    method Leave(q: Qid, ghost list: seq<Entry<Tid>>)
      requires ws.Valid() && Apart() && q in ws.queues && ws.Heads()[q] == Threads(list) && list != []
      modifies ws`home, ws.At(q), ws.home.Keys`ec, ws.home.Keys`next
      ensures ws.Valid() && RunUntouched() && ws.Heads() == old(ws.Heads())[q := AfterFirst(list)]
      ensures forall t :: t in ws.home ==> t in old(ws.home)
    {
      hide Waits.Valid, Waits.QueueOk, Waits.Heads, Queue.Valid, Queue.View;
      ws.DropFirst(q, list);
    }

    /** thread_queue_init. */
    method Open(q: Qid)
      requires Valid() && q !in Heads()
      modifies ws`queues
      ensures Valid() && Run() == old(Run()) && Heads() == old(Heads())[q := Signaled]
      ensures q in ws.queues && Footprint() == old(Footprint()) + {ws.queues[q]} && fresh(ws.queues[q])
    {
      ghost var queues := ws.queues;
      ws.Open(q);
      ValuesGrow(queues, q, ws.queues[q]);
      rq.Untouched();
    }

    twostate lemma TableGrew(tp: Thread)
      requires old(Valid()) && tp.id !in old(table) && table == old(table)[tp.id := tp] && !tp.idle && tp.dprio == 0
      requires unchanged(rq) && unchanged(rq.threads) && unchanged(ws) && unchanged(ws.queues.Values) && unchanged(ws.home.Keys)
      requires unchanged(old(table.Values))
      ensures Valid() && Heads() == old(Heads())
    {
      hide Waits.Valid, Waits.Heads, Queue.Valid, Queue.View;
      ws.Untouched();
      rq.Untouched();
    }

    /** A thread is given its number. */
    method Register(tp: Thread)
      requires Valid() && tp.id !in table && !tp.idle && tp.dprio == 0
      modifies this`table
      ensures Valid() && Run() == old(Run()) && Heads() == old(Heads()) && table == old(table)[tp.id := tp]
      ensures Footprint() == old(Footprint()) + {tp}
    {
      hide Lists.Valid, Lists.Run, Lists.Heads;
      ValuesGrow(table, tp.id, tp);
      table := table[tp.id := tp];
      TableGrew(tp);
    }

    /** What a reading of `qp->qhead` finds. */
    method Look(q: Qid) returns (found: Found)
      requires Valid() && q in Heads()
      ensures found == FoundAt(Heads()[q])
    {
      assert ws.QueueOk(q);
      found := match ws.queues[q].root
        case NULL => Nobody
        case SIGNALED => Signal
        case First(_) => Waiters;
    }

    /** `tp = qp->qhead;` */
    method Head(q: Qid, ghost list: seq<Entry<Tid>>) returns (tp: Thread)
      requires Valid() && q in Heads() && Heads()[q] == Threads(list) && list != []
      ensures Known(table, tp) && tp.id == list[0].id
    {
      tp := ws.Head(q, list);
    }

    /** The first thread leaves wait queue `q`, which is signaled when it was the last. */
    method DropFirst(q: Qid, ghost list: seq<Entry<Tid>>)
      requires Valid() && q in Heads() && Heads()[q] == Threads(list) && list != []
      modifies Footprint()
      ensures Valid() && ws.queues == old(ws.queues) && Prios() == old(Prios()) && Run() == old(Run())
      ensures Heads() == old(Heads())[q := AfterFirst(list)]
    {
      Leave(q, list);
      RunStays();
    }

    method PostOnly(q: Qid)
      requires ws.Valid() && Apart() && q in ws.queues
      modifies ws.At(q), ws.home.Keys`ec
      ensures ws.Valid() && ws.home == old(ws.home) && RunUntouched()
      ensures ws.Heads() == old(ws.Heads())[q := Posted(old(ws.Heads()[q]))]
    {
      hide Waits.Valid, Waits.QueueOk, Waits.Heads, Queue.Valid, Queue.View;
      ws.Post(q);
    }

    /** event_notify_irq. */
    method Post(q: Qid)
      requires Valid() && q in Heads()
      modifies Footprint()
      ensures Valid() && ws.queues == old(ws.queues) && Prios() == old(Prios()) && Run() == old(Run())
      ensures Heads() == old(Heads())[q := Posted(old(Heads()[q]))]
    {
      PostOnly(q);
      RunStays();
    }

    method UseOnly(q: Qid, ghost list: seq<Entry<Tid>>)
      requires ws.Valid() && Apart() && q in ws.queues && ws.Heads()[q] == Threads(list) && list != []
      modifies ws.At(q), ws.home.Keys`ec
      ensures ws.Valid() && ws.home == old(ws.home) && RunUntouched()
      ensures ws.Heads() == old(ws.Heads())[q := Threads(Recounted(list, list[0].ec - 1))]
    {
      hide Waits.Valid, Waits.QueueOk, Waits.Heads, Queue.Valid, Queue.View;
      ws.UseEvent(q, list);
    }

    /** One event of the first thread of wait queue `q` is used up. */
    method UseEvent(q: Qid, ghost list: seq<Entry<Tid>>)
      requires Valid() && q in Heads() && Heads()[q] == Threads(list) && list != []
      modifies Footprint()
      ensures Valid() && ws.queues == old(ws.queues) && Prios() == old(Prios()) && Run() == old(Run())
      ensures Heads() == old(Heads())[q := Threads(Recounted(list, list[0].ec - 1))]
    {
      UseOnly(q, list);
      RunStays();
    }

    method SignalOnly(q: Qid) returns (taken: bool)
      requires ws.Valid() && Apart() && q in ws.queues
      modifies ws.At(q)
      ensures ws.Valid() && ws.home == old(ws.home) && RunUntouched()
      ensures taken == old(ws.Heads()[q]).Signaled?
      ensures ws.Heads() == if taken then old(ws.Heads())[q := Threads([])] else old(ws.Heads())
    {
      hide Waits.Valid, Waits.QueueOk, Waits.Heads, Queue.Valid, Queue.View;
      taken := ws.TakeSignal(q);
    }

    /** The check of a wait: takes the signal, if there is one. */
    method TakeSignal(q: Qid) returns (taken: bool)
      requires Valid() && q in Heads()
      modifies Footprint()
      ensures Valid() && ws.queues == old(ws.queues) && Prios() == old(Prios()) && Run() == old(Run()) && taken == old(Heads()[q]).Signaled?
      ensures Heads() == if taken then old(Heads())[q := Threads([])] else old(Heads())
    {
      taken := SignalOnly(q);
      RunStays();
    }

    method OverwriteOnly(q: Qid)
      requires ws.Valid() && Apart() && q in ws.queues
      modifies ws`home, ws.At(q)
      ensures ws.Valid() && ws.home == Elsewhere(old(ws.home), q) && RunUntouched()
      ensures ws.Heads() == old(ws.Heads())[q := Signaled]
    {
      hide Waits.Valid, Waits.QueueOk, Waits.Heads, Queue.Valid, Queue.View;
      ws.Overwrite(q);
    }

    /** The head of wait queue `q` is set to SIGNALED, whoever waits there. */
    method Overwrite(q: Qid)
      requires Valid() && q in Heads()
      modifies Footprint()
      ensures Valid() && ws.queues == old(ws.queues) && Prios() == old(Prios()) && Run() == old(Run())
      ensures Heads() == old(Heads())[q := Signaled]
    {
      OverwriteOnly(q);
      RunStays();
    }

    /** `iterator->ec`. */
    method EventsOf(t: Tid, ghost q: Qid, ghost list: seq<Entry<Tid>>) returns (ec: int)
      requires Valid() && q in Heads() && Heads()[q] == Threads(list) && t in table && Member(list, t)
      ensures ec == EcOf(list, t)
    {
      ghost var w := ws.queues[q];
      ec := table[t].ec;
      assert ws.QueueOk(q) && Has(Heads()[q], t);
      InWaitQueue(q, t);
      assert forall i :: 0 <= i < |w.entries| ==> w.entries[i] == w.EntryOf(w.threads[i]) && w.threads[i] in w.threads;
      EcOfIds(table, w.entries, t, ec);
    }
  }

  /** The counter of a thread is the one of its entry. */
  lemma {:induction false} EcOfIds(all: map<Tid, Thread>, q: seq<Entry<Thread>>, t: Tid, ec: int)
    requires t in all && all[t].id == t && (forall i :: 0 <= i < |q| ==> Known(all, q[i].id))
    requires (forall i :: 0 <= i < |q| && q[i].id == all[t] ==> q[i].ec == ec) && exists i :: 0 <= i < |q| && q[i].id == all[t]
    ensures EcOf(Ids(q), t) == ec
  {
    assert Known(all, q[0].id) && Ids(q)[1..] == Ids(q[1..]);
    if q[0].id != all[t] {
      var i :| 0 <= i < |q| && q[i].id == all[t];
      assert q[1..][i - 1].id == all[t];
      EcOfIds(all, q[1..], t, ec);
    }
  }
}
