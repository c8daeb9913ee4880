/** The wait queues of a CPU: linked lists over distinct threads, one for each queue
    number. */
module WaitQueues {
  import opened QueueIds
  import opened QueueSpec
  import opened ThreadQueue
  import opened Wrappers

  class Waits {
    var queues: map<nat, Queue>
    ghost var home: map<Thread, nat>       // the queue of each waiting thread

    ghost function Heads(): map<nat, Head<nat>>
      reads this`queues, queues.Values
    {
      map q | q in queues :: HeadIds(queues[q].View())
    }

    function At(q: nat): Queue
      requires q in queues
      reads this`queues
    {
      queues[q]
    }

    /** Queue `q` is linked, and its threads are the ones at home there. */
    ghost predicate QueueOk(q: nat)
      requires q in queues
      reads this, queues[q], queues[q].threads
    {
      && queues[q].order == Fifo && queues[q].Valid()
      && (forall t :: t in queues[q].threads ==> t in home && home[t] == q)
      && (forall t :: t in home && home[t] == q ==> t in queues[q].threads)
    }

    /** The queues are different objects, so no two of them share a thread. */
    ghost predicate Valid()
      reads this, queues.Values, home.Keys
    {
      && (forall p, q :: p in queues && q in queues && p != q ==> queues[p] != queues[q])
      && (forall t :: t in home ==> home[t] in queues)
      && (forall q, t :: q in queues && t in queues[q].threads ==> t in home.Keys)
      && (forall q :: q in queues ==> QueueOk(q))
    }

    constructor ()
      ensures Valid() && queues == map[] && home == map[]
    {
      queues, home := map[], map[];
    }

    lemma HeadsAre(m: map<nat, Head<nat>>)
      requires m.Keys == queues.Keys && forall q :: q in queues ==> m[q] == HeadIds(queues[q].View())
      ensures Heads() == m
    {
    }

    /** Queue `p` was not touched, and the same threads are at home there. */
    twostate lemma Same(p: nat)
      requires p in queues && p in old(queues) && queues[p] == old(queues[p]) && old(QueueOk(p))
      requires unchanged(queues[p]) && forall t :: t in queues[p].threads ==> unchanged(t)
      requires forall t :: t in queues[p].threads ==> t in home && home[t] == p
      requires forall t :: t in home && home[t] == p ==> t in old(home) && old(home[t]) == p
      ensures QueueOk(p) && queues[p].View() == old(queues[p].View())
    {
      queues[p].Untouched();
    }

    /** Nothing of the wait queues was touched. */
    twostate lemma Untouched()
      requires old(Valid()) && unchanged(this) && unchanged(queues.Values) && unchanged(home.Keys)
      ensures Valid() && Heads() == old(Heads())
    {
      forall q | q in queues
        ensures QueueOk(q) && queues[q].View() == old(queues[q].View())
      {
        assert old(QueueOk(q));
        queues[q].Untouched();
      }
      HeadsAre(old(Heads()));
    }

    /** The other queues. */
    ghost function RestQueues(q: nat): set<Queue>
      reads this`queues
    {
      set p | p in queues && p != q :: queues[p]
    }

    /** Every queue but `q` is as it was. */
    twostate lemma Others(q: nat, new h: Head<nat>)
      requires old(Valid()) && q in queues && queues == old(queues) && QueueOk(q) && HeadIds(queues[q].View()) == h
      requires Elsewhere(home, q) == old(Elsewhere(home, q))
      requires unchanged(RestQueues(q)) && unchanged(Elsewhere(home, q).Keys)
      ensures Valid() && Heads() == old(Heads())[q := h]
    {
      forall t
        ensures t in Elsewhere(home, q) <==> t in home && home[t] != q
        ensures t in old(Elsewhere(home, q)) <==> t in old(home) && old(home[t]) != q
      {
      }
      forall p | p in queues && p != q
        ensures QueueOk(p) && queues[p].View() == old(queues[p].View())
      {
        assert old(QueueOk(p)) && queues[p] in RestQueues(q);
        assert forall t :: t in old(queues[p].threads) ==> t in Elsewhere(home, q).Keys;
        Same(p);
      }
      HeadsAre(old(Heads())[q := h]);
    }

    /** Linking a thread into queue `q`. */
    method Link(q: nat, tp: Thread)
      requires q in queues && QueueOk(q) && tp !in home && forall p :: p in queues && p != q ==> queues[p] != queues[q]
      modifies this`home, At(q), tp`ec, tp`next, home.Keys`ec, home.Keys`next
      ensures QueueOk(q) && home == old(home)[tp := q] && unchanged(RestQueues(q)) && unchanged(old(Elsewhere(home, q).Keys))
      ensures queues[q].View() == Insert(Fifo, old(queues[q].View()), old(queues[q].EntryOf(tp)))
    {
      assert QueueOk(q);
      queues[q].InsertThread(tp);
      home := home[tp := q];
    }

    /** A thread joins queue `q`. */
    method Enqueue(q: nat, tp: Thread)
      requires Valid() && q in queues && tp !in home
      modifies this`home, At(q), tp`ec, tp`next, home.Keys`ec, home.Keys`next
      ensures Valid() && home == old(home)[tp := q]
      ensures Heads() == old(Heads())[q := Insert(Fifo, old(Heads()[q]), Entry(tp.id, 0, 0))]
    {
      ghost var h := HeadIds(queues[q].View());
      assert QueueOk(q);
      IdsInsert(Fifo, queues[q].View(), queues[q].EntryOf(tp));
      ElsewhereAdds(home, tp, q);
      Link(q, tp);
      Others(q, Insert(Fifo, h, Entry(tp.id, 0, 0)));
    }

    /** Queues that are left as they were stay so when another is put beside them. */
    twostate lemma RestSame(q: nat)
      requires old(Valid()) && home == old(home) && q !in old(queues) && q in queues && queues == old(queues)[q := queues[q]]
      requires (forall p :: p in old(queues) ==> unchanged(old(queues[p]))) && unchanged(home.Keys)
      ensures forall p :: p in queues && p != q ==> QueueOk(p) && queues[p].View() == old(queues[p].View())
    {
      forall p | p in queues && p != q
        ensures QueueOk(p) && queues[p].View() == old(queues[p].View())
      {
        assert old(QueueOk(p));
        Same(p);
      }
    }

    twostate lemma Beside(q: nat)
      requires old(Valid()) && home == old(home) && q !in old(queues) && q in queues && queues == old(queues)[q := queues[q]]
      requires (forall p :: p in old(queues) ==> unchanged(old(queues[p])) && queues[p] != queues[q]) && unchanged(home.Keys)
      requires queues[q].Valid() && queues[q].order == Fifo && queues[q].threads == [] && queues[q].View() == Signaled
      ensures Valid() && Heads() == old(Heads())[q := Signaled]
    {
      RestSame(q);
      HeadsAre(old(Heads())[q := Signaled]);
    }

    /** thread_queue_init for a new queue. */
    method Open(q: nat)
      requires Valid() && q !in queues
      modifies this`queues
      ensures Valid() && Heads() == old(Heads())[q := Signaled]
      ensures q in queues && queues == old(queues)[q := queues[q]] && fresh(queues[q])
    {
      var w := new Queue(Fifo);
      queues := queues[q := w];
      Beside(q);
    }

    /** A queue whose threads stay at home there is relinked or recounted. */
    method Post(q: nat)
      requires Valid() && q in queues
      modifies At(q), home.Keys`ec
      ensures Valid() && Heads() == old(Heads())[q := Posted(old(Heads()[q]))]
    {
      assert QueueOk(q);
      IdsPosted(queues[q].View());
      queues[q].Post();
      Others(q, Posted(old(Heads()[q])));
    }

    lemma FirstCount(q: nat, list: seq<Entry<nat>>)
      requires Valid() && q in queues && Heads()[q] == Threads(list) && list != []
      ensures QueueOk(q) && queues[q].threads != [] && queues[q].entries != [] && list == Ids(queues[q].entries)
      ensures list[0].ec == queues[q].entries[0].ec
    {
      assert QueueOk(q);
    }

    /** One event of the first thread of queue `q` is used up. */
    method UseEvent(q: nat, ghost list: seq<Entry<nat>>)
      requires Valid() && q in queues && Heads()[q] == Threads(list) && list != []
      modifies At(q), home.Keys`ec
      ensures Valid() && Heads() == old(Heads())[q := Threads(Recounted(list, list[0].ec - 1))]
    {
      hide Recounted;
      FirstCount(q, list);
      IdsRecounted(queues[q].entries, queues[q].entries[0].ec - 1);
      queues[q].UseEvent();
      Others(q, Threads(Recounted(list, list[0].ec - 1)));
    }

    /** True when the signal of queue `q` was there to take. */
    method TakeSignal(q: nat) returns (taken: bool)
      requires Valid() && q in queues
      modifies At(q)
      ensures Valid() && taken == old(Heads()[q]).Signaled?
      ensures Heads() == if taken then old(Heads())[q := Threads([])] else old(Heads())
    {
      assert QueueOk(q);
      taken := queues[q].TakeSignal();
      Others(q, HeadIds(queues[q].View()));
    }

    method Unlink(q: nat) returns (tp: Thread)
      requires q in queues && QueueOk(q) && queues[q].threads != []
      requires forall p :: p in queues && p != q ==> queues[p] != queues[q]
      modifies this`home, At(q), home.Keys`ec, home.Keys`next
      ensures QueueOk(q) && unchanged(RestQueues(q)) && unchanged(old(Elsewhere(home, q).Keys))
      ensures old(queues[q].entries) != [] && queues[q].View() == AfterFirst(old(queues[q].entries))
      ensures tp == old(queues[q].threads[0]) && tp == old(queues[q].entries[0].id) && tp.ec == 0
      ensures tp in old(home) && old(home[tp]) == q && home == old(home) - {tp}
    {
      assert QueueOk(q);
      assert queues[q].entries[0] == queues[q].EntryOf(queues[q].threads[0]);
      tp := queues[q].TakeFirst();
      home := home - {tp};
    }

    /** `tp = qp->qhead;` */
    method Head(q: nat, ghost list: seq<Entry<nat>>) returns (tp: Thread)
      requires Valid() && q in queues && Heads()[q] == Threads(list) && list != []
      ensures tp in home && home[tp] == q && tp.id == list[0].id
    {
      assert QueueOk(q);
      tp := queues[q].root.t;
      assert queues[q].entries[0] == queues[q].EntryOf(tp);
    }

    /** The first thread leaves queue `q`. */
    method DropFirst(q: nat, ghost list: seq<Entry<nat>>)
      requires Valid() && q in queues && Heads()[q] == Threads(list) && list != []
      modifies this`home, At(q), home.Keys`ec, home.Keys`next
      ensures Valid() && Heads() == old(Heads())[q := AfterFirst(list)]
      ensures forall t :: t in home ==> t in old(home)
    {
      assert QueueOk(q);
      IdsFirst(queues[q].entries);
      var tp := Unlink(q);
      ElsewhereDrops(old(home), tp, q);
      Others(q, AfterFirst(list));
    }

    method Forget(q: nat)
      requires Valid() && q in queues
      modifies this`home, At(q)
      ensures QueueOk(q) && unchanged(RestQueues(q)) && queues[q].View() == Signaled && home == Elsewhere(old(home), q)
    {
      assert QueueOk(q);
      queues[q].Overwrite();
      home := Elsewhere(home, q);
    }

    /** The head of queue `q` is overwritten with SIGNALED. */
    method Overwrite(q: nat)
      requires Valid() && q in queues
      modifies this`home, At(q)
      ensures Valid() && Heads() == old(Heads())[q := Signaled] && home == Elsewhere(old(home), q)
    {
      Forget(q);
      ElsewhereAgain(old(home), q);
      Others(q, Signaled);
    }

    /** A number is in queue `q` exactly when its thread is at home there. */
    lemma AtHome(all: map<nat, Thread>, q: nat, n: nat)
      requires Valid() && q in queues && (forall t :: t in home ==> Known(all, t)) && (forall i :: i in all ==> all[i].id == i)
      ensures Has(Heads()[q], n) <==> n in all && all[n] in home && home[all[n]] == q
    {
      var w := queues[q];
      assert QueueOk(q);
      assert forall i :: 0 <= i < |w.entries| ==> w.entries[i] == w.EntryOf(w.threads[i]) && w.threads[i] in w.threads;
      if n in all {
        IdsMember(all, w.entries, n);
      } else {
        IdsUnknown(all, w.entries, n);
      }
    }
  }

  function Elsewhere(home: map<Thread, nat>, q: nat): map<Thread, nat>
  {
    map t | t in home && home[t] != q :: home[t]
  }

  lemma ElsewhereAdds(home: map<Thread, nat>, t: Thread, q: nat)
    requires t !in home
    ensures Elsewhere(home[t := q], q) == Elsewhere(home, q)
  {
  }

  lemma ElsewhereDrops(home: map<Thread, nat>, t: Thread, q: nat)
    requires t in home && home[t] == q
    ensures Elsewhere(home - {t}, q) == Elsewhere(home, q)
  {
  }

  lemma ElsewhereAgain(home: map<Thread, nat>, q: nat)
    ensures Elsewhere(Elsewhere(home, q), q) == Elsewhere(home, q)
  {
  }
}
