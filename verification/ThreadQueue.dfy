/** The linked thread queues of fifo.c, rr-shared.c, rr.c and edf.c: one `next` link
    in each thread, walked and relinked in place. */
module ThreadQueue {
  import opened QueueSpec
  import opened Sequences
  import opened Wrappers

  class Thread {
    const id: nat
    const idle: bool
    var base: nat          // static priority
    var dprio: int
    var deadline: int
    var ec: int
    var next: Thread?

    constructor (id: nat, prio: nat, idle: bool)
      ensures this.id == id && base == prio && this.idle == idle && dprio == 0 && ec == 0 && next == null
    {
      this.id, this.idle, base := id, idle, prio;
      dprio, deadline, ec, next := 0, 0, 0, null;
    }

    /** prio(): the static priority less the dynamic one, not below 0. */
    function Prio(): int
      reads this`base, this`dprio
    {
      if dprio <= base then base - dprio else 0
    }
  }

  /** What a queue head points at. */
  datatype Root = NULL | SIGNALED | First(t: Thread)

  function Key(o: Order, t: Thread): int
    reads t`base, t`dprio, t`deadline
  {
    match o
    case Rr => t.Prio()
    case Edf => t.deadline
    case Fifo => 0
  }

  // ----- sequences: inserting and removing at a known place

  function InsertAt<T>(s: seq<T>, i: nat, x: T): seq<T>
    requires i <= |s|
    decreases i
  {
    if i == 0 then [x] + s else [s[0]] + InsertAt(s[1..], i - 1, x)
  }

  function DropAt<T>(s: seq<T>, i: nat): seq<T>
    requires i < |s|
    decreases i
  {
    if i == 0 then s[1..] else [s[0]] + DropAt(s[1..], i - 1)
  }

  function WithAt<T>(s: seq<T>, i: nat, x: T, j: nat): T
    requires i <= |s| && j <= |s|
  {
    if j < i then s[j] else if j == i then x else s[j - 1]
  }

  function WithoutAt<T>(s: seq<T>, i: nat, j: nat): T
    requires i < |s| && j < |s| - 1
  {
    if j < i then s[j] else s[j + 1]
  }

  ghost predicate Inserted<T>(s: seq<T>, i: nat, x: T, r: seq<T>)
    requires i <= |s|
  {
    |r| == |s| + 1 && forall j :: 0 <= j <= |s| ==> r[j] == WithAt(s, i, x, j)
  }

  ghost predicate Dropped<T>(s: seq<T>, i: nat, r: seq<T>)
    requires i < |s|
  {
    |r| == |s| - 1 && forall j :: 0 <= j < |s| - 1 ==> r[j] == WithoutAt(s, i, j)
  }

  lemma {:induction false} InsertAtOne<T>(s: seq<T>, i: nat, x: T, j: nat)
    requires i <= |s| && j <= |s|
    ensures var r := InsertAt(s, i, x); |r| == |s| + 1 && r[j] == WithAt(s, i, x, j)
    decreases i
  {
    if i > 0 {
      InsertAtOne(s[1..], i - 1, x, if j == 0 then 0 else j - 1);
    }
  }

  lemma InsertAtIndex<T>(s: seq<T>, i: nat, x: T, r: seq<T>)
    requires i <= |s| && r == InsertAt(s, i, x)
    ensures Inserted(s, i, x, r)
  {
    InsertAtOne(s, i, x, 0);
    forall j | 0 <= j <= |s|
      ensures r[j] == WithAt(s, i, x, j)
    {
      InsertAtOne(s, i, x, j);
    }
  }

  lemma {:induction false} DropAtLength<T>(s: seq<T>, i: nat)
    requires i < |s|
    ensures |DropAt(s, i)| == |s| - 1
    decreases i
  {
    if i > 0 {
      DropAtLength(s[1..], i - 1);
    }
  }

  lemma {:induction false} DropAtOne<T>(s: seq<T>, i: nat, j: nat)
    requires i < |s| && j < |s| - 1
    ensures var r := DropAt(s, i); |r| == |s| - 1 && r[j] == WithoutAt(s, i, j)
    decreases i
  {
    DropAtLength(s, i);
    if i > 0 && j > 0 {
      DropAtOne(s[1..], i - 1, j - 1);
    }
  }

  lemma DropAtIndex<T>(s: seq<T>, i: nat, r: seq<T>)
    requires i < |s| && r == DropAt(s, i)
    ensures Dropped(s, i, r)
  {
    DropAtLength(s, i);
    forall j | 0 <= j < |s| - 1
      ensures r[j] == WithoutAt(s, i, j)
    {
      DropAtOne(s, i, j);
    }
  }

  lemma {:induction false} InsertAtMembers<T>(s: seq<T>, i: nat, x: T, r: seq<T>)
    requires i <= |s| && r == InsertAt(s, i, x)
    ensures forall y :: y in r <==> y in s || y == x
    ensures NoDups(s) && x !in s ==> NoDups(r)
    decreases i
  {
    if i == 0 {
      assert r[1..] == s;
    } else {
      InsertAtMembers(s[1..], i - 1, x, r[1..]);
      assert s == [s[0]] + s[1..];
    }
  }

  lemma {:induction false} DropAtMembers<T>(s: seq<T>, i: nat, r: seq<T>)
    requires i < |s| && NoDups(s) && r == DropAt(s, i)
    ensures forall y :: y in r <==> y in s && y != s[i]
    ensures NoDups(r)
    decreases i
  {
    assert s == [s[0]] + s[1..];
    if i > 0 {
      DropAtMembers(s[1..], i - 1, r[1..]);
      assert s[i] in s[1..];
    }
  }

  // ----- the same for entries

  /** Position `i` takes over the events of its successor. */
  function Taken<T>(q: seq<Entry<T>>, i: nat): seq<Entry<T>>
    requires i < |q|
  {
    if i + 1 < |q| then q[i := q[i].(ec := q[i].ec + q[i + 1].ec)][i + 1 := q[i + 1].(ec := 0)] else q
  }

  /** Position `i` is left the events of `e`, which stood before it. */
  function HandedOn<T>(q: seq<Entry<T>>, i: nat, e: Entry<T>): seq<Entry<T>>
    requires i <= |q|
  {
    if e.ec != 0 && i < |q| then q[i := q[i].(ec := e.ec)] else q
  }

  /** Linking in where the walk stops, then taking events over, is Place. */
  lemma {:induction false} PlaceAt<T>(o: Order, q: seq<Entry<T>>, e: Entry<T>, i: nat)
    requires i <= |q| && (forall j :: 0 <= j < i ==> !Before(o, q[j], e))
    requires i < |q| ==> Before(o, q[i], e)
    ensures |InsertAt(q, i, e)| == |q| + 1 && Taken(InsertAt(q, i, e), i) == Place(o, q, e)
    decreases i
  {
    InsertAtOne(q, i, e, i);
    if i > 0 {
      var rest := q[1..];
      PlaceAt(o, rest, e, i - 1);
      assert Taken([q[0]] + InsertAt(rest, i - 1, e), i) == [q[0]] + Taken(InsertAt(rest, i - 1, e), i - 1);
    } else if q != [] {
      assert q == [q[0]] + q[1..];
    }
  }

  /** Unlinking position `i`, then leaving its events behind, is Remove. */
  lemma {:induction false} RemoveAt<T>(q: seq<Entry<T>>, i: nat)
    requires i < |q| && (forall j :: 0 <= j < i ==> q[j].id != q[i].id)
    ensures |DropAt(q, i)| == |q| - 1 && Remove(q, q[i].id) == Some(HandedOn(DropAt(q, i), i, q[i]))
    decreases i
  {
    DropAtLength(q, i);
    if i > 0 {
      var rest := q[1..];
      assert rest[i - 1] == q[i] && q[0].id != q[i].id;
      RemoveAt(rest, i - 1);
      assert HandedOn([q[0]] + DropAt(rest, i - 1), i, q[i]) == [q[0]] + HandedOn(DropAt(rest, i - 1), i - 1, q[i]);
    } else {
      assert q[1..] != [] ==> q[1..][0 := q[1].(ec := q[0].ec)] == [q[1].(ec := q[0].ec)] + q[1..][1..];
    }
  }

  // ----- the queue

  class Queue {
    const order: Order
    var root: Root
    ghost var threads: seq<Thread>
    ghost var entries: seq<Entry<Thread>>

    /** The successor of position `i` in the list. */
    ghost function After(i: int): Thread?
      requires -1 <= i < |threads|
      reads this
    {
      if i + 1 < |threads| then threads[i + 1] else null
    }

    ghost predicate Linked()
      reads this, threads`next
    {
      && NoDups(threads)
      && (threads == [] ==> root != SIGNALED ==> root == NULL)
      && (threads != [] ==> root == First(threads[0]))
      && (forall i {:trigger threads[i].next} :: 0 <= i < |threads| ==> threads[i].next == After(i))
    }

    ghost predicate Valid()
      reads this, threads
    {
      Linked() && Matches(threads, entries)
    }

    /** The entries `q` record the threads `all`. */
    ghost predicate Matches(all: seq<Thread>, q: seq<Entry<Thread>>)
      reads all`base, all`dprio, all`deadline, all`ec
    {
      |q| == |all| && forall i {:trigger q[i]} :: 0 <= i < |all| ==> q[i] == EntryOf(all[i])
    }

    lemma MatchesInserted(all: seq<Thread>, q: seq<Entry<Thread>>, i: nat, tp: Thread)
      requires Matches(all, q) && i <= |all|
      ensures Matches(InsertAt(all, i, tp), InsertAt(q, i, EntryOf(tp)))
    {
      var newAll, newQ := InsertAt(all, i, tp), InsertAt(q, i, EntryOf(tp));
      InsertAtIndex(all, i, tp, newAll);
      InsertAtIndex(q, i, EntryOf(tp), newQ);
      assert forall j :: 0 <= j < |newAll| ==> newQ[j] == EntryOf(newAll[j]);
    }

    lemma MatchesDropped(all: seq<Thread>, q: seq<Entry<Thread>>, i: nat)
      requires Matches(all, q) && i < |all|
      ensures Matches(DropAt(all, i), DropAt(q, i))
    {
      var newAll, newQ := DropAt(all, i), DropAt(q, i);
      DropAtIndex(all, i, newAll);
      DropAtIndex(q, i, newQ);
      assert forall j :: 0 <= j < |newAll| ==> newQ[j] == EntryOf(newAll[j]);
    }

    ghost function EntryOf(t: Thread): Entry<Thread>
      reads t`base, t`dprio, t`deadline, t`ec
    {
      Entry(t, Key(order, t), t.ec)
    }

    ghost function View(): Head<Thread>
      reads this
    {
      if root == SIGNALED then Signaled else Threads(entries)
    }

    /** A queue none of whose threads was touched is as it was. */
    twostate lemma Untouched()
      requires old(Valid()) && unchanged(this) && forall t :: t in threads ==> unchanged(t)
      ensures Valid() && View() == old(View())
    {
      assert forall j :: 0 <= j < |threads| ==> threads[j] in threads;
      assert forall j :: 0 <= j < |threads| ==> threads[j].next == After(j);
      assert forall j :: 0 <= j < |threads| ==> EntryOf(threads[j]) == old(EntryOf(threads[j]));
    }

    /** thread_queue_init. */
    constructor (o: Order)
      ensures Valid() && order == o && threads == [] && View() == Signaled
    {
      order, root, threads, entries := o, SIGNALED, [], [];
    }

    /** The list of a run queue, which starts as NULL. */
    constructor Runnable(o: Order)
      ensures Valid() && order == o && threads == [] && View() == Threads([])
    {
      order, root, threads, entries := o, NULL, [], [];
    }

    /** The position where `tp` is to be linked in: the link before it and the thread
        after it. The FIFO walk never stops early; the others stop at Before. */
    method Walk(tp: Thread) returns (prev: Thread?, thread: Thread?, ghost i: nat)
      requires Valid() && root != SIGNALED
      ensures i <= |threads| && thread == After(i - 1) && prev == if i == 0 then null else threads[i - 1]
      ensures forall j :: 0 <= j < i ==> !Before(order, entries[j], EntryOf(tp))
      ensures i < |threads| ==> Before(order, entries[i], EntryOf(tp))
    {
      prev, thread, i := null, if root == NULL then null else root.t, 0;
      while thread != null && !Before(order, Entry(thread, Key(order, thread), thread.ec), Entry(tp, Key(order, tp), tp.ec))
        invariant i <= |threads| && thread == After(i - 1) && prev == if i == 0 then null else threads[i - 1]
        invariant forall j :: 0 <= j < i ==> !Before(order, entries[j], EntryOf(tp))
        decreases |threads| - i
      {
        assert entries[i] == EntryOf(thread);
        prev, thread, i := thread, thread.next, i + 1;
      }
      if i < |threads| {
        assert entries[i] == EntryOf(thread);
      }
    }

    /** `tp->se.next = thread; *tpp = tp;` where `prev` holds the link *tpp, or the root does. */
    method SetLinks(tp: Thread, prev: Thread?, thread: Thread?, ghost i: nat)
      requires Linked() && root != SIGNALED && tp !in threads
      requires i <= |threads| && thread == After(i - 1) && prev == if i == 0 then null else threads[i - 1]
      modifies this`root, this`threads, tp`next, threads`next
      ensures Linked() && root != SIGNALED && threads == InsertAt(old(threads), i, tp)
      ensures forall t :: t in threads <==> t in old(threads) || t == tp
    {
      hide InsertAt, NoDups;
      ghost var all, newAll := threads, InsertAt(threads, i, tp);
      InsertAtMembers(all, i, tp, newAll);
      InsertAtIndex(all, i, tp, newAll);
      if i > 0 {
        NoDupsAt(all, i - 1);
      }
      tp.next := thread;
      if prev == null {
        root := First(tp);
      } else {
        prev.next := tp;
      }
      threads := newAll;
      forall j | 0 <= j < |threads|
        ensures threads[j].next == After(j)
      {
        if j < i {
          assert threads[j] == all[j] && old(all[j].next) == if j + 1 < |all| then all[j + 1] else null;
        } else if j > i {
          assert threads[j] == all[j - 1] && old(all[j - 1].next) == if j < |all| then all[j] else null;
        }
      }
    }

    method LinkIn(tp: Thread, prev: Thread?, thread: Thread?, ghost i: nat)
      requires Valid() && root != SIGNALED && tp !in threads
      requires i <= |threads| && thread == After(i - 1) && prev == if i == 0 then null else threads[i - 1]
      modifies this`root, this`threads, this`entries, tp`next, threads`next
      ensures Valid() && root != SIGNALED && threads == InsertAt(old(threads), i, tp)
      ensures i <= |old(entries)| && entries == InsertAt(old(entries), i, old(EntryOf(tp)))
      ensures forall t :: t in threads <==> t in old(threads) || t == tp
    {
      MatchesInserted(threads, entries, i, tp);
      entries := InsertAt(entries, i, EntryOf(tp));
      SetLinks(tp, prev, thread, i);
    }

    /** The inserted thread takes over the events of its successor. */
    method TakeEvents(tp: Thread, ghost i: nat)
      requires Valid() && root != SIGNALED && i < |threads| && threads[i] == tp
      modifies this`entries, tp`ec, threads`ec
      ensures Valid() && entries == Taken(old(entries), i)
    {
      ghost var q := entries;
      NoDupsAt(threads, i);
      assert q[i] == EntryOf(tp);
      if i + 1 < |threads| {
        NoDupsAt(threads, i + 1);
        assert q[i + 1] == EntryOf(threads[i + 1]);
      }
      if tp.next != null && tp.next.ec != 0 {
        tp.ec := tp.ec + tp.next.ec;
        tp.next.ec := 0;
      }
      entries := Taken(q, i);
      forall j | 0 <= j < |threads|
        ensures entries[j] == EntryOf(threads[j])
      {
        assert q[j] == old(EntryOf(threads[j]));
      }
    }

    /** fifo_queue_insert, rr_shared_queue_insert and the linking of raw_edf_insert. */
    method InsertThread(tp: Thread)
      requires Valid() && tp !in threads
      modifies this`root, this`threads, this`entries, tp`ec, tp`next, threads`ec, threads`next
      ensures Valid() && View() == Insert(order, old(View()), old(EntryOf(tp)))
      ensures forall t :: t in threads <==> t in old(threads) || t == tp
    {
      ghost var e := EntryOf(tp);
      tp.ec := 0;
      if root == SIGNALED {
        tp.ec := tp.ec + 1;
        tp.next := null;
        root, threads, entries := First(tp), [tp], [e.(ec := 1)];
      } else {
        forall j | 0 <= j < |threads|
          ensures entries[j] == EntryOf(threads[j])
        {
          assert entries[j] == old(EntryOf(threads[j]));
        }
        InsertInList(tp);
        assert old(EntryOf(tp)).(ec := 0) == e.(ec := 0);
      }
    }

    /** raw_edf_insert: the deadline is set from the clock before the walk. */
    method InsertByDeadline(tp: Thread, tick: int)
      requires Valid() && order == Edf && tp !in threads
      modifies this`root, this`threads, this`entries, tp`ec, tp`next, tp`deadline, threads`ec, threads`next
      ensures Valid() && View() == Insert(Edf, old(View()), Entry(tp, Deadline(tick, tp.Prio(), tp.idle), 0))
      ensures forall t :: t in threads <==> t in old(threads) || t == tp
    {
      tp.deadline := tick + Ratio(tp.Prio());
      if tp.idle {
        tp.deadline := tp.deadline + IDLE_DEADLINE;
      }
      assert entries == old(entries) && forall j :: 0 <= j < |threads| ==> EntryOf(threads[j]) == old(EntryOf(threads[j]));
      InsertThread(tp);
    }

    /** The part of the insert that walks a list. */
    method InsertInList(tp: Thread)
      requires Valid() && tp !in threads && root != SIGNALED && tp.ec == 0
      modifies this`root, this`threads, this`entries, tp`ec, tp`next, threads`ec, threads`next
      ensures Valid() && root != SIGNALED && entries == Place(order, old(entries), old(EntryOf(tp)))
      ensures forall t :: t in threads <==> t in old(threads) || t == tp
    {
      var prev, thread, i := Walk(tp);
      PlaceAt(order, entries, EntryOf(tp), i);
      InsertAtOne(threads, i, tp, i);
      LinkIn(tp, prev, thread, i);
      assert forall j :: 0 <= j < |threads| ==> threads[j] == tp || threads[j] in old(threads);
      TakeEvents(tp, i);
    }

    /** rr_shared_queue_remove: false where the code returns -EINVAL. */
    method RemoveThread(tp: Thread) returns (ok: bool)
      requires Valid()
      modifies this`root, this`threads, this`entries, threads`ec, threads`next
      ensures Valid() && (ok <==> tp in old(threads))
      ensures if ok then root != SIGNALED && Remove(old(entries), tp) == Some(entries)
              else View() == old(View()) && threads == old(threads)
      ensures ok ==> tp.next == null && tp.ec == 0
      ensures forall t :: t in threads <==> t in old(threads) && (ok ==> t != tp)
    {
      if root == SIGNALED {
        return false;
      }
      var prev: Thread?, thread := null, if root == NULL then null else root.t;
      ghost var i := 0;
      while thread != null && thread != tp
        invariant i <= |threads| && thread == After(i - 1) && prev == if i == 0 then null else threads[i - 1]
        invariant forall j :: 0 <= j < i ==> threads[j] != tp
        decreases |threads| - i
      {
        prev, thread, i := thread, thread.next, i + 1;
      }
      if thread == null {
        return false;
      }
      RemoveFound(tp, prev, i);
      ok := true;
    }

    method RemoveFound(tp: Thread, prev: Thread?, ghost i: nat)
      requires Valid() && root != SIGNALED && i < |threads| && threads[i] == tp
      requires prev == if i == 0 then null else threads[i - 1]
      modifies this`root, this`threads, this`entries, threads`ec, threads`next
      ensures Valid() && root != SIGNALED && Remove(old(entries), tp) == Some(entries)
      ensures tp.next == null && tp.ec == 0
      ensures forall t :: t in threads <==> t in old(threads) && t != tp
    {
      NoDupsAt(threads, i);
      assert forall j :: 0 <= j < |entries| ==> entries[j].id == threads[j];
      RemoveAt(entries, i);
      LinkOut(tp, prev, i);
      assert forall j :: 0 <= j < |threads| ==> threads[j] in old(threads);
      HandOn(tp, i);
    }

    /** `*tpp = tp->se.next;` */
    method ClearLink(tp: Thread, prev: Thread?, ghost i: nat)
      requires Linked() && root != SIGNALED && i < |threads| && threads[i] == tp
      requires prev == if i == 0 then null else threads[i - 1]
      modifies this`root, this`threads, threads`next
      ensures Linked() && root != SIGNALED && threads == DropAt(old(threads), i)
      ensures i <= |threads| && tp.next == After(i - 1)
      ensures forall t :: t in threads <==> t in old(threads) && t != tp
    {
      ghost var all, newAll := threads, DropAt(threads, i);
      DropAtMembers(all, i, newAll);
      DropAtIndex(all, i, newAll);
      NoDupsAt(all, i);
      if i > 0 {
        NoDupsAt(all, i - 1);
      }
      if prev == null {
        root := if tp.next == null then NULL else First(tp.next);
      } else {
        prev.next := tp.next;
      }
      threads := newAll;
      assert all[i].next == if i + 1 < |all| then all[i + 1] else null;
      forall j | 0 <= j < |threads|
        ensures threads[j].next == After(j)
      {
        var k := if j < i then j else j + 1;
        assert old(all[k].next) == if k + 1 < |all| then all[k + 1] else null;
      }
    }

    method LinkOut(tp: Thread, prev: Thread?, ghost i: nat)
      requires Valid() && root != SIGNALED && i < |threads| && threads[i] == tp
      requires prev == if i == 0 then null else threads[i - 1]
      modifies this`root, this`threads, this`entries, threads`next
      ensures Valid() && root != SIGNALED && threads == DropAt(old(threads), i)
      ensures i < |old(entries)| && entries == DropAt(old(entries), i)
      ensures i <= |threads| && tp.next == After(i - 1)
      ensures forall t :: t in threads <==> t in old(threads) && t != tp
    {
      MatchesDropped(threads, entries, i);
      entries := DropAt(entries, i);
      ClearLink(tp, prev, i);
    }

    /** The removed thread hands its events to its successor. */
    method HandOn(tp: Thread, ghost i: nat)
      requires Valid() && root != SIGNALED && i <= |threads| && tp !in threads && tp.next == After(i - 1)
      modifies this`entries, tp`ec, tp`next, threads`ec
      ensures Valid() && tp.next == null && tp.ec == 0
      ensures i <= |old(entries)| && entries == HandedOn(old(entries), i, old(EntryOf(tp)))
    {
      ghost var q, e := entries, EntryOf(tp);
      if i < |threads| {
        NoDupsAt(threads, i);
        assert q[i] == EntryOf(threads[i]);
      }
      if tp.ec != 0 {
        if tp.next != null {
          tp.next.ec := tp.ec;
        }
        tp.ec := 0;
      }
      tp.next := null;
      entries := HandedOn(q, i, e);
      forall j | 0 <= j < |threads|
        ensures threads[j].next == After(j) && entries[j] == EntryOf(threads[j])
      {
        assert q[j] == old(EntryOf(threads[j])) && old(threads[j].next) == After(j);
      }
    }

    /** event_notify_irq. */
    method Post()
      requires Valid()
      modifies this`root, this`entries, threads`ec
      ensures Valid() && threads == old(threads) && View() == Posted(old(View()))
    {
      if root == NULL {
        root := SIGNALED;
      } else if root != SIGNALED {
        assert entries[0] == EntryOf(root.t);
        Recount((root.t.ec + 1) % 256);
      }
    }

    /** The check of event_wait and raw_event_wait: takes a signal, if there is one. */
    method TakeSignal() returns (taken: bool)
      requires Valid()
      modifies this`root
      ensures Valid() && taken == old(View()).Signaled?
      ensures View() == if taken then Threads([]) else old(View())
    {
      taken := root == SIGNALED;
      if taken {
        root := NULL;
        assert entries == [];
      }
    }

    /** The first thread leaves a wait queue, as __raw_event_notify and
        rq_signal_event_queue take it off. */
    method TakeFirst() returns (tp: Thread)
      requires Valid() && threads != []
      modifies this`root, this`threads, this`entries, threads`ec, threads`next
      ensures Valid() && old(entries) != [] && tp == old(threads[0]) && tp.ec == 0
      ensures View() == AfterFirst(old(entries))
      ensures forall t :: t in threads <==> t in old(threads) && t != tp
    {
      tp := root.t;
      assert entries[0] == EntryOf(tp);
      var ok := RemoveThread(tp);
      if root == NULL {
        root := SIGNALED;
      }
    }

    /** `qp->qhead = SIGNALED;` whatever was there: queued threads are forgotten. */
    method Overwrite()
      requires Valid()
      modifies this`root, this`threads, this`entries
      ensures Valid() && View() == Signaled && threads == []
    {
      root, threads, entries := SIGNALED, [], [];
    }

    /** `iterator->ec--;` for the first thread of the queue. */
    method UseEvent()
      requires Valid() && threads != []
      modifies this`entries, threads`ec
      ensures Valid() && root == old(root) && old(entries) != []
      ensures View() == Threads(Recounted(old(entries), old(entries[0].ec) - 1))
    {
      assert entries[0] == EntryOf(root.t);
      Recount(root.t.ec - 1);
    }

    method Recount(ec: int)
      requires Valid() && threads != []
      modifies this`entries, threads`ec
      ensures Valid() && root == old(root) && old(entries) != [] && View() == Threads(Recounted(old(entries), ec))
    {
      ghost var q := entries;
      var tp := root.t;
      assert q[0] == EntryOf(tp);
      tp.ec := ec;
      NoDupsAt(threads, 0);
      entries := Recounted(q, ec);
      forall j | 0 <= j < |threads|
        ensures entries[j] == EntryOf(threads[j])
      {
        assert q[j] == old(EntryOf(threads[j]));
      }
    }

    /** rr_update_dyn_prio on a priority queue: every ordinary thread gains `num` steps of
        priority, up to 0. */
    method UpdateDynPrio(num: int)
      requires Valid() && order == Rr && root != SIGNALED && 0 <= num
      modifies this`entries, threads`dprio
      ensures Valid() && entries == Raised(old(entries), IsIdle, num)
      ensures forall t: Thread {:trigger t.Prio()} :: t in threads ==>
        t.Prio() == if t.idle then old(t.Prio()) else if old(t.Prio()) < num then 0 else old(t.Prio()) - num
    {
      ghost var q := entries;
      var walker := if root == NULL then null else root.t;
      ghost var i := 0;
      while walker != null
        invariant i <= |threads| && walker == After(i - 1)
        invariant forall j {:trigger threads[j].next} :: 0 <= j < |threads| ==> threads[j].next == After(j)
        invariant forall j :: 0 <= j < |threads| ==>
          threads[j].dprio == if j < i then RaisedBy(threads[j], old(threads[j].dprio), num) else old(threads[j].dprio)
        decreases |threads| - i
      {
        NoDupsAt(threads, i);
        if !walker.idle {
          if walker.dprio + num > walker.base {
            walker.dprio := walker.base;
          } else {
            walker.dprio := walker.dprio + num;
          }
        }
        walker, i := walker.next, i + 1;
      }
      entries := Raised(q, IsIdle, num);
      if threads == [] {
        assert entries == [];
      }
      forall j | 0 <= j < |threads|
        ensures |entries| == |threads| && entries[j] == EntryOf(threads[j])
      {
        RaisedAt(q, IsIdle, num, j);
        assert q[j] == old(EntryOf(threads[j]));
      }
    }
  }

  predicate IsIdle(t: Thread)
  {
    t.idle
  }

  /** The dynamic priority after an update. */
  function RaisedBy(t: Thread, dprio: int, num: int): int
    reads t`base
  {
    if t.idle then dprio else if dprio + num > t.base then t.base else dprio + num
  }
}
