/** Thread queues as values: the ordered inserts of the scheduling classes, the
    shared remove, and the event counter that travels with the head. */
module QueueSpec {
  import opened Wrappers

  /** Round robin orders by priority, EDF by deadline, FIFO by arrival. */
  datatype Order = Rr | Edf | Fifo

  /** Deadline distance of the idle thread. */
  const IDLE_DEADLINE := 15778463000000

  /** edf_calc_ratio. */
  function Ratio(prio: int): int
    requires 0 <= prio
  {
    13 * prio / 24 + 10
  }

  /** The deadline raw_edf_insert gives a thread that it queues at `tick`. */
  function Deadline(tick: int, prio: int, idle: bool): int
    requires 0 <= prio
  {
    tick + Ratio(prio) + if idle then IDLE_DEADLINE else 0
  }

  /** 13/24 of the priority, rounded down, and 10: between 10 and 148 ticks for an unsigned
      char, and never less for a larger priority value or a later tick. */
  lemma DeadlineTicks(tick: int, prio: int, idle: bool, tick': int, prio': int)
    requires 0 <= prio <= prio' <= 255 && tick <= tick'
    ensures var d := Deadline(tick, prio, false) - tick;
            10 <= d <= 148 && 24 * (d - 10) <= 13 * prio < 24 * (d - 9)
    ensures Deadline(tick, 0, false) == tick + 10 && Deadline(tick, 255, false) == tick + 148
    ensures Deadline(tick, prio, idle) <= Deadline(tick', prio', idle)
  {
  }

  /** So who comes more than 138 ticks earlier is due first, whatever the priorities are; at
      138 the deadlines may be equal, and equal deadlines are sorted in front. */
  lemma DueFirst(early: int, p: int, late: int, q: int)
    requires 0 <= p <= 255 && 0 <= q <= 255
    ensures early + 138 < late ==> Deadline(early, p, false) < Deadline(late, q, false)
    ensures early + 138 <= late ==> Deadline(early, p, false) <= Deadline(late, q, false)
    ensures Deadline(early, 255, false) == Deadline(early + 138, 0, false)
    ensures forall a: Entry<nat>, b: Entry<nat> ::
      a.key == Deadline(early, 255, false) && b.key == Deadline(early + 138, 0, false) ==> Place(Edf, [a], b)[0].id == b.id
  {
  }

  /** The idle thread is due after every thread that comes within 15778462999862 ticks. */
  lemma IdleDueLast(tick: int, p: int, late: int, q: int)
    requires 0 <= p <= 255 && 0 <= q <= 255 && late < tick + 15778463000000 - 138
    ensures Deadline(late, q, false) < Deadline(tick, p, true)
  {
  }

  /** A queued thread: its sort key and its event counter. */
  datatype Entry<T> = Entry(id: T, key: int, ec: int)

  /** What a queue head points at: SIGNALED, or a list that may be empty (NULL). */
  datatype Head<T> = Signaled | Threads(q: seq<Entry<T>>)

  /** Whether `e` is linked in before `node`. */
  predicate Before<T>(o: Order, node: Entry<T>, e: Entry<T>)
  {
    match o
    case Rr => node.key > e.key
    case Edf => e.key <= node.key
    case Fifo => false
  }

  /** The list after inserting `e`, which takes over the counter of its successor. */
  function Place<T>(o: Order, q: seq<Entry<T>>, e: Entry<T>): seq<Entry<T>>
  {
    if q == [] then [e]
    else if Before(o, q[0], e) then [e.(ec := e.ec + q[0].ec), q[0].(ec := 0)] + q[1..]
    else [q[0]] + Place(o, q[1..], e)
  }

  function Insert<T>(o: Order, h: Head<T>, e: Entry<T>): Head<T>
  {
    match h
    case Signaled => Threads([e.(ec := 1)])
    case Threads(q) => Threads(Place(o, q, e.(ec := 0)))
  }

  /** The list after `e` left it from the front: its counter stays with the next head. */
  function Inherit<T>(e: Entry<T>, rest: seq<Entry<T>>): seq<Entry<T>>
  {
    if e.ec != 0 && rest != [] then [rest[0].(ec := e.ec)] + rest[1..] else rest
  }

  /** The list without the thread `id`, or nothing when it is not queued. */
  function Remove<T(==)>(q: seq<Entry<T>>, id: T): Option<seq<Entry<T>>>
  {
    if q == [] then None
    else if q[0].id == id then Some(Inherit(q[0], q[1..]))
    else match Remove(q[1..], id)
         case None => None
         case Some(r) => Some([q[0]] + r)
  }

  /** A wait queue that its last thread left is signaled. */
  function Emptied<T>(q: seq<Entry<T>>): Head<T>
  {
    if q == [] then Signaled else Threads(q)
  }

  /** event_notify_irq on a queue head; the counter is an unsigned char. */
  function Posted<T>(h: Head<T>): Head<T>
  {
    if h.Signaled? || h.q == [] then Signaled
    else Threads(Recounted(h.q, (h.q[0].ec + 1) % 256))
  }

  // ----- members

  predicate Member<T(==)>(q: seq<Entry<T>>, id: T)
  {
    q != [] && (q[0].id == id || Member(q[1..], id))
  }

  predicate DistinctIds<T(==)>(q: seq<Entry<T>>)
  {
    q == [] || (!Member(q[1..], q[0].id) && DistinctIds(q[1..]))
  }

  lemma {:induction false} PlaceMembers<T>(o: Order, q: seq<Entry<T>>, e: Entry<T>, id: T)
    ensures Member(Place(o, q, e), id) <==> Member(q, id) || id == e.id
    ensures |Place(o, q, e)| == |q| + 1
  {
    var p := Place(o, q, e);
    if q != [] {
      if Before(o, q[0], e) {
        assert p[1..] == [q[0].(ec := 0)] + q[1..] && p[1..][1..] == q[1..];
      } else {
        PlaceMembers(o, q[1..], e, id);
        assert p[1..] == Place(o, q[1..], e);
      }
    }
  }

  lemma {:induction false} PlaceDistinct<T>(o: Order, q: seq<Entry<T>>, e: Entry<T>)
    requires DistinctIds(q) && !Member(q, e.id)
    ensures DistinctIds(Place(o, q, e))
  {
    var p := Place(o, q, e);
    if q != [] {
      if Before(o, q[0], e) {
        assert p[1..] == [q[0].(ec := 0)] + q[1..] && p[1..][1..] == q[1..];
      } else {
        PlaceDistinct(o, q[1..], e);
        PlaceMembers(o, q[1..], e, q[0].id);
        assert p[1..] == Place(o, q[1..], e);
      }
    }
  }

  lemma InheritMembers<T>(e: Entry<T>, rest: seq<Entry<T>>, id: T)
    ensures Member(Inherit(e, rest), id) <==> Member(rest, id)
    ensures DistinctIds(rest) ==> DistinctIds(Inherit(e, rest))
  {
    var r := Inherit(e, rest);
    if e.ec != 0 && rest != [] {
      assert r[1..] == rest[1..];
    }
  }

  lemma {:induction false} RemoveMembers<T>(q: seq<Entry<T>>, gone: T, id: T)
    requires DistinctIds(q)
    ensures Remove(q, gone).Some? <==> Member(q, gone)
    ensures Remove(q, gone).Some? ==>
      var r := Remove(q, gone).value;
      (Member(r, id) <==> Member(q, id) && id != gone) && DistinctIds(r) && |r| == |q| - 1
  {
    if q != [] {
      if q[0].id == gone {
        InheritMembers(q[0], q[1..], id);
      } else {
        RemoveMembers(q[1..], gone, id);
        RemoveMembers(q[1..], gone, q[0].id);
        if Remove(q[1..], gone).Some? {
          assert Remove(q, gone).value[1..] == Remove(q[1..], gone).value;
        }
      }
    }
  }

  // ----- order

  predicate AllAtLeast<T>(q: seq<Entry<T>>, key: int)
  {
    forall i :: 0 <= i < |q| ==> key <= q[i].key
  }

  predicate Sorted<T>(q: seq<Entry<T>>)
  {
    q == [] || (AllAtLeast(q[1..], q[0].key) && Sorted(q[1..]))
  }

  lemma {:induction false} PlaceAtLeast<T>(o: Order, q: seq<Entry<T>>, e: Entry<T>, key: int)
    requires AllAtLeast(q, key) && key <= e.key
    ensures AllAtLeast(Place(o, q, e), key)
  {
    if q != [] && !Before(o, q[0], e) {
      PlaceAtLeast(o, q[1..], e, key);
    }
  }

  lemma {:induction false} PlaceSorted<T>(o: Order, q: seq<Entry<T>>, e: Entry<T>)
    requires Sorted(q) && o != Fifo
    ensures Sorted(Place(o, q, e))
  {
    var p := Place(o, q, e);
    if q != [] {
      if Before(o, q[0], e) {
        assert p[1..] == [q[0].(ec := 0)] + q[1..] && p[1..][1..] == q[1..];
        assert AllAtLeast(q[1..], e.key);
      } else {
        PlaceSorted(o, q[1..], e);
        PlaceAtLeast(o, q[1..], e, q[0].key);
        assert p[1..] == Place(o, q[1..], e);
      }
    }
  }

  /** Where an insert puts `e` in a sorted list: round robin behind every equal key
      (first come, first served), EDF in front of every equal key. */
  function Rank<T>(o: Order, q: seq<Entry<T>>, key: int): (n: nat)
    ensures n <= |q|
  {
    if q == [] then 0
    else (if q[0].key < key || (q[0].key == key && o == Rr) || o == Fifo then 1 else 0) + Rank(o, q[1..], key)
  }

  lemma {:induction false} RankZero<T>(o: Order, q: seq<Entry<T>>, key: int)
    requires AllAtLeast(q, key) && o != Fifo && (o == Rr ==> AllAtLeast(q, key + 1))
    ensures Rank(o, q, key) == 0
  {
    if q != [] {
      RankZero(o, q[1..], key);
    }
  }

  /** Same threads and keys; counters aside. */
  predicate SameThreads<T(==)>(p: seq<Entry<T>>, q: seq<Entry<T>>)
  {
    |p| == |q| && forall i :: 0 <= i < |p| ==> p[i].id == q[i].id && p[i].key == q[i].key
  }

  /** `q` with `e` at position `n`. */
  function With<T>(q: seq<Entry<T>>, n: nat, e: Entry<T>): seq<Entry<T>>
    requires n <= |q|
  {
    q[..n] + [e] + q[n..]
  }

  lemma {:induction false} PlaceRank<T>(o: Order, q: seq<Entry<T>>, e: Entry<T>)
    requires Sorted(q) || o == Fifo
    ensures SameThreads(Place(o, q, e), With(q, Rank(o, q, e.key), e))
  {
    if q != [] {
      var rest := q[1..];
      if Before(o, q[0], e) {
        RankZero(o, rest, e.key);
      } else {
        PlaceRank(o, rest, e);
        WithCons(q, Rank(o, rest, e.key), e);
        SameCons(q[0], Place(o, rest, e), With(rest, Rank(o, rest, e.key), e));
      }
    }
  }

  lemma {:induction false} FifoEnd<T>(q: seq<Entry<T>>, e: Entry<T>)
    ensures Place(Fifo, q, e) == q + [e]
  {
    if q != [] {
      FifoEnd(q[1..], e);
      assert q + [e] == [q[0]] + (q[1..] + [e]);
    }
  }

  lemma WithCons<T>(q: seq<Entry<T>>, m: nat, e: Entry<T>)
    requires q != [] && m <= |q[1..]|
    ensures With(q, m + 1, e) == [q[0]] + With(q[1..], m, e)
  {
  }

  lemma SameCons<T>(e: Entry<T>, p: seq<Entry<T>>, q: seq<Entry<T>>)
    requires SameThreads(p, q)
    ensures SameThreads([e] + p, [e] + q)
  {
  }

  lemma {:induction false} RemoveSorted<T>(q: seq<Entry<T>>, id: T, key: int)
    requires Sorted(q) && Remove(q, id).Some?
    ensures Sorted(Remove(q, id).value)
    ensures AllAtLeast(q, key) ==> AllAtLeast(Remove(q, id).value, key)
  {
    var r := Remove(q, id).value;
    if q[0].id == id {
      assert r != [] ==> r[1..] == q[1..][1..] && r[0].key == q[1].key;
    } else {
      RemoveSorted(q[1..], id, key);
      RemoveSorted(q[1..], id, q[0].key);
      assert r[1..] == Remove(q[1..], id).value;
    }
  }

  // ----- event counters

  predicate NoEvents<T>(q: seq<Entry<T>>)
  {
    forall i :: 0 <= i < |q| ==> q[i].ec == 0
  }

  /** Only the head carries events. */
  predicate HeadOnly<T>(q: seq<Entry<T>>)
  {
    q == [] || NoEvents(q[1..])
  }

  function Events<T>(q: seq<Entry<T>>): int
  {
    if q == [] then 0 else q[0].ec + Events(q[1..])
  }

  /** A posted event is on record. */
  predicate Recorded<T>(h: Head<T>)
  {
    h.Signaled? || (h.q != [] && h.q[0].ec > 0)
  }

  lemma {:induction false} PlaceEvents<T>(o: Order, q: seq<Entry<T>>, e: Entry<T>)
    ensures Events(Place(o, q, e)) == Events(q) + e.ec
    ensures NoEvents(q) && e.ec == 0 ==> NoEvents(Place(o, q, e))
  {
    var p := Place(o, q, e);
    if q != [] {
      if Before(o, q[0], e) {
        assert p[1..] == [q[0].(ec := 0)] + q[1..] && p[1..][1..] == q[1..];
      } else {
        PlaceEvents(o, q[1..], e);
        assert p[1..] == Place(o, q[1..], e);
      }
    }
  }

  /** Inserting keeps the pending events on the head and their number; inserting into
      a signaled queue turns the signal into one event. */
  lemma InsertEvents<T>(o: Order, h: Head<T>, e: Entry<T>)
    requires h.Threads? ==> HeadOnly(h.q)
    ensures var r := Insert(o, h, e);
            && r.Threads? && HeadOnly(r.q) && r.q != []
            && Events(r.q) == (if h.Signaled? then 1 else Events(h.q))
            && r.q[0].ec == Events(r.q)
            && (Recorded(r) <==> h.Signaled? || Events(h.q) > 0)
  {
    if h.Threads? {
      var q, n := h.q, e.(ec := 0);
      PlaceEvents(o, q, n);
      if q != [] {
        NoEventsSum(q[1..]);
        PlaceEvents(o, q[1..], n);
        if Before(o, q[0], n) {
          assert Place(o, q, n)[1..] == [q[0].(ec := 0)] + q[1..];
        } else {
          assert Place(o, q, n)[1..] == Place(o, q[1..], n);
        }
      }
    }
  }

  lemma {:induction false} NoEventsSum<T>(q: seq<Entry<T>>)
    requires NoEvents(q)
    ensures Events(q) == 0
  {
    if q != [] {
      NoEventsSum(q[1..]);
    }
  }

  lemma {:induction false} NoEventsRemove<T>(q: seq<Entry<T>>, id: T)
    requires NoEvents(q) && Remove(q, id).Some?
    ensures NoEvents(Remove(q, id).value)
  {
    if q[0].id != id {
      NoEventsRemove(q[1..], id);
    }
  }

  /** Removing a thread keeps the pending events on the head; they are lost only when
      the last thread leaves. */
  lemma RemoveEvents<T>(q: seq<Entry<T>>, id: T)
    requires HeadOnly(q) && Remove(q, id).Some?
    ensures var r := Remove(q, id).value;
            && HeadOnly(r)
            && (r != [] ==> Events(r) == Events(q) && r[0].ec == q[0].ec)
  {
    var r := Remove(q, id).value;
    NoEventsSum(q[1..]);
    if q[0].id == id {
      if q[0].ec != 0 && q[1..] != [] {
        assert r[1..] == q[1..][1..];
        NoEventsSum(r[1..]);
      }
    } else {
      NoEventsRemove(q[1..], id);
      assert r[1..] == Remove(q[1..], id).value;
      NoEventsSum(r[1..]);
    }
  }

  // ----- wait queues

  /** A thread is queued at a head. */
  predicate Has<T(==)>(h: Head<T>, id: T)
  {
    h.Threads? && Member(h.q, id)
  }

  /** A wait queue: distinct threads, and an 8-bit event counter on the head only. */
  predicate HeadOk<T(==)>(h: Head<T>)
  {
    h.Threads? ==> DistinctIds(h.q) && HeadOnly(h.q) && (h.q != [] ==> 0 <= h.q[0].ec < 256)
  }

  /** A wait queue after its first thread was woken. */
  function AfterFirst<T>(list: seq<Entry<T>>): Head<T>
    requires list != []
  {
    Emptied(Inherit(list[0], list[1..]))
  }

  /** A wait queue whose first thread has `ec` events. */
  function Recounted<T>(list: seq<Entry<T>>, ec: int): seq<Entry<T>>
    requires list != []
  {
    [list[0].(ec := ec)] + list[1..]
  }

  lemma FirstLeaves<T>(list: seq<Entry<T>>, x: T)
    requires HeadOk(Threads(list)) && list != []
    ensures HeadOk(AfterFirst(list))
    ensures Has(AfterFirst(list), x) <==> Member(list, x) && x != list[0].id
  {
    assert Remove(list, list[0].id) == Some(Inherit(list[0], list[1..]));
    RemoveMembers(list, list[0].id, x);
    RemoveEvents(list, list[0].id);
  }

  /** A thread joins the wait queue at its end; what is on record stays so. */
  lemma LastJoins<T>(h: Head<T>, t: T, x: T)
    requires HeadOk(h) && !Has(h, t)
    ensures var n := Insert(Fifo, h, Entry(t, 0, 0));
            && n.Threads? && HeadOk(n) && (Has(n, x) <==> Has(h, x) || x == t)
            && (Recorded(h) ==> Recorded(n))
  {
    var e := Entry(t, 0, 0);
    InsertEvents(Fifo, h, e);
    if h.Threads? {
      PlaceDistinct(Fifo, h.q, e);
      PlaceMembers(Fifo, h.q, e, x);
      if h.q != [] {
        NoEventsSum(h.q[1..]);
      }
    } else {
      var list := Insert(Fifo, h, e).q;
      assert list[0].id == t && list[1..] == [] && !Member(list[1..], x);
    }
  }

  lemma RecountedKeeps<T>(list: seq<Entry<T>>, ec: int, x: T)
    requires HeadOk(Threads(list)) && list != [] && 0 <= ec < 256
    ensures HeadOk(Threads(Recounted(list, ec))) && (Member(Recounted(list, ec), x) <==> Member(list, x))
  {
    assert Recounted(list, ec)[1..] == list[1..];
  }

  // ----- dynamic priorities

  const IDLE_PRIO := 255

  /** rr_update_dyn_prio on an effective priority prio - dprio: raised by `num` steps,
      not beyond 0; the idle thread is left alone. */
  function Raised<T>(q: seq<Entry<T>>, idle: T -> bool, num: int): seq<Entry<T>>
  {
    if q == [] then []
    else
      var key := if idle(q[0].id) then q[0].key else if q[0].key < num then 0 else q[0].key - num;
      [q[0].(key := key)] + Raised(q[1..], idle, num)
  }

  /** No ordinary thread is queued behind the idle thread. */
  predicate IdleLast<T>(q: seq<Entry<T>>, idle: T -> bool)
  {
    q == [] || (IdleLast(q[1..], idle) && (idle(q[0].id) ==> AllIdle(q[1..], idle)))
  }

  predicate AllIdle<T>(q: seq<Entry<T>>, idle: T -> bool)
  {
    forall i :: 0 <= i < |q| ==> idle(q[i].id)
  }

  predicate PrioritiesOk<T>(q: seq<Entry<T>>, idle: T -> bool)
  {
    forall i :: 0 <= i < |q| ==> 0 <= q[i].key <= IDLE_PRIO && (idle(q[i].id) ==> q[i].key == IDLE_PRIO)
  }

  lemma {:induction false} RaisedAt<T>(q: seq<Entry<T>>, idle: T -> bool, num: int, i: nat)
    requires i < |q|
    ensures |Raised(q, idle, num)| == |q|
    ensures var r := Raised(q, idle, num)[i];
            r.id == q[i].id && r.ec == q[i].ec &&
            r.key == if idle(q[i].id) then q[i].key else if q[i].key < num then 0 else q[i].key - num
  {
    if i > 0 {
      RaisedAt(q[1..], idle, num, i - 1);
    } else if |q| > 1 {
      RaisedAt(q[1..], idle, num, 0);
    }
  }

  /** The update keeps a sorted queue sorted exactly when no ordinary thread is queued
      behind the idle thread, as is the case when ordinary priorities stay below 255. */
  lemma {:induction false} RaisedSorted<T>(q: seq<Entry<T>>, idle: T -> bool, num: int)
    requires Sorted(q) && PrioritiesOk(q, idle) && 0 < num
    ensures Sorted(Raised(q, idle, num)) <==> IdleLast(q, idle)
  {
    if q != [] {
      var r, rest := Raised(q, idle, num), q[1..];
      assert r[1..] == Raised(rest, idle, num);
      assert PrioritiesOk(rest, idle);
      RaisedSorted(rest, idle, num);
      RaisedHead(q, idle, num);
    }
  }

  lemma RaisedHead<T>(q: seq<Entry<T>>, idle: T -> bool, num: int)
    requires q != [] && Sorted(q) && PrioritiesOk(q, idle) && 0 < num
    ensures AllAtLeast(Raised(q[1..], idle, num), Raised(q, idle, num)[0].key)
       <==> (idle(q[0].id) ==> AllIdle(q[1..], idle))
  {
    var rest := q[1..];
    var r, key := Raised(rest, idle, num), Raised(q, idle, num)[0].key;
    forall i | 0 <= i < |rest|
      ensures |r| == |rest| && r[i].key == if idle(rest[i].id) then rest[i].key else if rest[i].key < num then 0 else rest[i].key - num
      ensures q[0].key <= rest[i].key && rest[i] == q[i + 1]
    {
      RaisedAt(rest, idle, num, i);
    }
    if idle(q[0].id) && !AllIdle(rest, idle) {
      var i :| 0 <= i < |rest| && !idle(rest[i].id);
      assert r[i].key < key;
    }
    if rest == [] {
      assert r == [];
    }
  }

  lemma {:induction false} BelowIdle<T>(q: seq<Entry<T>>, idle: T -> bool)
    requires Sorted(q) && PrioritiesOk(q, idle)
    requires forall i :: 0 <= i < |q| && !idle(q[i].id) ==> q[i].key < IDLE_PRIO
    ensures IdleLast(q, idle)
  {
    if q != [] {
      assert PrioritiesOk(q[1..], idle);
      BelowIdle(q[1..], idle);
    }
  }
}
