/** Linked queues read as queues of thread numbers, as the step systems have them. */
module QueueIds {
  import opened QueueSpec
  import opened ThreadQueue
  import opened Wrappers

  function IdOf(e: Entry<Thread>): Entry<nat>
  {
    Entry(e.id.id, e.key, e.ec)
  }

  function Ids(q: seq<Entry<Thread>>): (r: seq<Entry<nat>>)
    ensures |r| == |q|
  {
    if q == [] then [] else [IdOf(q[0])] + Ids(q[1..])
  }

  function HeadIds(h: Head<Thread>): Head<nat>
  {
    match h
    case Signaled => Signaled
    case Threads(q) => Threads(Ids(q))
  }

  /** `all` gives the thread of each number. */
  predicate Known(all: map<nat, Thread>, t: Thread)
  {
    t.id in all && all[t.id] == t
  }

  lemma {:induction false} IdsAt(q: seq<Entry<Thread>>, i: nat)
    requires i < |q|
    ensures Ids(q)[i] == IdOf(q[i])
    decreases i
  {
    if i > 0 {
      IdsAt(q[1..], i - 1);
    }
  }

  lemma IdsCons(e: Entry<Thread>, q: seq<Entry<Thread>>)
    ensures Ids([e] + q) == [IdOf(e)] + Ids(q)
  {
    assert ([e] + q)[1..] == q;
  }

  lemma {:induction false} IdsPlace(o: Order, q: seq<Entry<Thread>>, e: Entry<Thread>)
    ensures Ids(Place(o, q, e)) == Place(o, Ids(q), IdOf(e))
  {
    if q == [] {
      IdsCons(e, []);
      assert [e] + [] == [e];
    } else if Before(o, q[0], e) {
      IdsPlaceFirst(o, q, e);
    } else {
      IdsPlace(o, q[1..], e);
      IdsCons(q[0], Place(o, q[1..], e));
      assert Ids(q)[1..] == Ids(q[1..]);
    }
  }

  lemma IdsPlaceFirst(o: Order, q: seq<Entry<Thread>>, e: Entry<Thread>)
    requires q != [] && Before(o, q[0], e)
    ensures Ids(Place(o, q, e)) == Place(o, Ids(q), IdOf(e))
  {
    hide Place;
    var first, second := e.(ec := e.ec + q[0].ec), q[0].(ec := 0);
    PlaceFirst(o, q, e);
    PlaceFirst(o, Ids(q), IdOf(e));
    IdsCons(second, q[1..]);
    IdsCons(first, [second] + q[1..]);
    assert Ids(q)[1..] == Ids(q[1..]);
  }

  lemma PlaceFirst<T>(o: Order, q: seq<Entry<T>>, e: Entry<T>)
    requires q != [] && Before(o, q[0], e)
    ensures Place(o, q, e) == [e.(ec := e.ec + q[0].ec)] + ([q[0].(ec := 0)] + q[1..])
  {
  }

  lemma IdsInsert(o: Order, h: Head<Thread>, e: Entry<Thread>)
    ensures HeadIds(Insert(o, h, e)) == Insert(o, HeadIds(h), IdOf(e))
  {
    match h
    case Signaled => assert Ids([e.(ec := 1)]) == [IdOf(e.(ec := 1))];
    case Threads(q) => IdsPlace(o, q, e.(ec := 0));
  }

  lemma IdsInherit(e: Entry<Thread>, rest: seq<Entry<Thread>>)
    ensures Ids(Inherit(e, rest)) == Inherit(IdOf(e), Ids(rest))
  {
    var r := Inherit(e, rest);
    if e.ec != 0 && rest != [] {
      assert r[1..] == rest[1..] && Ids(rest)[1..] == Ids(rest[1..]);
    }
  }

  lemma {:induction false} IdsRemove(all: map<nat, Thread>, q: seq<Entry<Thread>>, t: Thread)
    requires Known(all, t) && forall i :: 0 <= i < |q| ==> Known(all, q[i].id)
    ensures Remove(Ids(q), t.id) == match Remove(q, t) case None => None case Some(r) => Some(Ids(r))
  {
    if q != [] {
      assert Ids(q)[1..] == Ids(q[1..]) && Known(all, q[0].id);
      if q[0].id == t {
        IdsInherit(q[0], q[1..]);
      } else {
        IdsRemove(all, q[1..], t);
        if Remove(q[1..], t).Some? {
          assert Remove(q, t).value[1..] == Remove(q[1..], t).value;
        }
      }
    }
  }

  lemma {:induction false} NotQueued(q: seq<Entry<Thread>>, t: Thread)
    requires forall i :: 0 <= i < |q| ==> q[i].id != t
    ensures Remove(q, t) == None
  {
    if q != [] {
      NotQueued(q[1..], t);
    }
  }

  lemma IdsFirst(q: seq<Entry<Thread>>)
    requires q != []
    ensures HeadIds(AfterFirst(q)) == AfterFirst(Ids(q))
  {
    assert Ids(q)[1..] == Ids(q[1..]);
    IdsInherit(q[0], q[1..]);
  }

  lemma IdsRecounted(q: seq<Entry<Thread>>, ec: int)
    requires q != []
    ensures Ids(Recounted(q, ec)) == Recounted(Ids(q), ec)
  {
    assert Ids(q)[1..] == Ids(q[1..]) && Recounted(q, ec)[1..] == q[1..];
  }

  lemma IdsPosted(h: Head<Thread>)
    ensures HeadIds(Posted(h)) == Posted(HeadIds(h))
  {
    if h.Threads? && h.q != [] {
      IdsRecounted(h.q, (h.q[0].ec + 1) % 256);
    }
  }

  /** A number is queued exactly when its thread is. */
  lemma {:induction false} IdsMember(all: map<nat, Thread>, q: seq<Entry<Thread>>, n: nat)
    requires n in all && all[n].id == n && forall i :: 0 <= i < |q| ==> Known(all, q[i].id)
    ensures Member(Ids(q), n) <==> exists i :: 0 <= i < |q| && q[i].id == all[n]
  {
    if q != [] {
      var rest := q[1..];
      assert Ids(q)[1..] == Ids(rest) && Known(all, q[0].id);
      IdsMember(all, rest, n);
      if i :| 0 <= i < |rest| && rest[i].id == all[n] {
        assert q[i + 1].id == all[n];
      }
      if i :| 0 <= i < |q| && q[i].id == all[n] {
        assert i > 0 ==> rest[i - 1].id == all[n];
      }
    }
  }

  lemma {:induction false} IdsUnknown(all: map<nat, Thread>, q: seq<Entry<Thread>>, n: nat)
    requires n !in all && forall i :: 0 <= i < |q| ==> Known(all, q[i].id)
    ensures !Member(Ids(q), n)
  {
    if q != [] {
      assert Ids(q)[1..] == Ids(q[1..]) && Known(all, q[0].id);
      IdsUnknown(all, q[1..], n);
    }
  }

  lemma ValuesGrow<K, V>(m: map<K, V>, k: K, v: V)
    requires k !in m
    ensures m[k := v].Values == m.Values + {v}
  {
    var n := m[k := v];
    assert n[k] == v;
    forall x | x in m.Values
      ensures x in n.Values
    {
      var i :| i in m && m[i] == x;
      assert n[i] == x;
    }
  }
}
