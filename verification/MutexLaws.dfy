/** What the mutex does for the threads that use it: runs of one lock, one unlock and one
    hand-over, from any state that its invariant allows. */
module MutexLaws {
  import opened Mutex
  import opened QueueSpec
  import opened Wrappers

  /** `moves` can be made from `s` and end in `n`. */
  ghost predicate Leads(s: Lock, moves: seq<Move>, n: Lock)
  {
    CanRun(s, moves) && Run(s, moves) == n
  }

  lemma Onward(s: Lock, m: Move, mid: Lock, moves: seq<Move>, n: Lock)
    requires Ready(s, m) && Next(s, m) == Some(mid) && Leads(mid, moves, n)
    ensures Leads(s, [m] + moves, n)
  {
    assert ([m] + moves)[1..] == moves;
  }

  lemma Stay(s: Lock)
    ensures Leads(s, [], s)
  {
  }

  /** The state of the mutex and the place of one thread; the other threads are where they were. */
  ghost predicate Now(s: Lock, n: Lock, count: int, owner: Option<Tid>, t: Tid, p: Place)
  {
    && n.count == count && n.owner == owner && PlaceOf(n, t) == p
    && forall u: Tid :: u != t && u != s.current ==> PlaceOf(n, u) == PlaceOf(s, u)
  }

  /** A free mutex is locked at once. */
  lemma LocksFree(s: Lock)
    requires Inv(s) && Ready(s, Enter) && s.count == 0
    ensures exists n :: Leads(s, [Enter, Test], n) && Now(s, n, 1, Some(s.current), s.current, Out) && n.head == s.head
  {
    var a := Next(s, Enter).value;
    var n := Next(a, Test).value;
    Stay(n);
    Onward(a, Test, n, [], n);
    Onward(s, Enter, a, [Test], n);
    assert [Enter] + [Test] == [Enter, Test] && [Test] + [] == [Test];
  }

  /** The owner locks again without waiting, and then has one more unlock to do. */
  lemma LocksAgain(s: Lock)
    requires Inv(s) && Ready(s, Enter) && s.owner == Some(s.current)
    ensures exists n :: Leads(s, [Enter], n) && Now(s, n, s.count + 1, s.owner, s.current, Out) && n.head == s.head
    ensures exists n :: Leads(s, [Enter, Release], n) && Now(s, n, s.count, s.owner, s.current, Out) && n.head == s.head
  {
    var a := Next(s, Enter).value;
    var n := Next(a, Release).value;
    Stay(a);
    Stay(n);
    Onward(s, Enter, a, [], a);
    Onward(a, Release, n, [], n);
    Onward(s, Enter, a, [Release], n);
    assert [Enter] + [Release] == [Enter, Release] && [Enter] + [] == [Enter] && [Release] + [] == [Release];
  }

  /** The last unlock with nobody queued frees the mutex and leaves the queue signaled. */
  lemma FreesSignaled(s: Lock)
    requires Inv(s) && Ready(s, Release) && s.owner == Some(s.current) && s.count == 1
    requires s.head.Signaled? || s.head.q == []
    ensures exists n :: Leads(s, [Release, Notify], n) && Now(s, n, 0, None, s.current, Out) && n.head == Signaled
  {
    var a := Next(s, Release).value;
    var n := Next(a, Notify).value;
    Stay(n);
    Onward(a, Notify, n, [], n);
    Onward(s, Release, a, [Notify], n);
    assert [Release] + [Notify] == [Release, Notify] && [Notify] + [] == [Notify];
  }

  /** The last unlock with threads queued: the first of them, once it runs, has the mutex. The
      next one is first now and has taken over what events there were; an emptied queue is signaled. */
  lemma HandsOver(s: Lock)
    requires Inv(s) && Ready(s, Release) && s.owner == Some(s.current) && s.count == 1
    requires s.head.Threads? && s.head.q != []
    ensures var q := s.head.q; var t := q[0].id;
            exists n :: Leads(s, [Release, Notify, Switch(t), Test], n) && Now(s, n, 1, Some(t), t, Out)
                        && PlaceOf(n, s.current) == Out && Shortened(q, n.head, q[0].ec)
  {
    var q := s.head.q;
    var t := q[0].id;
    assert Listed(s, t);
    var a := Next(s, Release).value;
    var b := Next(a, Notify).value;
    var c := Next(b, Switch(t)).value;
    var n := Next(c, Test).value;
    Stay(n);
    Onward(c, Test, n, [], n);
    Onward(b, Switch(t), c, [Test], n);
    Onward(a, Notify, b, [Switch(t), Test], n);
    Onward(s, Release, a, [Notify, Switch(t), Test], n);
    assert [Test] + [] == [Test] && [Switch(t)] + [Test] == [Switch(t), Test];
    assert [Notify] + [Switch(t), Test] == [Notify, Switch(t), Test];
    assert [Release] + [Notify, Switch(t), Test] == [Release, Notify, Switch(t), Test];
    Shorter(q);
  }

  /** The first waiter of `q` is gone. */
  predicate Shortened(q: seq<Entry<Tid>>, h: Head<Tid>, ec: int)
    requires q != []
  {
    if |q| == 1 then h == Signaled
    else
      && h.Threads? && |h.q| == |q| - 1 && h.q[0].id == q[1].id && h.q[0].ec == ec
      && forall i :: 1 <= i < |h.q| ==> h.q[i] == q[i + 1]
  }

  lemma Shorter(q: seq<Entry<Tid>>)
    requires q != [] && HeadOk(Threads(q))
    ensures Shortened(q, AfterFirst(q), q[0].ec)
  {
    if |q| > 1 {
      assert q[1] == q[1..][0] && q[1].ec == 0;
    }
  }

  /** While the mutex is held, a signal lets a contender test it once more and no more, and
      then it goes to the end of the queue. */
  lemma WaitsInLine(s: Lock)
    requires Inv(s) && Ready(s, Test) && s.count > 0
    ensures s.head.Signaled? ==>
      exists n :: Leads(s, [Test, Wait], n) && Now(s, n, s.count, s.owner, s.current, Contend) && n.head == Threads([])
    ensures s.head.Threads? ==>
      exists n :: Leads(s, [Test, Wait, Enlist], n) && Now(s, n, s.count, s.owner, s.current, Queued)
                  && n.head == Threads(s.head.q + [Entry(s.current, 0, 0)])
  {
    var a := Next(s, Test).value;
    var b := Next(a, Wait).value;
    assert [Wait] + [] == [Wait] && [Test] + [Wait] == [Test, Wait];
    if s.head.Signaled? {
      Stay(b);
      Onward(a, Wait, b, [], b);
      Onward(s, Test, a, [Wait], b);
    } else {
      var n := Next(b, Enlist).value;
      FifoEnd(s.head.q, Entry(s.current, 0, 0));
      Stay(n);
      Onward(b, Enlist, n, [], n);
      Onward(a, Wait, b, [Enlist], n);
      Onward(s, Test, a, [Wait, Enlist], n);
      assert [Enlist] + [] == [Enlist] && [Wait] + [Enlist] == [Wait, Enlist] && [Test] + [Wait, Enlist] == [Test, Wait, Enlist];
    }
  }

  /** The scheduler uses up one event of the first waiter and sends it back to the test. */
  lemma DeliversOne(s: Lock)
    requires Inv(s) && Ready(s, Deliver)
    ensures var q := s.head.q; var t := q[0].id;
            exists n :: Leads(s, [Deliver], n) && n.count == s.count && n.owner == s.owner && PlaceOf(n, t) == Contend
                        && (forall u: Tid :: u != t ==> PlaceOf(n, u) == PlaceOf(s, u)) && Shortened(q, n.head, q[0].ec - 1)
  {
    var n, q := Next(s, Deliver).value, Recounted(s.head.q, s.head.q[0].ec - 1);
    Stay(n);
    Onward(s, Deliver, n, [], n);
    assert [Deliver] + [] == [Deliver];
    RecountedKeeps(s.head.q, s.head.q[0].ec - 1, s.current);
    Shorter(q);
  }
}
