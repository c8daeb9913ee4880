/** Whole runs of the allocator: regions are added, blocks are handed out and
    freed, in any order. */
module HeapRuns {
  import opened HeapSpec
  import opened Heap
  import opened Wrappers

  /** A block in use, and the size its owner asked for. */
  datatype Live = Live(b: Block, asked: int)

  datatype State = State(free: seq<Block>, live: seq<Live>, added: seq<Block>)

  datatype Op = Add(region: Block) | Malloc(size: int, p: Policy) | Release(ptr: int)

  function Blocks(live: seq<Live>): seq<Block>
  {
    if live == [] then [] else [live[0].b] + Blocks(live[1..])
  }

  /** The live block whose header is at `addr`. */
  function Find(live: seq<Live>, addr: int): (i: Option<nat>)
    ensures i.Some? ==> i.value < |live| && live[i.value].b.addr == addr
  {
    if live == [] then None
    else if live[0].b.addr == addr then Some(0)
    else match Find(live[1..], addr)
         case None => None
         case Some(i) => Some(i + 1)
  }

  function Without(live: seq<Live>, i: nat): seq<Live>
    requires i < |live|
  {
    if i == 0 then live[1..] else [live[0]] + Without(live[1..], i - 1)
  }

  const START := State([], [], [])

  /** The state after `op`, or nothing when its caller breaks the rules: regions must
      be new, and a pointer passed to free must be NULL, live, or inside free memory. */
  function Step(cfg: Config, s: State, op: Op): Option<State>
    requires cfg.Ok()
  {
    match op
    case Add(r) =>
      if 0 < r.addr && cfg.node <= r.size && r.End() < cfg.limit && Disjoint(s.added, r) && Insert(s.free, r).Some?
      then Some(State(Insert(s.free, r).value, s.live, [r] + s.added)) else None
    case Malloc(size, p) =>
      if !(0 <= size < cfg.limit) then None
      else
        var need := Need(cfg, size);
        var k := Select(s.free, need, p);
        if k.None? then Some(s)
        else Some(State(Remove(cfg, s.free, k.value, need), [Live(Got(cfg, s.free, k.value, need), size)] + s.live, s.added))
    case Release(ptr) =>
      var i := Find(s.live, ptr - cfg.overhead);
      if ptr == 0 then Some(s)
      else if i.Some? then
        var r := Insert(s.free, s.live[i.value].b);
        if r.Some? then Some(State(r.value, Without(s.live, i.value), s.added)) else None
      else if Covers(s.free, ptr - cfg.overhead) then Some(s)
      else None
  }

  function Run(cfg: Config, s: State, ops: seq<Op>): Option<State>
    requires cfg.Ok()
    decreases |ops|
  {
    if ops == [] then Some(s)
    else
      var r := Step(cfg, s, ops[0]);
      if r.None? then None else Run(cfg, r.value, ops[1..])
  }

  // ----- what every run keeps

  /** The bytes due for a request: with a header, and at least a node; a node when the sum
      wraps. */
  function Due(cfg: Config, asked: int): int
  {
    if cfg.node <= asked + cfg.overhead < cfg.limit then asked + cfg.overhead else cfg.node
  }

  /** The block can hold a header, and its payload is as large as was asked for
      exactly when adding the header to the size did not wrap; less than a node of it is
      more than is due. */
  predicate Served(cfg: Config, l: Live)
  {
    && 0 < l.b.addr && cfg.node <= l.b.size && l.b.End() < cfg.limit && 0 <= l.asked < cfg.limit
    && (l.asked <= l.b.size - cfg.overhead <==> l.asked + cfg.overhead < cfg.limit)
    && Due(cfg, l.asked) <= l.b.size < Due(cfg, l.asked) + cfg.node
  }

  predicate LiveOk(cfg: Config, live: seq<Live>)
  {
    live == [] ||
    (Served(cfg, live[0]) && Disjoint(Blocks(live[1..]), live[0].b) && LiveOk(cfg, live[1..]))
  }

  predicate NodesOk(cfg: Config, fl: seq<Block>)
  {
    forall i :: 0 <= i < |fl| ==> cfg.node <= fl[i].size && fl[i].End() < cfg.limit
  }

  /** Every added byte is free or in exactly one live block. */
  ghost predicate Partition(s: State)
  {
    forall x ::
      && (Covers(s.added, x) <==> Covers(s.free, x) || Covers(Blocks(s.live), x))
      && !(Covers(s.free, x) && Covers(Blocks(s.live), x))
  }

  ghost predicate Good(cfg: Config, s: State)
  {
    && Canonical(s.free) && NodesOk(cfg, s.free) && LiveOk(cfg, s.live)
    && Positive(s.added) && Partition(s)
    && Total(s.free) + Total(Blocks(s.live)) == Total(s.added)
  }

  lemma {:induction false} LiveAt(cfg: Config, live: seq<Live>, i: nat)
    requires LiveOk(cfg, live) && i < |live|
    ensures Served(cfg, live[i])
  {
    if i > 0 {
      LiveAt(cfg, live[1..], i - 1);
    }
  }

  lemma {:induction false} LivePositive(cfg: Config, live: seq<Live>)
    requires cfg.Ok() && LiveOk(cfg, live)
    ensures Positive(Blocks(live))
  {
    if live != [] {
      LivePositive(cfg, live[1..]);
    }
  }

  /** Taking a block out of use gives up exactly its bytes. */
  lemma {:induction false} WithoutCovers(cfg: Config, live: seq<Live>, i: nat, x: int)
    requires cfg.Ok() && LiveOk(cfg, live) && i < |live|
    ensures Covers(Blocks(live), x) <==> Covers(Blocks(Without(live, i)), x) || live[i].b.Has(x)
    ensures live[i].b.Has(x) ==> !Covers(Blocks(Without(live, i)), x)
    ensures Total(Blocks(live)) == Total(Blocks(Without(live, i))) + live[i].b.size
    decreases i
  {
    var l, rest := live[0], live[1..];
    FirstAlone(cfg, live, x);
    CoversCons(l.b, Blocks(rest), x);
    if i > 0 {
      WithoutCovers(cfg, rest, i - 1, x);
      BlocksCons(l, Without(rest, i - 1));
      CoversCons(l.b, Blocks(Without(rest, i - 1)), x);
    }
  }

  lemma CoversCons(b: Block, fl: seq<Block>, x: int)
    ensures Covers([b] + fl, x) <==> b.Has(x) || Covers(fl, x)
    ensures Total([b] + fl) == b.size + Total(fl)
  {
    assert ([b] + fl)[1..] == fl;
  }

  lemma BlocksCons(l: Live, live: seq<Live>)
    ensures Blocks([l] + live) == [l.b] + Blocks(live)
  {
    assert ([l] + live)[1..] == live;
  }

  lemma FirstAlone(cfg: Config, live: seq<Live>, x: int)
    requires cfg.Ok() && LiveOk(cfg, live) && live != []
    ensures live[0].b.Has(x) ==> !Covers(Blocks(live[1..]), x)
  {
    LivePositive(cfg, live[1..]);
    DisjointCovers(Blocks(live[1..]), live[0].b);
  }

  lemma DisjointCons(a: Block, fl: seq<Block>, b: Block)
    ensures Disjoint([a] + fl, b) <==> a.Apart(b) && Disjoint(fl, b)
  {
    assert ([a] + fl)[0] == a && forall i :: 0 <= i < |fl| ==> ([a] + fl)[i + 1] == fl[i];
    if Disjoint([a] + fl, b) {
      forall i | 0 <= i < |fl|
        ensures fl[i].Apart(b)
      {
        assert ([a] + fl)[i + 1].Apart(b);
      }
    }
  }

  lemma {:induction false} WithoutApart(live: seq<Live>, i: nat, b: Block)
    requires i < |live| && Disjoint(Blocks(live), b)
    ensures Disjoint(Blocks(Without(live, i)), b)
    decreases i
  {
    var rest := live[1..];
    DisjointCons(live[0].b, Blocks(rest), b);
    if i > 0 {
      WithoutApart(rest, i - 1, b);
      BlocksCons(live[0], Without(rest, i - 1));
      DisjointCons(live[0].b, Blocks(Without(rest, i - 1)), b);
    }
  }

  lemma {:induction false} WithoutOk(cfg: Config, live: seq<Live>, i: nat)
    requires cfg.Ok() && LiveOk(cfg, live) && i < |live|
    ensures LiveOk(cfg, Without(live, i))
    decreases i
  {
    if i > 0 {
      WithoutOk(cfg, live[1..], i - 1);
      WithoutApart(live[1..], i - 1, live[0].b);
      assert Without(live, i)[1..] == Without(live[1..], i - 1);
    }
  }

  lemma {:induction false} InsertNodesOk(cfg: Config, fl: seq<Block>, b: Block)
    requires cfg.Ok() && NodesOk(cfg, fl) && cfg.node <= b.size && b.End() < cfg.limit && Insert(fl, b).Some?
    ensures NodesOk(cfg, Insert(fl, b).value)
    decreases |fl|
  {
    if fl != [] && fl[0].End() != b.addr && fl[0].End() <= b.addr && fl[0].addr <= b.addr {
      InsertNodesOk(cfg, fl[1..], b);
    }
  }

  lemma {:induction false} RemoveNodesOk(cfg: Config, fl: seq<Block>, k: nat, need: int)
    requires cfg.Ok() && NodesOk(cfg, fl) && k < |fl| && 0 < need
    ensures NodesOk(cfg, Remove(cfg, fl, k, need))
    decreases k
  {
    if k > 0 {
      RemoveNodesOk(cfg, fl[1..], k - 1, need);
    }
  }

  /** A region apart from all earlier ones is apart from the free bytes. */
  lemma NewRegion(cfg: Config, s: State, r: Block)
    requires cfg.Ok() && Good(cfg, s) && 0 < r.addr && 0 < r.size && Disjoint(s.added, r)
    ensures Disjoint(s.free, r) && Insert(s.free, r).Some? && Canonical(Insert(s.free, r).value)
  {
    CanonicalGaps(s.free);
    DisjointCovers(s.added, r);
    DisjointCovers(s.free, r);
    InsertCanonical(s.free, r);
  }

  lemma AddGood(cfg: Config, s: State, r: Block)
    requires cfg.Ok() && Good(cfg, s) && Step(cfg, s, Add(r)).Some?
    ensures Good(cfg, Step(cfg, s, Add(r)).value)
    ensures Disjoint(s.free, r)
  {
    var t := Step(cfg, s, Add(r)).value;
    NewRegion(cfg, s, r);
    DisjointCovers(s.added, r);
    InsertNodesOk(cfg, s.free, r);
    InsertCovers(s.free, r, 0);
    assert t.added[1..] == s.added;
    forall x
      ensures (Covers(t.added, x) <==> Covers(t.free, x) || Covers(Blocks(t.live), x)) && !(Covers(t.free, x) && Covers(Blocks(t.live), x))
    {
      InsertCovers(s.free, r, x);
      assert Covers(s.added, x) <==> Covers(s.free, x) || Covers(Blocks(s.live), x);
    }
  }

  /** The sum of the size and a header wraps exactly when it reaches the number of
      values of size_t, and then less is looked for than was asked. */
  lemma NeedWraps(cfg: Config, size: int)
    requires cfg.Ok() && 0 <= size < cfg.limit
    ensures size + cfg.overhead <= Need(cfg, size) <==> size + cfg.overhead < cfg.limit
    ensures size + cfg.overhead >= cfg.limit ==> Need(cfg, size) == cfg.node
    ensures Need(cfg, size) == Due(cfg, size)
  {
  }

  /** On a 16-bit target a request of 65535 bytes is granted 2. */
  lemma WrappedRequest()
    ensures var cfg := Config(2, 4, 65536);
            var t := Run(cfg, START, [Add(Block(1, 16)), Malloc(65535, FirstFit)]);
            && cfg.Ok() && t.Some? && |t.value.live| == 1
            && t.value.live[0] == Live(Block(1, 4), 65535)
            && !(65535 <= t.value.live[0].b.size - cfg.overhead)
  {
    var cfg := Config(2, 4, 65536);
    var ops := [Add(Block(1, 16)), Malloc(65535, FirstFit)];
    var s := State([Block(1, 16)], [], [Block(1, 16)]);
    assert Insert([], Block(1, 16)) == Some(s.free) && [Block(1, 16)] + [] == s.added;
    assert Step(cfg, START, ops[0]) == Some(s);
    assert Scan(s.free, 0, 4, FirstFit, None) == Some(0);
    var t := Step(cfg, s, ops[1]).value;
    assert ops[1..][0] == ops[1] && ops[1..][1..] == [];
    assert Run(cfg, t, []) == Some(t);
    assert Run(cfg, s, ops[1..]) == Some(t);
  }

  /** A node of 8 bytes serves two requests of 2 bytes: what is left of the first is not
      handed out with it. */
  lemma TwoFromOne()
    ensures var cfg := Config(2, 4, 65536);
            var t := Run(cfg, START, [Add(Block(1, 8)), Malloc(2, FirstFit), Malloc(2, FirstFit)]);
            && cfg.Ok() && t.Some?
            && t.value.live == [Live(Block(5, 4), 2), Live(Block(1, 4), 2)] && t.value.free == []
  {
    var cfg := Config(2, 4, 65536);
    var ops := [Add(Block(1, 8)), Malloc(2, FirstFit), Malloc(2, FirstFit)];
    var s := State([Block(1, 8)], [], [Block(1, 8)]);
    assert Insert([], Block(1, 8)) == Some(s.free) && [Block(1, 8)] + [] == s.added;
    assert Step(cfg, START, ops[0]) == Some(s);
    var t := State([Block(5, 4)], [Live(Block(1, 4), 2)], s.added);
    assert Scan(s.free, 0, 4, FirstFit, None) == Some(0);
    assert Remove(cfg, s.free, 0, 4) == t.free && [Live(Block(1, 4), 2)] + [] == t.live;
    assert Step(cfg, s, ops[1]) == Some(t);
    var v := State([], [Live(Block(5, 4), 2), Live(Block(1, 4), 2)], s.added);
    assert Scan(t.free, 0, 4, FirstFit, None) == Some(0);
    assert Remove(cfg, t.free, 0, 4) == [] && [Live(Block(5, 4), 2)] + t.live == v.live;
    assert Step(cfg, t, ops[2]) == Some(v);
    assert ops[1..][0] == ops[1] && ops[1..][1..][0] == ops[2] && ops[1..][1..][1..] == [];
    assert Run(cfg, v, []) == Some(v) && Run(cfg, t, ops[1..][1..]) == Some(v) && Run(cfg, s, ops[1..]) == Some(v);
  }

  lemma GotServed(cfg: Config, fl: seq<Block>, k: nat, need: int, size: int)
    requires cfg.Ok() && Canonical(fl) && NodesOk(cfg, fl) && k < |fl| && 0 <= size < cfg.limit
    requires need == Need(cfg, size) <= fl[k].size
    ensures Served(cfg, Live(Got(cfg, fl, k, need), size))
  {
    CanonicalGaps(fl);
    GotBounds(cfg, fl, k, need);
  }

  lemma MallocGood(cfg: Config, s: State, size: int, p: Policy)
    requires cfg.Ok() && Good(cfg, s) && 0 <= size < cfg.limit
    ensures Good(cfg, Step(cfg, s, Malloc(size, p)).value)
  {
    var need := Need(cfg, size);
    var k := Select(s.free, need, p);
    NeedWraps(cfg, size);
    if k.Some? {
      TakeGood(cfg, s, k.value, need, size);
    }
  }

  lemma TakeGood(cfg: Config, s: State, k: nat, need: int, size: int)
    requires cfg.Ok() && Good(cfg, s) && k < |s.free| && 0 <= size < cfg.limit
    requires need == Need(cfg, size) <= s.free[k].size
    ensures Good(cfg, State(Remove(cfg, s.free, k, need), [Live(Got(cfg, s.free, k, need), size)] + s.live, s.added))
  {
    var got := Got(cfg, s.free, k, need);
    var t := State(Remove(cfg, s.free, k, need), [Live(got, size)] + s.live, s.added);
    RemoveCanonical(cfg, s.free, k, need);
    RemoveNodesOk(cfg, s.free, k, need);
    RemoveCovers(cfg, s.free, k, need, 0);
    GotServed(cfg, s.free, k, need, size);
    assert t.live[1..] == s.live && Blocks(t.live)[1..] == Blocks(s.live);
    forall x
      ensures (Covers(t.added, x) <==> Covers(t.free, x) || Covers(Blocks(t.live), x)) && !(Covers(t.free, x) && Covers(Blocks(t.live), x))
    {
      RemoveCovers(cfg, s.free, k, need, x);
      GotFree(s.free, k, cfg, need, x);
      assert Covers(s.added, x) <==> Covers(s.free, x) || Covers(Blocks(s.live), x);
    }
    GotApart(cfg, s, k, need);
  }

  lemma GotApart(cfg: Config, s: State, k: nat, need: int)
    requires cfg.Ok() && Good(cfg, s) && k < |s.free| && cfg.node <= need <= s.free[k].size
    ensures Disjoint(Blocks(s.live), Got(cfg, s.free, k, need))
  {
    LivePositive(cfg, s.live);
    forall x | Got(cfg, s.free, k, need).Has(x)
      ensures !Covers(Blocks(s.live), x)
    {
      GotFree(s.free, k, cfg, need, x);
      assert Covers(s.added, x) <==> Covers(s.free, x) || Covers(Blocks(s.live), x);
    }
    DisjointCovers(Blocks(s.live), Got(cfg, s.free, k, need));
  }

  lemma GotFree(fl: seq<Block>, k: nat, cfg: Config, need: int, x: int)
    requires k < |fl| && need <= fl[k].size
    ensures Got(cfg, fl, k, need).Has(x) ==> Covers(fl, x)
  {
    CoversAt(fl, x);
    assert Got(cfg, fl, k, need).Has(x) ==> fl[k].Has(x);
  }

  /** Freeing a live block succeeds. */
  lemma LiveDisjoint(cfg: Config, s: State, i: nat)
    requires cfg.Ok() && Good(cfg, s) && i < |s.live|
    ensures Disjoint(s.free, s.live[i].b) && Insert(s.free, s.live[i].b).Some?
    ensures Served(cfg, s.live[i])
  {
    var b := s.live[i].b;
    LiveAt(cfg, s.live, i);
    CanonicalGaps(s.free);
    forall x | b.Has(x)
      ensures !Covers(s.free, x)
    {
      WithoutCovers(cfg, s.live, i, x);
    }
    DisjointCovers(s.free, b);
    InsertCanonical(s.free, b);
  }

  lemma ReleaseGood(cfg: Config, s: State, i: nat)
    requires cfg.Ok() && Good(cfg, s) && i < |s.live| && Insert(s.free, s.live[i].b).Some?
    ensures Good(cfg, State(Insert(s.free, s.live[i].b).value, Without(s.live, i), s.added))
  {
    var b := s.live[i].b;
    var t := State(Insert(s.free, b).value, Without(s.live, i), s.added);
    LiveDisjoint(cfg, s, i);
    InsertCanonical(s.free, b);
    InsertNodesOk(cfg, s.free, b);
    WithoutOk(cfg, s.live, i);
    InsertCovers(s.free, b, 0);
    WithoutCovers(cfg, s.live, i, 0);
    forall x
      ensures (Covers(t.added, x) <==> Covers(t.free, x) || Covers(Blocks(t.live), x)) && !(Covers(t.free, x) && Covers(Blocks(t.live), x))
    {
      InsertCovers(s.free, b, x);
      WithoutCovers(cfg, s.live, i, x);
      assert Covers(s.added, x) <==> Covers(s.free, x) || Covers(Blocks(s.live), x);
    }
  }

  lemma StepGood(cfg: Config, s: State, op: Op)
    requires cfg.Ok() && Good(cfg, s) && Step(cfg, s, op).Some?
    ensures Good(cfg, Step(cfg, s, op).value)
  {
    match op
    case Add(r) => AddGood(cfg, s, r);
    case Malloc(size, p) => MallocGood(cfg, s, size, p);
    case Release(ptr) =>
      if ptr != 0 && Find(s.live, ptr - cfg.overhead).Some? {
        ReleaseGood(cfg, s, Find(s.live, ptr - cfg.overhead).value);
      }
  }

  /** After any run the free list is canonical, free and live blocks partition the
      added bytes, the byte counts add up, and every payload is as promised. */
  lemma {:induction false} RunGood(cfg: Config, s: State, ops: seq<Op>)
    requires cfg.Ok() && Good(cfg, s) && Run(cfg, s, ops).Some?
    ensures Good(cfg, Run(cfg, s, ops).value)
    decreases |ops|
  {
    if ops != [] {
      StepGood(cfg, s, ops[0]);
      RunGood(cfg, Step(cfg, s, ops[0]).value, ops[1..]);
    }
  }

  /** After every run the state is good, and no block in use is short of its request and a
      header, unless their sum wraps, or holds a node more than that. */
  lemma EveryRun(cfg: Config, ops: seq<Op>)
    requires cfg.Ok() && Run(cfg, START, ops).Some?
    ensures Good(cfg, Run(cfg, START, ops).value)
    ensures forall l :: l in Run(cfg, START, ops).value.live ==>
      && cfg.node <= l.b.size
      && (l.asked + cfg.overhead < cfg.limit <==> l.asked + cfg.overhead <= l.b.size)
      && l.b.size - cfg.node < if cfg.node <= l.asked + cfg.overhead < cfg.limit then l.asked + cfg.overhead else cfg.node
  {
    RunGood(cfg, START, ops);
    var s := Run(cfg, START, ops).value;
    forall i | 0 <= i < |s.live|
      ensures Served(cfg, s.live[i])
    {
      LiveAt(cfg, s.live, i);
    }
  }

  /** The free list of a run is the one decomposition into maximal runs of the bytes
      that were added and are not in use: the order of the operations left no trace. */
  lemma FreeListDetermined(cfg: Config, s: State, t: State)
    requires cfg.Ok() && Good(cfg, s) && Good(cfg, t)
    requires forall x :: Covers(s.added, x) <==> Covers(t.added, x)
    requires forall x :: Covers(Blocks(s.live), x) <==> Covers(Blocks(t.live), x)
    ensures s.free == t.free
  {
    forall x
      ensures Covers(s.free, x) <==> Covers(t.free, x)
    {
      assert Covers(s.added, x) <==> Covers(s.free, x) || Covers(Blocks(s.live), x);
      assert Covers(t.added, x) <==> Covers(t.free, x) || Covers(Blocks(t.live), x);
    }
    CanonicalUnique(s.free, t.free);
  }

  /** Two runs from one state that add and leave in use the same blocks end alike. */
  lemma RunsMeet(cfg: Config, s: State, p: seq<Op>, q: seq<Op>, t: State, u: State)
    requires cfg.Ok() && Good(cfg, s) && Run(cfg, s, p) == Some(t) && Run(cfg, s, q) == Some(u)
    requires t.added == u.added && t.live == u.live
    ensures t == u
  {
    RunGood(cfg, s, p);
    RunGood(cfg, s, q);
    FreeListDetermined(cfg, t, u);
  }

  // ----- round trips

  /** Freeing the pointer that malloc just returned undoes the allocation. */
  lemma MallocRelease(cfg: Config, s: State, size: int, p: Policy)
    requires cfg.Ok() && Good(cfg, s) && 0 <= size < cfg.limit
    requires Select(s.free, Need(cfg, size), p).Some?
    ensures var t := Step(cfg, s, Malloc(size, p)).value;
            t.live != [] && Step(cfg, t, Release(t.live[0].b.addr + cfg.overhead)) == Some(s)
  {
    var need := Need(cfg, size);
    var k := Select(s.free, need, p).value;
    var t := Step(cfg, s, Malloc(size, p)).value;
    CanonicalGaps(s.free);
    AllocFree(cfg, s.free, k, need);
    assert t.live[1..] == s.live;
  }

  /** Which steps there are in a state of a run: a region is accepted if and only if
      it is new, and a pointer if and only if it is NULL, live, or inside free memory. */
  lemma Accepted(cfg: Config, s: State, op: Op)
    requires cfg.Ok() && Good(cfg, s)
    ensures Step(cfg, s, op).Some? <==>
            match op
            case Add(r) => 0 < r.addr && cfg.node <= r.size && r.End() < cfg.limit && Disjoint(s.added, r)
            case Malloc(size, p) => 0 <= size < cfg.limit
            case Release(ptr) => ptr == 0 || Find(s.live, ptr - cfg.overhead).Some? || Covers(s.free, ptr - cfg.overhead)
  {
    match op
    case Add(r) =>
      if 0 < r.addr && cfg.node <= r.size && Disjoint(s.added, r) {
        NewRegion(cfg, s, r);
      }
    case Malloc(size, p) =>
    case Release(ptr) =>
      if Find(s.live, ptr - cfg.overhead).Some? {
        LiveDisjoint(cfg, s, Find(s.live, ptr - cfg.overhead).value);
      }
  }

  lemma {:induction false} WithoutLess(live: seq<Live>, i: nat)
    requires i < |live|
    ensures |Without(live, i)| == |live| - 1
    ensures forall k :: i < k < |live| ==> Without(live, i)[k - 1] == live[k]
    ensures forall k :: 0 <= k < i ==> Without(live, i)[k] == live[k]
    decreases i
  {
    if i > 0 {
      WithoutLess(live[1..], i - 1);
      forall k | i < k < |live|
        ensures Without(live, i)[k - 1] == live[k]
      {
        assert Without(live[1..], i - 1)[k - 2] == live[1..][k - 1];
      }
    }
  }

  /** Taking away two blocks, in either order. */
  lemma {:induction false} WithoutTwice(live: seq<Live>, i: nat, j: nat)
    requires i < j < |live|
    requires |Without(live, i)| == |Without(live, j)| == |live| - 1
    ensures Without(Without(live, i), j - 1) == Without(Without(live, j), i)
    decreases i
  {
    var l, r := Without(live, i), Without(live, j);
    assert r[1..] == Without(live[1..], j - 1);
    if i > 0 {
      assert l[1..] == Without(live[1..], i - 1);
      WithoutTwice(live[1..], i - 1, j - 1);
    }
  }

  /** No two live blocks share a header. */
  lemma {:induction false} FindOnly(cfg: Config, live: seq<Live>, i: nat)
    requires cfg.Ok() && LiveOk(cfg, live) && i < |live|
    ensures Find(live, live[i].b.addr) == Some(i)
    decreases i
  {
    if i > 0 {
      FindOnly(cfg, live[1..], i - 1);
      LiveApart(cfg, live, 0, i);
    }
  }

  lemma {:induction false} BlockAt(live: seq<Live>, i: nat)
    requires i < |live|
    ensures |Blocks(live)| == |live| && Blocks(live)[i] == live[i].b
    decreases |live|
  {
    if i > 0 {
      BlockAt(live[1..], i - 1);
    } else if |live| > 1 {
      BlockAt(live[1..], 0);
    }
  }

  /** Blocks in use do not overlap. */
  lemma {:induction false} LiveApart(cfg: Config, live: seq<Live>, i: nat, j: nat)
    requires cfg.Ok() && LiveOk(cfg, live) && i < j < |live|
    ensures live[i].b.Apart(live[j].b) && 0 < live[i].b.size && 0 < live[j].b.size
    decreases i
  {
    LiveAt(cfg, live, i);
    LiveAt(cfg, live, j);
    if i > 0 {
      LiveApart(cfg, live[1..], i - 1, j - 1);
    } else {
      BlockAt(live[1..], j - 1);
      assert Blocks(live[1..])[j - 1].Apart(live[0].b);
    }
  }

  /** Freeing an address inside free memory is refused and changes nothing. */
  lemma RefusedInside(cfg: Config, s: State, a: int)
    requires cfg.Ok() && Good(cfg, s) && Covers(s.free, a)
    ensures Step(cfg, s, Release(a + cfg.overhead)) == Some(s)
  {
    OutOfFree(cfg, s);
  }

  lemma ReleaseLive(cfg: Config, s: State, a: int)
    requires cfg.Ok() && Good(cfg, s) && Find(s.live, a).Some?
    ensures var b := s.live[Find(s.live, a).value].b;
            && Insert(s.free, b).Some? && a + cfg.overhead != 0
            && Step(cfg, s, Release(a + cfg.overhead))
               == Some(State(Insert(s.free, b).value, Without(s.live, Find(s.live, a).value), s.added))
            && Covers(Insert(s.free, b).value, a)
  {
    var i := Find(s.live, a).value;
    LiveDisjoint(cfg, s, i);
    InsertCovers(s.free, s.live[i].b, a);
  }

  /** Freeing live block `i` is a step. */
  lemma ReleaseStep(cfg: Config, s: State, i: nat, b: Block) returns (t: State)
    requires cfg.Ok() && Good(cfg, s) && i < |s.live| && s.live[i].b == b
    ensures Step(cfg, s, Release(b.addr + cfg.overhead)) == Some(t)
    ensures Good(cfg, t) && t.live == Without(s.live, i) && t.added == s.added && Covers(t.free, b.addr)
  {
    FindOnly(cfg, s.live, i);
    hide Step, Good, Insert, Covers;
    ReleaseLive(cfg, s, b.addr);
    t := Step(cfg, s, Release(b.addr + cfg.overhead)).value;
    StepGood(cfg, s, Release(b.addr + cfg.overhead));
  }

  /** A block freed a second time is refused, and the heap stays as it is. */
  lemma DoubleRelease(cfg: Config, s: State, i: nat)
    requires cfg.Ok() && Good(cfg, s) && i < |s.live|
    ensures var ptr := s.live[i].b.addr + cfg.overhead;
            var t := Step(cfg, s, Release(ptr));
            t.Some? && Step(cfg, t.value, Release(ptr)) == t
  {
    hide Good, Step;
    var t := ReleaseStep(cfg, s, i, s.live[i].b);
    RefusedInside(cfg, t, s.live[i].b.addr);
  }

  /** What is left in use without blocks `i` and `j`. */
  function WithoutBoth(live: seq<Live>, i: nat, j: nat): seq<Live>
    requires i < |live| && j < |live| && i != j
  {
    WithoutLess(live, i);
    WithoutLess(live, j);
    if i < j then Without(Without(live, j), i) else Without(Without(live, i), j)
  }

  /** Where block `j` is once block `i` is gone. */
  lemma NextRelease(live: seq<Live>, i: nat, j: nat) returns (k: nat)
    requires i < |live| && j < |live| && i != j
    ensures k < |Without(live, i)| && Without(live, i)[k] == live[j]
    ensures Without(Without(live, i), k) == WithoutBoth(live, i, j)
  {
    WithoutLess(live, i);
    WithoutLess(live, j);
    k := j;
    if i < j {
      k := j - 1;
      WithoutTwice(live, i, j);
    }
  }

  lemma ReleaseTwo(cfg: Config, s: State, i: nat, j: nat, a: Block, b: Block, ops: seq<Op>) returns (v: State)
    requires cfg.Ok() && Good(cfg, s) && i < |s.live| && j < |s.live| && i != j
    requires s.live[i].b == a && s.live[j].b == b
    requires ops == [Release(a.addr + cfg.overhead), Release(b.addr + cfg.overhead)]
    ensures Run(cfg, s, ops) == Some(v)
    ensures v.live == WithoutBoth(s.live, i, j) && v.added == s.added
  {
    hide Good, Step, Run, WithoutBoth;
    var t := ReleaseStep(cfg, s, i, a);
    var k := NextRelease(s.live, i, j);
    v := ReleaseStep(cfg, t, k, b);
    RunTwo(cfg, s, Release(a.addr + cfg.overhead), Release(b.addr + cfg.overhead), ops, t, v);
  }

  lemma RunTwo(cfg: Config, s: State, a: Op, b: Op, ops: seq<Op>, t: State, v: State)
    requires cfg.Ok() && ops == [a, b] && Step(cfg, s, a) == Some(t) && Step(cfg, t, b) == Some(v)
    ensures Run(cfg, s, ops) == Some(v)
  {
    assert ops[1..] == [b] && [b][1..] == [];
    assert Run(cfg, v, []) == Some(v);
    assert Run(cfg, t, [b]) == Some(v);
  }

  /** Two blocks in use can be freed in either order: both runs end in one state. */
  lemma ReleasesCommute(cfg: Config, s: State, i: nat, j: nat)
    requires cfg.Ok() && Good(cfg, s) && i < |s.live| && j < |s.live| && i != j
    ensures var first, second := Release(s.live[i].b.addr + cfg.overhead), Release(s.live[j].b.addr + cfg.overhead);
            Run(cfg, s, [first, second]).Some? && Run(cfg, s, [first, second]) == Run(cfg, s, [second, first])
  {
    hide Good, Step, Run;
    var a, b := s.live[i].b, s.live[j].b;
    var p := [Release(a.addr + cfg.overhead), Release(b.addr + cfg.overhead)];
    var q := [Release(b.addr + cfg.overhead), Release(a.addr + cfg.overhead)];
    var t := ReleaseTwo(cfg, s, i, j, a, b, p);
    var u := ReleaseTwo(cfg, s, j, i, b, a, q);
    RunsMeet(cfg, s, p, q, t, u);
  }

  /** Headers of blocks in use are not free bytes. */
  lemma OutOfFree(cfg: Config, s: State)
    requires cfg.Ok() && Good(cfg, s)
    ensures forall i :: 0 <= i < |s.live| ==> !Covers(s.free, s.live[i].b.addr)
  {
    forall i | 0 <= i < |s.live|
      ensures !Covers(s.free, s.live[i].b.addr)
    {
      LiveAt(cfg, s.live, i);
      WithoutCovers(cfg, s.live, i, s.live[i].b.addr);
    }
  }

  // ----- the program

  /** The heap in memory shows `s`: its list is the free list, and the header of
      every block in use still records the block's size. */
  ghost predicate Represents(h: FreeList, s: State)
    reads h
  {
    h.Valid() && h.nodes == s.free && forall i :: 0 <= i < |s.live| ==> h.Holds(s.live[i].b)
  }

  /** Headers that survive an operation still show the blocks in use. */
  lemma StillHeld(live: seq<Live>, live': seq<Live>, fl: seq<Block>, m: Memory, m': Memory)
    requires Kept(fl, m, m')
    requires forall i :: 0 <= i < |live'| ==> live'[i] in live && !Covers(fl, live'[i].b.addr)
    requires forall i :: 0 <= i < |live| ==> live[i].b.addr in m.size && m.size[live[i].b.addr] == live[i].b.size
    ensures forall i :: 0 <= i < |live'| ==> live'[i].b.addr in m'.size && m'.size[live'[i].b.addr] == live'[i].b.size
  {
  }

  /** mm_heap_add_block, malloc and free in memory are the steps of a run. */
  method PerformAdd(h: FreeList, r: Block, ghost s: State)
    requires Represents(h, s) && Good(h.cfg, s) && Step(h.cfg, s, Add(r)).Some?
    modifies h
    ensures Represents(h, Step(h.cfg, s, Add(r)).value)
  {
    ghost var t, m := Step(h.cfg, s, Add(r)).value, h.Mem();
    AddGood(h.cfg, s, r);
    OutOfFree(h.cfg, t);
    h.AddBlock(r.addr, r.size);
    StillHeld(s.live, t.live, t.free, m, h.Mem());
  }

  method PerformMalloc(h: FreeList, size: int, p: Policy, ghost s: State) returns (ptr: int)
    requires Represents(h, s) && Good(h.cfg, s) && 0 <= size < h.cfg.limit
    modifies h
    ensures var t := Step(h.cfg, s, Malloc(size, p)).value;
            && Represents(h, t)
            && (if ptr == 0 then t == s else t.live != [] && ptr == t.live[0].b.addr + h.cfg.overhead)
            && (ptr == 0 <==> NoneFits(s.free, |s.free|, Need(h.cfg, size)))
  {
    ghost var t, m := Step(h.cfg, s, Malloc(size, p)).value, h.Mem();
    OutOfFree(h.cfg, s);
    SelectChooses(s.free, Need(h.cfg, size), p);
    CanonicalGaps(s.free);
    ptr := h.Alloc(size, p);
    StillHeld(s.live, s.live, s.free, m, h.Mem());
  }

  method PerformRelease(h: FreeList, ptr: int, ghost s: State) returns (err: Error)
    requires Represents(h, s) && Good(h.cfg, s) && Step(h.cfg, s, Release(ptr)).Some?
    modifies h
    ensures Represents(h, Step(h.cfg, s, Release(ptr)).value)
    ensures err == EINVAL <==> ptr == 0 || Covers(s.free, ptr - h.cfg.overhead)
  {
    ghost var t, m := Step(h.cfg, s, Release(ptr)).value, h.Mem();
    ReleaseFacts(h.cfg, s, ptr);
    ReleaseLeaves(h.cfg, s, ptr);
    err := h.Free(ptr);
    StillHeld(s.live, t.live, t.free, m, h.Mem());
  }

  /** What free needs to know about its argument. */
  lemma ReleaseFacts(cfg: Config, s: State, ptr: int)
    requires cfg.Ok() && Good(cfg, s) && Step(cfg, s, Release(ptr)).Some?
    ensures var t, i, a := Step(cfg, s, Release(ptr)).value, Find(s.live, ptr - cfg.overhead), ptr - cfg.overhead;
            if ptr == 0 || Covers(s.free, a) then t == s
            else i.Some? && var b := s.live[i.value].b;
                 0 < b.addr == a && 0 < b.size && Disjoint(s.free, b) && Insert(s.free, b) == Some(t.free)
  {
    OutOfFree(cfg, s);
    var i := Find(s.live, ptr - cfg.overhead);
    if ptr != 0 && i.Some? {
      LiveDisjoint(cfg, s, i.value);
    }
  }

  /** What free leaves in use was in use, and is no free memory. */
  lemma ReleaseLeaves(cfg: Config, s: State, ptr: int)
    requires cfg.Ok() && Good(cfg, s) && Step(cfg, s, Release(ptr)).Some?
    ensures var t := Step(cfg, s, Release(ptr)).value;
            forall j :: 0 <= j < |t.live| ==> t.live[j] in s.live && !Covers(t.free, t.live[j].b.addr)
  {
    StepGood(cfg, s, Release(ptr));
    OutOfFree(cfg, Step(cfg, s, Release(ptr)).value);
    var i := Find(s.live, ptr - cfg.overhead);
    if ptr != 0 && i.Some? {
      WithoutKept(s.live, i.value);
    }
  }

  lemma {:induction false} WithoutKept(live: seq<Live>, i: nat)
    requires i < |live|
    ensures forall l :: l in Without(live, i) ==> l in live
    decreases i
  {
    if i > 0 {
      WithoutKept(live[1..], i - 1);
    }
  }
}
