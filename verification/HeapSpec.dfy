/** Address-ordered free lists as values: what allocating and freeing make of the
    list, and that the list is determined by the bytes it holds. */
module HeapSpec {
  import opened Wrappers

  datatype Block = Block(addr: int, size: int)
  {
    function End(): int { addr + size }
    predicate Has(x: int) { addr <= x < addr + size }
    predicate Apart(b: Block) { End() <= b.addr || b.End() <= addr }
  }

  /** Sizes of the target: the bytes of a header that stay in front of a live
      payload (HEAP_OVERHEAD), the bytes of a whole free node (HEAP_MIN without
      guards), and the number of values of size_t. */
  datatype Config = Config(overhead: int, node: int, limit: int)
  {
    predicate Ok() { 0 < overhead < node < limit }
  }

  // ----- bytes

  /** Byte `x` belongs to one of the blocks. */
  predicate Covers(fl: seq<Block>, x: int)
  {
    fl != [] && (fl[0].Has(x) || Covers(fl[1..], x))
  }

  predicate Above(fl: seq<Block>, bound: int)
  {
    forall i :: 0 <= i < |fl| ==> bound < fl[i].addr
  }

  /** Sorted by address, with at least one byte that is not free between nodes. */
  predicate Canonical(fl: seq<Block>)
  {
    fl == [] ||
    (0 < fl[0].addr && 0 < fl[0].size && Above(fl[1..], fl[0].End()) && Canonical(fl[1..]))
  }

  /** The same, node by node. */
  predicate Gaps(fl: seq<Block>)
  {
    && (forall i :: 0 <= i < |fl| ==> 0 < fl[i].addr && 0 < fl[i].size)
    && (forall i, j :: 0 <= i < j < |fl| ==> fl[i].End() < fl[j].addr)
  }

  lemma {:induction false} CanonicalGaps(fl: seq<Block>)
    ensures Canonical(fl) <==> Gaps(fl)
  {
    if fl != [] {
      CanonicalGaps(fl[1..]);
      assert forall i :: 1 <= i < |fl| ==> fl[i] == fl[1..][i - 1];
      if Gaps(fl) {
        forall i | 0 <= i < |fl| - 1
          ensures fl[0].End() < fl[1..][i].addr
        {
          assert fl[1..][i] == fl[i + 1];
        }
      }
    }
  }

  predicate Positive(fl: seq<Block>)
  {
    forall i :: 0 <= i < |fl| ==> 0 < fl[i].size
  }

  predicate Disjoint(fl: seq<Block>, b: Block)
  {
    forall i :: 0 <= i < |fl| ==> fl[i].Apart(b)
  }

  lemma {:induction false} CoversAt(fl: seq<Block>, x: int)
    ensures Covers(fl, x) <==> exists i :: 0 <= i < |fl| && fl[i].Has(x)
  {
    if fl != [] {
      CoversAt(fl[1..], x);
      assert forall i :: 0 <= i < |fl| - 1 ==> fl[1..][i] == fl[i + 1];
      if Covers(fl[1..], x) {
        var i :| 0 <= i < |fl| - 1 && fl[1..][i].Has(x);
        assert fl[i + 1].Has(x);
      }
      if i :| 0 <= i < |fl| && fl[i].Has(x) {
        assert i > 0 ==> fl[1..][i - 1].Has(x);
      }
    }
  }

  lemma CanonicalSplit(n: Block, fl: seq<Block>)
    ensures Canonical([n] + fl) <==> 0 < n.addr && 0 < n.size && Canonical(fl) && Above(fl, n.End())
  {
    assert ([n] + fl)[1..] == fl;
  }

  lemma {:induction false} CoversAbove(fl: seq<Block>, bound: int, x: int)
    requires Above(fl, bound) && x <= bound
    ensures !Covers(fl, x)
  {
    if fl != [] {
      assert Above(fl[1..], bound);
      CoversAbove(fl[1..], bound, x);
    }
  }

  /** The first byte of a canonical list, and the byte just after its first node. */
  lemma Edges(fl: seq<Block>, x: int)
    requires Canonical(fl) && fl != []
    ensures Covers(fl, fl[0].addr) && !Covers(fl, fl[0].End())
    ensures x < fl[0].addr ==> !Covers(fl, x)
    ensures fl[0].Has(x) ==> !Covers(fl[1..], x)
  {
    CoversAbove(fl[1..], fl[0].End(), fl[0].End());
    if x <= fl[0].End() {
      CoversAbove(fl[1..], fl[0].End(), x);
    }
  }

  /** Two canonical lists of the same bytes are the same list: each is the
      decomposition of its bytes into maximal runs. */
  lemma {:induction false} CanonicalUnique(a: seq<Block>, b: seq<Block>)
    requires Canonical(a) && Canonical(b) && forall x :: Covers(a, x) <==> Covers(b, x)
    ensures a == b
  {
    var x, y := if a == [] then 0 else a[0].addr, if b == [] then 0 else b[0].addr;
    assert (Covers(a, x) <==> Covers(b, x)) && (Covers(a, y) <==> Covers(b, y));
    if a != [] && b != [] {
      Edges(a, b[0].addr);
      Edges(b, a[0].addr);
      assert Covers(a, a[0].addr) && Covers(b, b[0].addr);
      assert a[0].addr == b[0].addr;
      assert !Covers(a, a[0].End()) && !Covers(b, b[0].End());
      assert a[0] == b[0];
      forall x
        ensures Covers(a[1..], x) <==> Covers(b[1..], x)
      {
        Edges(a, x);
        Edges(b, x);
        assert Covers(a, x) <==> Covers(b, x);
      }
      CanonicalUnique(a[1..], b[1..]);
      assert a == [a[0]] + a[1..] && b == [b[0]] + b[1..];
    }
  }

  /** Number of bytes in a list of blocks. */
  function Total(fl: seq<Block>): int
  {
    if fl == [] then 0 else fl[0].size + Total(fl[1..])
  }

  // ----- freeing

  function Cons(n: Block, r: Option<seq<Block>>): Option<seq<Block>>
  {
    match r
    case None => None
    case Some(fl) => Some([n] + fl)
  }

  /** The list after freeing `b`, or nothing where the code returns -EINVAL. */
  function Insert(fl: seq<Block>, b: Block): (r: Option<seq<Block>>)
  {
    if fl == [] then Some([b])
    else
      var n := fl[0];
      if n.End() == b.addr then
        var m := Block(n.addr, n.size + b.size);
        if 1 < |fl| && m.End() == fl[1].addr then Some([Block(m.addr, m.size + fl[1].size)] + fl[2..])
        else Some([m] + fl[1..])
      else if b.addr < n.addr then
        if b.End() == n.addr then Some([Block(b.addr, b.size + n.size)] + fl[1..]) else Some([b] + fl)
      else if b.addr < n.End() then None
      else Cons(n, Insert(fl[1..], b))
  }

  /** Freeing adds exactly the bytes of the block. */
  lemma {:induction false} InsertCovers(fl: seq<Block>, b: Block, x: int)
    requires Canonical(fl) && 0 < b.size && Insert(fl, b).Some?
    ensures Covers(Insert(fl, b).value, x) <==> Covers(fl, x) || b.Has(x)
    ensures Total(Insert(fl, b).value) == Total(fl) + b.size
    decreases |fl|
  {
    if fl != [] {
      var n, rest, out := fl[0], fl[1..], Insert(fl, b).value;
      if n.End() == b.addr {
        assert 1 < |fl| ==> rest[0] == fl[1] && rest[1..] == fl[2..];
        assert out[1..] == rest || out[1..] == fl[2..];
      } else if b.addr < n.addr {
        assert out[1..] == rest || out[1..] == fl;
      } else {
        InsertCovers(rest, b, x);
        assert out[1..] == Insert(rest, b).value;
      }
    }
  }

  lemma {:induction false} InsertAbove(fl: seq<Block>, b: Block, bound: int)
    requires Above(fl, bound) && bound < b.addr && Insert(fl, b).Some?
    ensures Above(Insert(fl, b).value, bound)
    decreases |fl|
  {
    if fl != [] && fl[0].End() != b.addr && fl[0].End() <= b.addr && fl[0].addr <= b.addr {
      InsertAbove(fl[1..], b, bound);
    }
  }

  /** Insert, case by case, on a list split into its first node and the rest. */
  lemma InsertCases(n: Block, rest: seq<Block>, b: Block)
    ensures Insert([n] + rest, b)
         == if n.End() == b.addr then
              (if rest != [] && b.End() == rest[0].addr
               then Some([Block(n.addr, n.size + b.size + rest[0].size)] + rest[1..])
               else Some([Block(n.addr, n.size + b.size)] + rest))
            else if b.addr < n.addr then
              (if b.End() == n.addr then Some([Block(b.addr, b.size + n.size)] + rest) else Some([b] + ([n] + rest)))
            else if b.addr < n.End() then None
            else Cons(n, Insert(rest, b))
  {
    var fl := [n] + rest;
    assert fl[1..] == rest && fl[0] == n;
    if rest != [] {
      assert fl[1] == rest[0] && fl[2..] == rest[1..];
    }
  }

  /** Freeing a block whose bytes are not free keeps the list canonical. */
  lemma {:induction false} InsertCanonical(fl: seq<Block>, b: Block)
    requires Canonical(fl) && 0 < b.addr && 0 < b.size && Disjoint(fl, b)
    ensures Insert(fl, b).Some? && Canonical(Insert(fl, b).value)
    decreases |fl|
  {
    if fl == [] {
      assert Canonical([b]);
    } else {
      var n, rest := fl[0], fl[1..];
      assert n.Apart(b) && 0 < n.addr && 0 < n.size;
      DisjointTail(fl, b);
      InsertCanonical(rest, b);
      InsertCons(n, rest, b);
      assert fl == [n] + rest;
    }
  }

  lemma DisjointTail(fl: seq<Block>, b: Block)
    requires Disjoint(fl, b) && fl != []
    ensures Disjoint(fl[1..], b)
  {
  }

  lemma InsertCons(n: Block, rest: seq<Block>, b: Block)
    requires 0 < n.addr && 0 < n.size && 0 < b.addr && 0 < b.size && n.Apart(b)
    requires Canonical(rest) && Above(rest, n.End()) && Disjoint(rest, b)
    requires Insert(rest, b).Some? && Canonical(Insert(rest, b).value)
    ensures Insert([n] + rest, b).Some? && Canonical(Insert([n] + rest, b).value)
  {
    InsertCases(n, rest, b);
    if n.End() == b.addr {
      MergeAfter(n, rest, b);
    } else if b.addr < n.addr {
      MergeBefore(n, rest, b);
    } else {
      InsertAbove(rest, b, n.End());
      CanonicalSplit(n, Insert(rest, b).value);
    }
  }

  lemma MergeBefore(n: Block, rest: seq<Block>, b: Block)
    requires 0 < b.addr && 0 < n.size && 0 < b.size && b.End() <= n.addr
    requires Canonical(rest) && Above(rest, n.End())
    ensures b.End() == n.addr ==> Canonical([Block(b.addr, b.size + n.size)] + rest)
    ensures b.End() < n.addr ==> Canonical([b] + ([n] + rest))
  {
    CanonicalSplit(Block(b.addr, b.size + n.size), rest);
    CanonicalSplit(n, rest);
    CanonicalSplit(b, [n] + rest);
  }

  lemma MergeAfter(n: Block, rest: seq<Block>, b: Block)
    requires 0 < n.addr && 0 < n.size && 0 < b.size && n.End() == b.addr
    requires Canonical(rest) && Above(rest, n.End()) && Disjoint(rest, b)
    ensures var m := Block(n.addr, n.size + b.size);
            if rest != [] && m.End() == rest[0].addr
            then Canonical([Block(m.addr, m.size + rest[0].size)] + rest[1..])
            else Canonical([m] + rest)
  {
    var m := Block(n.addr, n.size + b.size);
    if rest != [] {
      CanonicalSplit(Block(m.addr, m.size + rest[0].size), rest[1..]);
      assert m.End() != rest[0].addr ==> Above(rest, m.End());
    }
    CanonicalSplit(m, rest);
  }

  /** -EINVAL is returned exactly for an address inside a free node. */
  lemma {:induction false} InsertRejects(fl: seq<Block>, b: Block)
    requires Canonical(fl)
    ensures Insert(fl, b).None? <==> Covers(fl, b.addr)
  {
    if fl != [] {
      Edges(fl, b.addr);
      Edges(fl, fl[0].End());
      InsertRejects(fl[1..], b);
    }
  }

  // ----- choosing a node

  datatype Policy = BestFit | FirstFit | WorstFit
  datatype State = REJECT | ACCEPT | PREFER

  /** The comparators of best-fit.c, first-fit.c and worst-fit.c. */
  function Compare(p: Policy, prev: Option<Block>, current: Block): State
  {
    match p
    case BestFit => if prev.None? || prev.value.size > current.size then PREFER else REJECT
    case FirstFit => ACCEPT
    case WorstFit => if prev.None? || current.size > prev.value.size then PREFER else REJECT
  }

  /** The comparator's verdict on node `i` when `fit` is preferred so far. */
  function Verdict(fl: seq<Block>, i: nat, p: Policy, fit: Option<nat>): State
    requires i < |fl| && (fit.Some? ==> fit.value < |fl|)
  {
    Compare(p, if fit.None? then None else Some(fl[fit.value]), fl[i])
  }

  /** The search loop from node `i` on, with `fit` the node preferred so far. */
  function Scan(fl: seq<Block>, i: nat, need: int, p: Policy, fit: Option<nat>): (k: Option<nat>)
    requires i <= |fl| && (fit.Some? ==> fit.value < i && need <= fl[fit.value].size)
    ensures k.Some? ==> k.value < |fl| && need <= fl[k.value].size
    decreases |fl| - i
  {
    if i == |fl| then fit
    else
      if fl[i].size < need || Verdict(fl, i, p, fit) == REJECT then Scan(fl, i + 1, need, p, fit)
      else if fl[i].size == need || Verdict(fl, i, p, fit) == ACCEPT then Some(i)
      else Scan(fl, i + 1, need, p, Some(i))
  }

  function Select(fl: seq<Block>, need: int, p: Policy): (k: Option<nat>)
    ensures k.Some? ==> k.value < |fl| && need <= fl[k.value].size
  {
    Scan(fl, 0, need, p, None)
  }

  predicate FitsAt(fl: seq<Block>, n: int, need: int, j: int)
  {
    0 <= j < n <= |fl| && need <= fl[j].size
  }

  /** `k` is the first smallest node among those of the first `n` that fit. */
  ghost predicate IsBest(fl: seq<Block>, n: int, need: int, k: int)
  {
    && FitsAt(fl, n, need, k)
    && forall j :: FitsAt(fl, n, need, j) ==> fl[k].size <= fl[j].size && (j < k ==> fl[k].size < fl[j].size)
  }

  /** `k` is the first node among the first `n` that fits. */
  ghost predicate IsFirst(fl: seq<Block>, n: int, need: int, k: int)
  {
    FitsAt(fl, n, need, k) && forall j :: FitsAt(fl, n, need, j) ==> k <= j
  }

  /** `k` is the first largest node of those that fit, unless the first one that
      fits has exactly the needed size: then it is that one. */
  ghost predicate IsWorst(fl: seq<Block>, n: int, need: int, k: int)
  {
    && FitsAt(fl, n, need, k)
    && (if fl[k].size == need then IsFirst(fl, n, need, k)
        else
          && (forall j :: FitsAt(fl, n, need, j) ==> fl[j].size <= fl[k].size && (j < k ==> fl[j].size < fl[k].size))
          && (forall j :: IsFirst(fl, n, need, j) ==> fl[j].size != need))
  }

  ghost predicate Chosen(fl: seq<Block>, n: int, need: int, p: Policy, k: int)
  {
    match p
    case BestFit => IsBest(fl, n, need, k)
    case FirstFit => IsFirst(fl, n, need, k)
    case WorstFit => IsWorst(fl, n, need, k)
  }

  ghost predicate NoneFits(fl: seq<Block>, n: int, need: int)
  {
    forall j :: !FitsAt(fl, n, need, j)
  }

  lemma {:induction false} ScanChooses(fl: seq<Block>, i: nat, need: int, p: Policy, fit: Option<nat>)
    requires SoFar(fl, i, need, p, fit)
    ensures Answers(fl, need, p, Scan(fl, i, need, p, fit))
    decreases |fl| - i
  {
    if i < |fl| {
      if fl[i].size < need || Verdict(fl, i, p, fit) == REJECT {
        Skipped(fl, i, need, p, fit);
        ScanChooses(fl, i + 1, need, p, fit);
      } else if fl[i].size == need || Verdict(fl, i, p, fit) == ACCEPT {
        Settles(fl, i, need, p, fit);
      } else {
        Preferred(fl, i, need, p, fit);
        ScanChooses(fl, i + 1, need, p, Some(i));
      }
    }
  }

  ghost predicate Answers(fl: seq<Block>, need: int, p: Policy, k: Option<nat>)
  {
    if k.None? then NoneFits(fl, |fl|, need) else Chosen(fl, |fl|, need, p, k.value)
  }

  /** What the loop knows before it looks at node `i`. */
  ghost predicate SoFar(fl: seq<Block>, i: nat, need: int, p: Policy, fit: Option<nat>)
  {
    && i <= |fl| && (fit.None? ==> NoneFits(fl, i, need))
    && (fit.Some? ==> fit.value < i && Chosen(fl, i, need, p, fit.value) && !p.FirstFit? && fl[fit.value].size != need)
  }

  lemma FirstStays(fl: seq<Block>, i: nat, need: int, k: int, j: int)
    requires FitsAt(fl, i, need, k) && i < |fl|
    ensures IsFirst(fl, i + 1, need, j) <==> IsFirst(fl, i, need, j)
  {
    var m := i + 1;
    assert FitsAt(fl, m, need, k);
    if IsFirst(fl, m, need, j) {
      forall h | FitsAt(fl, i, need, h)
        ensures j <= h
      {
        assert FitsAt(fl, m, need, h);
      }
    }
    if IsFirst(fl, i, need, j) {
      forall h | FitsAt(fl, m, need, h)
        ensures j <= h
      {
        assert h < i ==> FitsAt(fl, i, need, h);
      }
    }
  }

  /** Looking at one more node keeps a choice that the node does not improve on. */
  lemma Extend(fl: seq<Block>, i: nat, need: int, p: Policy, k: int)
    requires i < |fl| && Chosen(fl, i, need, p, k) && fl[k].size != need
    requires need <= fl[i].size ==> !p.FirstFit? && (p.BestFit? ==> fl[k].size <= fl[i].size) && (p.WorstFit? ==> fl[i].size <= fl[k].size)
    ensures Chosen(fl, i + 1, need, p, k)
  {
    var m := i + 1;
    assert FitsAt(fl, i, need, k) && FitsAt(fl, m, need, k);
    forall j | FitsAt(fl, m, need, j)
      ensures FitsAt(fl, i, need, j) || (j == i && need <= fl[i].size)
    {
      assert j < i ==> FitsAt(fl, i, need, j);
    }
    forall j
      ensures IsFirst(fl, m, need, j) <==> IsFirst(fl, i, need, j)
    {
      FirstStays(fl, i, need, k, j);
    }
  }

  /** A node that is too small or not preferred changes nothing. */
  lemma Skipped(fl: seq<Block>, i: nat, need: int, p: Policy, fit: Option<nat>)
    requires SoFar(fl, i, need, p, fit) && i < |fl|
    requires fl[i].size < need || Verdict(fl, i, p, fit) == REJECT
    ensures SoFar(fl, i + 1, need, p, fit)
  {
    if fit.Some? {
      Extend(fl, i, need, p, fit.value);
    } else {
      var m := i + 1;
      forall j
        ensures !FitsAt(fl, m, need, j)
      {
        assert !FitsAt(fl, i, need, j);
      }
    }
  }

  /** A preferred node that is not an exact fit becomes the choice so far. */
  lemma Preferred(fl: seq<Block>, i: nat, need: int, p: Policy, fit: Option<nat>)
    requires SoFar(fl, i, need, p, fit) && i < |fl| && need < fl[i].size && Verdict(fl, i, p, fit) == PREFER
    ensures SoFar(fl, i + 1, need, p, Some(i))
  {
    var m := i + 1;
    assert FitsAt(fl, m, need, i);
    assert fit.Some? ==> FitsAt(fl, i, need, fit.value);
    forall j | FitsAt(fl, m, need, j)
      ensures j < i ==> FitsAt(fl, i, need, j)
    {
    }
    if fit.Some? {
      forall j | IsFirst(fl, m, need, j)
        ensures fl[j].size != need
      {
        FirstStays(fl, i, need, fit.value, j);
      }
    }
  }

  /** Where the loop breaks, the rest of the list cannot change the choice. */
  lemma Settles(fl: seq<Block>, i: nat, need: int, p: Policy, fit: Option<nat>)
    requires SoFar(fl, i, need, p, fit) && i < |fl| && need <= fl[i].size
    requires fl[i].size == need || Verdict(fl, i, p, fit) == ACCEPT
    requires Verdict(fl, i, p, fit) != REJECT
    ensures Chosen(fl, |fl|, need, p, i)
  {
    assert FitsAt(fl, |fl|, need, i);
    assert fit.Some? ==> FitsAt(fl, i, need, fit.value);
    forall j | FitsAt(fl, |fl|, need, j) && j < i
      ensures p.BestFit? && fl[i].size < fl[j].size
    {
      assert FitsAt(fl, i, need, j);
    }
  }

  /** NULL exactly when no node is big enough; otherwise the policy's node. */
  lemma SelectChooses(fl: seq<Block>, need: int, p: Policy)
    ensures Select(fl, need, p).None? <==> NoneFits(fl, |fl|, need)
    ensures Select(fl, need, p).Some? ==> Chosen(fl, |fl|, need, p, Select(fl, need, p).value)
  {
    ScanChooses(fl, 0, need, p, None);
    if Select(fl, need, p).Some? {
      assert FitsAt(fl, |fl|, need, Select(fl, need, p).value);
    }
  }

  // ----- allocating

  /** Bytes taken from a node of `size` bytes when `need` are wanted. */
  function Taken(cfg: Config, size: int, need: int): int
  {
    if size - need >= cfg.node then need else size
  }

  /** What taking `need` bytes leaves of a node: its tail, if that can hold a node. */
  function Tail(cfg: Config, n: Block, need: int): seq<Block>
  {
    if n.size - need >= cfg.node then [Block(n.addr + need, n.size - need)] else []
  }

  /** The list after taking node `k`. */
  function Remove(cfg: Config, fl: seq<Block>, k: nat, need: int): seq<Block>
    requires k < |fl|
    decreases k
  {
    if k == 0 then Tail(cfg, fl[0], need) + fl[1..] else [fl[0]] + Remove(cfg, fl[1..], k - 1, need)
  }

  function Got(cfg: Config, fl: seq<Block>, k: nat, need: int): Block
    requires k < |fl|
  {
    Block(fl[k].addr, Taken(cfg, fl[k].size, need))
  }

  /** What is handed out starts where the chosen node does and is less than a node larger
      than what is needed. It is no larger exactly when the node fits or what is left of it
      can be a node; else it is the whole node. */
  lemma GotBounds(cfg: Config, fl: seq<Block>, k: nat, need: int)
    requires cfg.Ok() && k < |fl| && 0 < need <= fl[k].size
    ensures var b, n := Got(cfg, fl, k, need), fl[k];
            && b.addr == n.addr && need <= b.size < need + cfg.node
            && (b.size == need <==> n.size == need || n.size >= need + cfg.node)
            && (b.size != need ==> b == n)
  {
  }

  lemma {:induction false} RemoveAbove(cfg: Config, fl: seq<Block>, k: nat, need: int, bound: int)
    requires k < |fl| && 0 < need && Above(fl, bound)
    ensures Above(Remove(cfg, fl, k, need), bound)
    decreases k
  {
    if k > 0 {
      RemoveAbove(cfg, fl[1..], k - 1, need, bound);
    }
  }

  lemma {:induction false} RemoveCanonical(cfg: Config, fl: seq<Block>, k: nat, need: int)
    requires cfg.Ok() && Canonical(fl) && k < |fl| && 0 < need <= fl[k].size
    ensures Canonical(Remove(cfg, fl, k, need))
    decreases k
  {
    var rest := fl[1..];
    if k == 0 {
      CanonicalSplit(Block(fl[0].addr + need, fl[0].size - need), rest);
      assert [] + rest == rest;
    } else {
      RemoveCanonical(cfg, rest, k - 1, need);
      RemoveAbove(cfg, rest, k - 1, need, fl[0].End());
      CanonicalSplit(fl[0], Remove(cfg, rest, k - 1, need));
    }
  }

  lemma RemoveDisjoint(cfg: Config, fl: seq<Block>, k: nat, need: int)
    requires cfg.Ok() && Canonical(fl) && k < |fl| && 0 < need <= fl[k].size
    ensures Disjoint(Remove(cfg, fl, k, need), Got(cfg, fl, k, need))
  {
    RemoveCanonical(cfg, fl, k, need);
    forall x | Got(cfg, fl, k, need).Has(x)
      ensures !Covers(Remove(cfg, fl, k, need), x)
    {
      RemoveCovers(cfg, fl, k, need, x);
    }
    CanonicalGaps(Remove(cfg, fl, k, need));
    DisjointCovers(Remove(cfg, fl, k, need), Got(cfg, fl, k, need));
  }

  /** Allocating takes exactly the bytes of the block handed out. */
  lemma {:induction false} RemoveCovers(cfg: Config, fl: seq<Block>, k: nat, need: int, x: int)
    requires cfg.Ok() && Canonical(fl) && k < |fl| && 0 < need <= fl[k].size
    ensures Covers(Remove(cfg, fl, k, need), x) <==> Covers(fl, x) && !Got(cfg, fl, k, need).Has(x)
    ensures Total(Remove(cfg, fl, k, need)) == Total(fl) - Got(cfg, fl, k, need).size
    decreases k
  {
    var rest, out := fl[1..], Remove(cfg, fl, k, need);
    Edges(fl, x);
    if k == 0 {
      assert fl[0].size - need >= cfg.node ==> out[1..] == rest;
      assert fl[0].size - need < cfg.node ==> out == rest;
    } else {
      RemoveCovers(cfg, rest, k - 1, need, x);
      assert out[1..] == Remove(cfg, rest, k - 1, need);
      assert fl[0].End() < rest[k - 1].addr;
    }
  }

  lemma DisjointCovers(fl: seq<Block>, b: Block)
    requires Positive(fl) && 0 < b.size
    ensures Disjoint(fl, b) <==> forall x :: b.Has(x) ==> !Covers(fl, x)
  {
    if Disjoint(fl, b) {
      forall x | b.Has(x)
        ensures !Covers(fl, x)
      {
        CoversAt(fl, x);
      }
    } else {
      var i :| 0 <= i < |fl| && !fl[i].Apart(b);
      var x := if fl[i].addr < b.addr then b.addr else fl[i].addr;
      assert fl[i].Has(x) && b.Has(x);
      CoversAt(fl, x);
    }
  }

  /** Freeing what was just allocated restores the list. */
  lemma AllocFree(cfg: Config, fl: seq<Block>, k: nat, need: int)
    requires cfg.Ok() && Canonical(fl) && k < |fl| && 0 < need <= fl[k].size
    ensures Insert(Remove(cfg, fl, k, need), Got(cfg, fl, k, need)) == Some(fl)
  {
    var r, b := Remove(cfg, fl, k, need), Got(cfg, fl, k, need);
    RemoveCanonical(cfg, fl, k, need);
    RemoveDisjoint(cfg, fl, k, need);
    InsertCanonical(r, b);
    forall x
      ensures Covers(Insert(r, b).value, x) <==> Covers(fl, x)
    {
      InsertCovers(r, b, x);
      RemoveCovers(cfg, fl, k, need, x);
      CoversAt(fl, x);
    }
    CanonicalUnique(Insert(r, b).value, fl);
  }

  lemma InsertDisjoint(fl: seq<Block>, a: Block, b: Block)
    requires Canonical(fl) && 0 < a.addr && 0 < a.size && 0 < b.size
    requires Disjoint(fl, a) && Disjoint(fl, b) && a.Apart(b)
    ensures Insert(fl, a).Some? && Canonical(Insert(fl, a).value) && Disjoint(Insert(fl, a).value, b)
  {
    InsertCanonical(fl, a);
    CanonicalGaps(fl);
    CanonicalGaps(Insert(fl, a).value);
    DisjointCovers(fl, b);
    forall x | b.Has(x)
      ensures !Covers(Insert(fl, a).value, x)
    {
      InsertCovers(fl, a, x);
    }
    DisjointCovers(Insert(fl, a).value, b);
  }

  /** Two live blocks can be freed in either order. */
  lemma FreesCommute(fl: seq<Block>, a: Block, b: Block)
    requires Canonical(fl) && 0 < a.addr && 0 < a.size && 0 < b.addr && 0 < b.size
    requires Disjoint(fl, a) && Disjoint(fl, b) && a.Apart(b)
    ensures Insert(fl, a).Some? && Insert(fl, b).Some?
    ensures Insert(Insert(fl, a).value, b).Some?
    ensures Insert(Insert(fl, a).value, b) == Insert(Insert(fl, b).value, a)
  {
    InsertDisjoint(fl, a, b);
    InsertDisjoint(fl, b, a);
    var ab, ba := Insert(fl, a).value, Insert(fl, b).value;
    InsertCanonical(ab, b);
    InsertCanonical(ba, a);
    forall x
      ensures Covers(Insert(ab, b).value, x) <==> Covers(Insert(ba, a).value, x)
    {
      InsertCovers(fl, a, x);
      InsertCovers(fl, b, x);
      InsertCovers(ab, b, x);
      InsertCovers(ba, a, x);
    }
    CanonicalUnique(Insert(ab, b).value, Insert(ba, a).value);
  }
}
