/** The allocator of mm/heap.c over a memory of node headers. Nodes are relinked
    and resized in place; every method is proved to do to the linked list what
    HeapSpec says about the list as a value. */
module Heap {
  import opened HeapSpec
  import opened Wrappers

  /** A struct heap_node **: the list root, or the `next` field of a node. */
  datatype Link = Root | NextOf(addr: int)

  datatype Error = EOK | EINVAL

  /** The fields of every struct heap_node in memory, and the list root. */
  datatype Memory = Memory(root: int, size: map<int, int>, next: map<int, int>)
  {
    function Store(l: Link, v: int): Memory
    {
      match l
      case Root => this.(root := v)
      case NextOf(a) => this.(next := next[a := v])
    }
  }

  /** A sum of two size_t values, which wraps. */
  function Wrap(cfg: Config, sum: int): int
  {
    if sum < cfg.limit then sum else sum - cfg.limit
  }

  /** Bytes that raw_mm_heap_alloc looks for: a node that holds the size and a header,
      unless their sum wraps; then the least node there is. */
  function Need(cfg: Config, size: int): (need: int)
    requires cfg.Ok() && 0 <= size < cfg.limit
    ensures cfg.node <= need < cfg.limit
    ensures size + cfg.overhead < cfg.limit ==> size + cfg.overhead <= need
    ensures need == cfg.node || need == size + cfg.overhead < cfg.limit
  {
    var need := Wrap(cfg, size + cfg.overhead);
    if need < cfg.node then cfg.node else need
  }

  // ----- chains of nodes in memory

  /** The address of node `i`, NULL past the end. */
  function At(fl: seq<Block>, i: int): int
    requires 0 <= i
  {
    if i < |fl| then fl[i].addr else 0
  }

  /** The fields of node `i` hold its size and the address of its successor. */
  predicate Linked(fl: seq<Block>, m: Memory, i: int)
    requires 0 <= i < |fl|
  {
    && fl[i].addr in m.size && m.size[fl[i].addr] == fl[i].size
    && fl[i].addr in m.next && m.next[fl[i].addr] == At(fl, i + 1)
  }

  ghost predicate Chain(fl: seq<Block>, m: Memory)
  {
    m.root == At(fl, 0) && forall i :: 0 <= i < |fl| ==> Linked(fl, m, i)
  }

  /** The link that points at node `i`. */
  function LinkAt(fl: seq<Block>, i: int): Link
    requires 0 <= i <= |fl|
  {
    if i == 0 then Root else NextOf(fl[i - 1].addr)
  }

  predicate SameNode(m: Memory, m': Memory, a: int)
  {
    && (a in m.size <==> a in m'.size) && (a in m.size ==> m'.size[a] == m.size[a])
    && (a in m.next <==> a in m'.next) && (a in m.next ==> m'.next[a] == m.next[a])
  }

  /** No node other than `k` starts at `x`. */
  predicate Alone(fl: seq<Block>, x: int, k: int)
  {
    forall i :: 0 <= i < |fl| && i != k ==> fl[i].addr != x
  }

  /** No node of a canonical list other than `k` starts in [fl[k].addr, fl[k].End()]. */
  lemma OtherStarts(fl: seq<Block>, k: nat, x: int)
    requires Canonical(fl) && k < |fl| && (x == fl[k].addr || fl[k].addr <= x <= fl[k].End())
    ensures Alone(fl, x, k)
  {
    CanonicalGaps(fl);
    forall i | 0 <= i < |fl| && i != k
      ensures fl[i].addr != x
    {
      if i < k {
        assert fl[i].End() < fl[k].addr;
      } else {
        assert fl[k].End() < fl[i].addr;
      }
    }
  }

  /** `skip` nodes from `k` on are replaced by `n`, if any. */
  function Spliced(fl: seq<Block>, k: nat, skip: nat, n: Option<Block>): seq<Block>
    requires k + skip <= |fl|
  {
    fl[..k] + (if n.Some? then [n.value] else []) + fl[k + skip..]
  }

  function NewStart(fl: seq<Block>, k: nat, skip: nat, n: Option<Block>): int
    requires k + skip <= |fl|
  {
    if n.Some? then n.value.addr else At(fl, k + skip)
  }

  /** Replacing a stretch of a chain: it is enough to link the new node to what
      follows and to store the new start in the link that pointed at the stretch. */
  lemma Splice(fl: seq<Block>, k: nat, skip: nat, n: Option<Block>, m: Memory, m1: Memory)
    requires Chain(fl, m) && k + skip <= |fl| && m1.root == m.root
    requires forall i :: 0 <= i < |fl| && !(k <= i < k + skip) ==> SameNode(m, m1, fl[i].addr)
    requires n.Some? ==>
      var b := n.value;
      && b.addr in m1.size && m1.size[b.addr] == b.size
      && b.addr in m1.next && m1.next[b.addr] == At(fl, k + skip)
    requires k > 0 ==> Alone(fl, fl[k - 1].addr, k - 1) && (n.Some? ==> n.value.addr != fl[k - 1].addr)
    ensures Chain(Spliced(fl, k, skip, n), m1.Store(LinkAt(fl, k), NewStart(fl, k, skip, n)))
  {
    var out, start := Spliced(fl, k, skip, n), NewStart(fl, k, skip, n);
    var m2 := m1.Store(LinkAt(fl, k), start);
    var w := if n.Some? then 1 else 0;
    assert At(out, k) == start;
    forall i | 0 <= i < |out|
      ensures Linked(out, m2, i)
    {
      if i < k {
        assert out[i] == fl[i] && Linked(fl, m, i) && SameNode(m, m1, fl[i].addr);
        assert i + 1 < k ==> out[i + 1] == fl[i + 1] && fl[i].addr != fl[k - 1].addr;
      } else if i < k + w {
        assert out[i] == n.value && At(out, i + 1) == At(fl, k + skip);
      } else {
        var j := i - w + skip;
        assert out[i] == fl[j] && Linked(fl, m, j) && SameNode(m, m1, fl[j].addr);
        assert At(out, i + 1) == At(fl, j + 1);
        assert k > 0 ==> fl[j].addr != fl[k - 1].addr;
      }
    }
    assert At(out, 0) == if k == 0 then start else At(fl, 0);
  }

  /** The memory after node `k` has been taken off the list, or split. */
  function Cut(cfg: Config, fl: seq<Block>, m: Memory, k: nat, need: int): Memory
    requires k < |fl| && fl[k].addr in m.next
  {
    var fit := fl[k].addr;
    if fl[k].size - need >= cfg.node then
      var rest := fit + need;
      Memory(m.root, m.size[rest := fl[k].size - need][fit := need], m.next[rest := m.next[fit]])
        .Store(LinkAt(fl, k), rest)
    else m.Store(LinkAt(fl, k), m.next[fit])
  }

  lemma CutChain(cfg: Config, fl: seq<Block>, m: Memory, k: nat, need: int)
    requires cfg.Ok() && Canonical(fl) && Chain(fl, m) && k < |fl| && 0 < need <= fl[k].size
    requires Linked(fl, m, k)
    ensures Chain(Remove(cfg, fl, k, need), Cut(cfg, fl, m, k, need))
  {
    OtherStarts(fl, k, fl[k].addr + need);
    OtherStarts(fl, k, fl[k].addr);
    if k > 0 {
      OtherStarts(fl, k - 1, fl[k - 1].addr);
    }
    CutSplice(cfg, fl, m, k, need);
  }

  /** Headers outside the bytes of `fl` keep their sizes. */
  ghost predicate Kept(fl: seq<Block>, m: Memory, m': Memory)
  {
    forall a :: a in m.size && !Covers(fl, a) ==> a in m'.size && m'.size[a] == m.size[a]
  }

  lemma CutKeeps(cfg: Config, fl: seq<Block>, m: Memory, k: nat, need: int)
    requires cfg.Ok() && Canonical(fl) && k < |fl| && 0 < need <= fl[k].size && fl[k].addr in m.next
    ensures Kept(fl, m, Cut(cfg, fl, m, k, need))
  {
    assert fl[k].Has(fl[k].addr) by {
      CanonicalGaps(fl);
    }
    CoversAt(fl, fl[k].addr);
    CoversAt(fl, fl[k].addr + need);
    assert need < fl[k].size ==> fl[k].Has(fl[k].addr + need);
  }

  lemma TakeLemma(cfg: Config, fl: seq<Block>, m: Memory, k: nat, need: int)
    requires cfg.Ok() && Canonical(fl) && Chain(fl, m) && k < |fl| && 0 < need <= fl[k].size
    requires Linked(fl, m, k)
    ensures Canonical(Remove(cfg, fl, k, need)) && Chain(Remove(cfg, fl, k, need), Cut(cfg, fl, m, k, need))
    ensures Kept(fl, m, Cut(cfg, fl, m, k, need))
  {
    RemoveCanonical(cfg, fl, k, need);
    CutChain(cfg, fl, m, k, need);
    CutKeeps(cfg, fl, m, k, need);
  }

  lemma {:induction false} RemoveSplices(cfg: Config, fl: seq<Block>, k: nat, need: int)
    requires k < |fl|
    ensures Remove(cfg, fl, k, need) == fl[..k] + Tail(cfg, fl[k], need) + fl[k + 1..]
    decreases k
  {
    if k > 0 {
      RemoveSplices(cfg, fl[1..], k - 1, need);
      assert fl[1..][..k - 1] == fl[..k][1..] && fl[1..][k..] == fl[k + 1..];
    }
  }

  lemma CutSplice(cfg: Config, fl: seq<Block>, m: Memory, k: nat, need: int)
    requires Chain(fl, m) && k < |fl| && Linked(fl, m, k)
    requires Alone(fl, fl[k].addr, k) && Alone(fl, fl[k].addr + need, k) && 0 < need
    requires k > 0 ==> Alone(fl, fl[k - 1].addr, k - 1)
    ensures Chain(Remove(cfg, fl, k, need), Cut(cfg, fl, m, k, need))
  {
    if fl[k].size - need >= cfg.node {
      var b := Block(fl[k].addr + need, fl[k].size - need);
      var m1 := Memory(m.root, m.size[b.addr := b.size][fl[k].addr := need], m.next[b.addr := m.next[fl[k].addr]]);
      Splice(fl, k, 1, Some(b), m, m1);
      RemoveSplices(cfg, fl, k, need);
    } else {
      Splice(fl, k, 1, None, m, m);
      RemoveSplices(cfg, fl, k, need);
    }
  }

  // ----- freeing

  /** The walk of raw_mm_heap_free goes on past `n`. */
  predicate Passes(n: Block, b: Block)
  {
    n.End() != b.addr && n.addr <= b.addr && n.End() <= b.addr
  }

  function Append(a: seq<Block>, r: Option<seq<Block>>): Option<seq<Block>>
  {
    match r
    case None => None
    case Some(fl) => Some(a + fl)
  }

  lemma {:induction false} InsertPast(a: seq<Block>, c: seq<Block>, b: Block)
    requires forall i :: 0 <= i < |a| ==> Passes(a[i], b)
    ensures Insert(a + c, b) == Append(a, Insert(c, b))
  {
    if a == [] {
      assert a + c == c;
      assert Insert(c, b).Some? ==> a + Insert(c, b).value == Insert(c, b).value;
    } else {
      assert (a + c)[1..] == a[1..] + c && (a + c)[0] == a[0];
      InsertPast(a[1..], c, b);
      if Insert(c, b).Some? {
        assert [a[0]] + (a[1..] + Insert(c, b).value) == a + Insert(c, b).value;
      }
    }
  }

  /** The memory after `b` has been freed while the walk stood at node `k`. */
  function Joined(fl: seq<Block>, m: Memory, k: nat, b: Block): Memory
    requires k <= |fl| && (k < |fl| ==> fl[k].addr in m.next)
    requires k + 1 < |fl| ==> fl[k + 1].addr in m.next
  {
    if k == |fl| then
      m.(next := m.next[b.addr := 0]).Store(LinkAt(fl, k), b.addr)
    else if fl[k].End() == b.addr then
      var m1 := m.(size := m.size[fl[k].addr := fl[k].size + b.size]);
      if k + 1 < |fl| && b.End() == fl[k + 1].addr then
        m1.(size := m1.size[fl[k].addr := fl[k].size + b.size + fl[k + 1].size],
            next := m1.next[fl[k].addr := m1.next[fl[k + 1].addr]])
      else m1
    else
      var m1 := m.Store(LinkAt(fl, k), b.addr);
      if b.End() == fl[k].addr then
        m1.(size := m1.size[b.addr := b.size + fl[k].size], next := m1.next[b.addr := m.next[fl[k].addr]])
      else m1.(next := m1.next[b.addr := fl[k].addr])
  }

  lemma StoreCommutes(m: Memory, l: Link, v: int, a: int, s: map<int, int>, n: int)
    requires l != NextOf(a)
    ensures m.(next := m.next[a := n], size := s).Store(l, v)
         == var m1 := m.Store(l, v); m1.(next := m1.next[a := n], size := s)
  {
    if l.NextOf? {
      assert m.next[a := n][l.addr := v] == m.next[l.addr := v][a := n];
    }
  }

  /** The store through a link that already holds the value changes nothing. */
  lemma StoreSame(fl: seq<Block>, m: Memory, m1: Memory, k: nat, v: int)
    requires k <= |fl| && v == At(fl, k) && Chain(fl, m)
    requires m1.root == m.root && (k > 0 ==> SameNode(m, m1, fl[k - 1].addr))
    ensures m1.Store(LinkAt(fl, k), v) == m1
  {
    if k > 0 {
      assert Linked(fl, m, k - 1);
      assert m1.next[fl[k - 1].addr := v] == m1.next;
    }
  }

  /** What Insert does at the node where the walk stops. */
  function JoinedList(fl: seq<Block>, k: nat, b: Block): seq<Block>
    requires k <= |fl|
  {
    if k == |fl| then Spliced(fl, k, 0, Some(b))
    else if fl[k].End() == b.addr then
      if k + 1 < |fl| && b.End() == fl[k + 1].addr
      then Spliced(fl, k, 2, Some(Block(fl[k].addr, fl[k].size + b.size + fl[k + 1].size)))
      else Spliced(fl, k, 1, Some(Block(fl[k].addr, fl[k].size + b.size)))
    else if b.End() == fl[k].addr then Spliced(fl, k, 1, Some(Block(b.addr, b.size + fl[k].size)))
    else Spliced(fl, k, 0, Some(b))
  }

  lemma JoinedEnd(fl: seq<Block>, m: Memory, b: Block)
    requires Chain(fl, m) && b.addr in m.size && m.size[b.addr] == b.size && Alone(fl, b.addr, -1)
    requires fl != [] ==> Alone(fl, fl[|fl| - 1].addr, |fl| - 1)
    ensures Chain(JoinedList(fl, |fl|, b), Joined(fl, m, |fl|, b))
  {
    Splice(fl, |fl|, 0, Some(b), m, m.(next := m.next[b.addr := 0]));
  }

  lemma JoinedAfter(fl: seq<Block>, m: Memory, k: nat, b: Block)
    requires Chain(fl, m) && k < |fl| && fl[k].End() == b.addr
    requires Linked(fl, m, k) && (k + 1 < |fl| ==> Linked(fl, m, k + 1))
    requires Alone(fl, fl[k].addr, k) && (k > 0 ==> Alone(fl, fl[k - 1].addr, k - 1))
    ensures Chain(JoinedList(fl, k, b), Joined(fl, m, k, b))
  {
    var m2 := Joined(fl, m, k, b);
    if k + 1 < |fl| && b.End() == fl[k + 1].addr {
      Splice(fl, k, 2, Some(Block(fl[k].addr, fl[k].size + b.size + fl[k + 1].size)), m, m2);
    } else {
      Splice(fl, k, 1, Some(Block(fl[k].addr, fl[k].size + b.size)), m, m2);
    }
    StoreSame(fl, m, m2, k, fl[k].addr);
  }

  lemma JoinedBefore(fl: seq<Block>, m: Memory, k: nat, b: Block)
    requires Chain(fl, m) && k < |fl| && fl[k].End() != b.addr && Linked(fl, m, k)
    requires b.addr in m.size && m.size[b.addr] == b.size
    requires Alone(fl, b.addr, -1) && (k > 0 ==> Alone(fl, fl[k - 1].addr, k - 1))
    requires k + 1 < |fl| ==> fl[k + 1].addr in m.next
    ensures Chain(JoinedList(fl, k, b), Joined(fl, m, k, b))
  {
    var l := LinkAt(fl, k);
    assert m.size[b.addr := b.size] == m.size;
    if b.End() == fl[k].addr {
      var n, s := m.next[fl[k].addr], m.size[b.addr := b.size + fl[k].size];
      Splice(fl, k, 1, Some(Block(b.addr, b.size + fl[k].size)), m, m.(next := m.next[b.addr := n], size := s));
      StoreCommutes(m, l, b.addr, b.addr, s, n);
    } else {
      Splice(fl, k, 0, Some(b), m, m.(next := m.next[b.addr := fl[k].addr]));
      StoreCommutes(m, l, b.addr, b.addr, m.size, fl[k].addr);
    }
  }

  /** The walk stops at node `k`. */
  ghost predicate Stops(fl: seq<Block>, k: nat, b: Block)
  {
    && k <= |fl| && (forall i :: 0 <= i < k ==> Passes(fl[i], b))
    && (k < |fl| ==> fl[k].End() == b.addr || b.addr < fl[k].addr)
  }

  lemma InsertJoins(fl: seq<Block>, k: nat, b: Block)
    requires Canonical(fl) && Stops(fl, k, b)
    ensures Insert(fl, b) == Some(JoinedList(fl, k, b))
  {
    var a, c := fl[..k], fl[k..];
    assert fl == a + c;
    InsertPast(a, c, b);
    if k < |fl| {
      assert c == [fl[k]] + fl[k + 1..];
      InsertCases(fl[k], fl[k + 1..], b);
      assert k + 1 < |fl| ==> fl[k + 1..][1..] == fl[k + 2..];
    }
    JoinedShape(fl, k, b);
  }

  lemma JoinedShape(fl: seq<Block>, k: nat, b: Block)
    requires k <= |fl|
    ensures k == |fl| ==> JoinedList(fl, k, b) == fl[..k] + [b]
    ensures k < |fl| && fl[k].End() == b.addr ==>
      JoinedList(fl, k, b) == fl[..k] +
        (if k + 1 < |fl| && b.End() == fl[k + 1].addr
         then [Block(fl[k].addr, fl[k].size + b.size + fl[k + 1].size)] + fl[k + 2..]
         else [Block(fl[k].addr, fl[k].size + b.size)] + fl[k + 1..])
    ensures k < |fl| && fl[k].End() != b.addr ==>
      JoinedList(fl, k, b) == fl[..k] +
        (if b.End() == fl[k].addr then [Block(b.addr, b.size + fl[k].size)] + fl[k + 1..]
         else [b] + ([fl[k]] + fl[k + 1..]))
  {
    assert k < |fl| ==> fl[k..] == [fl[k]] + fl[k + 1..];
  }

  /** Freeing at the node where the walk stops does to memory what Insert does to the list. */
  lemma JoinLemma(fl: seq<Block>, m: Memory, k: nat, b: Block)
    requires Canonical(fl) && Chain(fl, m) && Stops(fl, k, b) && Disjoint(fl, b) && 0 < b.addr && 0 < b.size
    requires b.addr in m.size && m.size[b.addr] == b.size
    requires k < |fl| ==> Linked(fl, m, k) && (k + 1 < |fl| ==> Linked(fl, m, k + 1))
    ensures var out := JoinedList(fl, k, b);
            Insert(fl, b) == Some(out) && Canonical(out) && Chain(out, Joined(fl, m, k, b))
            && Kept(out, m, Joined(fl, m, k, b))
  {
    InsertJoins(fl, k, b);
    InsertCanonical(fl, b);
    CanonicalGaps(fl);
    forall i | 0 <= i < |fl|
      ensures fl[i].addr != b.addr
    {
      assert fl[i].Apart(b);
    }
    if k > 0 {
      OtherStarts(fl, k - 1, fl[k - 1].addr);
    }
    if k == |fl| {
      JoinedEnd(fl, m, b);
    } else {
      OtherStarts(fl, k, fl[k].addr);
      if fl[k].End() == b.addr {
        JoinedAfter(fl, m, k, b);
      } else {
        JoinedBefore(fl, m, k, b);
      }
    }
    JoinKeeps(fl, m, k, b);
  }

  lemma JoinKeeps(fl: seq<Block>, m: Memory, k: nat, b: Block)
    requires Canonical(fl) && Stops(fl, k, b) && 0 < b.size && Insert(fl, b) == Some(JoinedList(fl, k, b))
    requires k < |fl| ==> fl[k].addr in m.next
    requires k + 1 < |fl| ==> fl[k + 1].addr in m.next
    ensures Kept(JoinedList(fl, k, b), m, Joined(fl, m, k, b))
  {
    InsertCovers(fl, b, b.addr);
    if k < |fl| {
      assert fl[k].Has(fl[k].addr) by {
        CanonicalGaps(fl);
      }
      CoversAt(fl, fl[k].addr);
      InsertCovers(fl, b, fl[k].addr);
    }
  }

  // ----- the allocator

  class FreeList {
    const cfg: Config
    var root: int
    var size: map<int, int>
    var next: map<int, int>
    ghost var nodes: seq<Block>

    ghost function Mem(): Memory
      reads this
    {
      Memory(root, size, next)
    }

    ghost predicate Valid()
      reads this
    {
      cfg.Ok() && Canonical(nodes) && Chain(nodes, Mem())
    }

    constructor (cfg: Config)
      requires cfg.Ok()
      ensures Valid() && nodes == [] && this.cfg == cfg
    {
      this.cfg := cfg;
      root, size, next, nodes := 0, map[], map[], [];
    }

    /** `*l = v`. */
    method Store(l: Link, v: int)
      modifies this`root, this`next
      ensures Mem() == old(Mem()).Store(l, v)
    {
      match l
      case Root => root := v;
      case NextOf(a) => next := next[a := v];
    }

    /** The search loop: the chosen node and the link to it, 0 when there is none. */
    method Search(need: int, p: Policy) returns (fit: int, fpp: Link, ghost k: Option<nat>)
      requires Valid()
      ensures k == Select(nodes, need, p)
      ensures k.None? ==> fit == 0
      ensures k.Some? ==> fit == nodes[k.value].addr != 0 && fpp == LinkAt(nodes, k.value)
    {
      var node, npp := root, Root;
      fit, fpp, k := 0, Root, None;
      ghost var i := 0;
      while node != 0
        invariant 0 <= i <= |nodes| && node == At(nodes, i) && npp == LinkAt(nodes, i)
        invariant k.None? ==> fit == 0
        invariant k.Some? ==> k.value < i && fit == nodes[k.value].addr != 0 && fpp == LinkAt(nodes, k.value)
        invariant k.Some? ==> need <= nodes[k.value].size
        invariant Select(nodes, need, p) == Scan(nodes, i, need, p, k)
        decreases |nodes| - i
      {
        assert Linked(nodes, Mem(), i);
        assert fit != 0 ==> Linked(nodes, Mem(), k.value);
        if size[node] >= need {
          var state := Compare(p, if fit == 0 then None else Some(Block(fit, size[fit])), Block(node, size[node]));
          assert nodes[i] == Block(node, size[node]);
          if state != REJECT {
            fit, fpp, k := node, npp, Some(i);
            if size[node] == need || state == ACCEPT {
              break;
            }
          }
        }
        npp, node := NextOf(node), next[node];
        i := i + 1;
      }
    }

    /** raw_mm_heap_alloc: the payload address, or 0 for NULL. */
    method Alloc(sz: int, p: Policy) returns (ptr: int)
      requires Valid() && 0 <= sz < cfg.limit
      modifies this
      ensures Valid()
      ensures var need := Need(cfg, sz);
              var k := Select(old(nodes), need, p);
              if k.None? then ptr == 0 && nodes == old(nodes) && Mem() == old(Mem())
              else
                && ptr == old(nodes)[k.value].addr + cfg.overhead
                && nodes == Remove(cfg, old(nodes), k.value, need)
                && Holds(Got(cfg, old(nodes), k.value, need))
      ensures Kept(old(nodes), old(Mem()), Mem())
    {
      var need := Wrap(cfg, sz + cfg.overhead);
      if need < cfg.node {
        need := cfg.node;
      }
      var fit, fpp, k := Search(need, p);
      if fit == 0 {
        return 0;
      }
      Take(fit, fpp, need, k.value);
      ptr := fit + cfg.overhead;
    }

    /** Takes node `fit` off the list, or splits it when the rest can hold a node. */
    method Take(fit: int, fpp: Link, need: int, ghost i: nat)
      requires Valid() && i < |nodes| && 0 < need <= nodes[i].size
      requires fit == nodes[i].addr && fpp == LinkAt(nodes, i)
      modifies this
      ensures Valid() && nodes == Remove(cfg, old(nodes), i, need)
      ensures Holds(Got(cfg, old(nodes), i, need)) && Kept(old(nodes), old(Mem()), Mem())
    {
      ghost var fl, m := nodes, Mem();
      assert Linked(fl, m, i);
      TakeLemma(cfg, fl, m, i, need);
      if size[fit] - need >= cfg.node {
        var rest := fit + need;
        size := size[rest := size[fit] - need];
        next := next[rest := next[fit]];
        size := size[fit := need];
        Store(fpp, rest);
      } else {
        Store(fpp, next[fit]);
      }
      assert Mem() == Cut(cfg, fl, m, i, need);
      nodes := Remove(cfg, nodes, i, need);
    }

    /** The header of `b` records its size. */
    ghost predicate Holds(b: Block)
      reads this
    {
      b.addr in size && size[b.addr] == b.size
    }

    /** raw_mm_heap_free of the payload at `block`, whose header holds its size. */
    method Free(block: int) returns (r: Error)
      requires Valid()
      requires block != 0 && !Covers(nodes, block - cfg.overhead) ==>
        var a := block - cfg.overhead;
        0 < a && a in size && 0 < size[a] && Disjoint(nodes, Block(a, size[a]))
      modifies this
      ensures Valid()
      ensures if block == 0 || Covers(old(nodes), block - cfg.overhead)
              then r == EINVAL && nodes == old(nodes) && Mem() == old(Mem())
              else
                var a := block - cfg.overhead;
                r == EOK && Insert(old(nodes), Block(a, old(size[a]))) == Some(nodes)
      ensures Kept(nodes, old(Mem()), Mem())
    {
      if block == 0 {
        return EINVAL;
      }
      var fnode := block - cfg.overhead;
      ghost var b := Block(fnode, if fnode in size then size[fnode] else 0);
      InsertRejects(nodes, b);
      var node, npp := root, Root;
      ghost var i := 0;
      while node != 0
        invariant 0 <= i <= |nodes| && node == At(nodes, i) && npp == LinkAt(nodes, i)
        invariant forall j :: 0 <= j < i ==> Passes(nodes[j], b)
        decreases |nodes| - i
      {
        assert Linked(nodes, Mem(), i);
        if node + size[node] == fnode || node > fnode {
          break;
        }
        if node + size[node] > fnode {
          assert nodes[i].Has(fnode);
          CoversAt(nodes, fnode);
          return EINVAL;
        }
        npp, node := NextOf(node), next[node];
        i := i + 1;
      }
      InsertJoins(nodes, i, b);
      FreeFound(node, npp, fnode, i, b);
      r := EOK;
    }

    /** The walk has stopped at `node`, or at the end of the list. */
    method FreeFound(node: int, npp: Link, fnode: int, ghost i: nat, ghost b: Block)
      requires Valid() && Stops(nodes, i, b) && Holds(b) && fnode == b.addr
      requires 0 < b.addr && 0 < b.size && Disjoint(nodes, b)
      requires node == At(nodes, i) && npp == LinkAt(nodes, i)
      modifies this
      ensures Valid() && Insert(old(nodes), b) == Some(nodes) && Kept(nodes, old(Mem()), Mem())
    {
      ghost var fl, m := nodes, Mem();
      InsertJoins(fl, i, b);
      InsertRejects(fl, b);
      assert i < |fl| ==> Linked(fl, m, i);
      assert i + 1 < |fl| ==> Linked(fl, m, i + 1);
      JoinLemma(fl, m, i, b);
      PositiveEnds(fl, i);
      BeforeFreed(fl, i, b);
      Relink(node, npp, fnode, i, b);
      nodes := JoinedList(fl, i, b);
    }

    /** The branches of raw_mm_heap_free that change memory. */
    method Relink(node: int, npp: Link, fnode: int, ghost i: nat, ghost b: Block)
      requires i <= |nodes| && Holds(b) && fnode == b.addr
      requires node == At(nodes, i) && npp == LinkAt(nodes, i)
      requires i < |nodes| ==> Linked(nodes, Mem(), i) && 0 < node && 0 < nodes[i].size && 0 < b.size
      requires i < |nodes| && nodes[i].End() != b.addr ==> b.addr < node
      requires i < |nodes| && i > 0 ==> nodes[i - 1].addr != node && nodes[i - 1].addr != b.addr
      requires i + 1 < |nodes| ==> Linked(nodes, Mem(), i + 1) && node < nodes[i + 1].addr
      modifies this`root, this`size, this`next
      ensures Mem() == Joined(nodes, old(Mem()), i, b)
    {
      if node == 0 {
        next := next[fnode := node];
        Store(npp, fnode);
      } else if node + size[node] == fnode {
        size := size[node := size[node] + size[fnode]];
        if node + size[node] == next[node] {
          size := size[node := size[node] + size[next[node]]];
          next := next[node := next[next[node]]];
        }
      } else {
        Store(npp, fnode);
        if fnode + size[fnode] == node {
          size := size[fnode := size[fnode] + size[node]];
          next := next[fnode := next[node]];
        } else {
          next := next[fnode := node];
        }
      }
    }

    lemma BeforeFreed(fl: seq<Block>, i: nat, b: Block)
      requires Canonical(fl) && Stops(fl, i, b) && !Covers(fl, b.addr)
      ensures i > 0 ==> fl[i - 1].addr != b.addr
    {
      CanonicalGaps(fl);
      CoversAt(fl, b.addr);
      assert i > 0 && fl[i - 1].addr == b.addr ==> fl[i - 1].Has(b.addr);
    }

    lemma PositiveEnds(fl: seq<Block>, i: nat)
      requires Canonical(fl)
      ensures i < |fl| ==> 0 < fl[i].addr && 0 < fl[i].size
      ensures i + 1 < |fl| ==> fl[i].addr < fl[i + 1].addr
      ensures 0 < i < |fl| ==> fl[i - 1].addr < fl[i].addr
    {
      CanonicalGaps(fl);
    }

    /** raw_mm_heap_add_block, with MM_ALIGNMENT 1: writes a header and frees the region. */
    method AddBlock(addr: int, sz: int)
      requires Valid() && 0 < addr && 0 < sz && Disjoint(nodes, Block(addr, sz))
      modifies this
      ensures Valid() && Insert(old(nodes), Block(addr, sz)) == Some(nodes)
      ensures Kept(nodes, old(Mem()), Mem())
    {
      ghost var fl, m, m', b := nodes, Mem(), Memory(root, size[addr := sz], next), Block(addr, sz);
      forall i | 0 <= i < |fl|
        ensures Linked(fl, m', i)
      {
        assert Linked(fl, m, i) && fl[i].Apart(b);
        PositiveEnds(fl, i);
      }
      size := size[addr := sz];
      CanonicalGaps(fl);
      DisjointCovers(fl, b);
      InsertCanonical(fl, b);
      InsertCovers(fl, b, addr);
      var r := Free(addr + cfg.overhead);
    }

    /** raw_mm_heap_available: what every free node could hand out. */
    method Available() returns (rv: int)
      requires Valid()
      ensures rv == Total(nodes) - cfg.overhead * |nodes|
    {
      PayloadTotal(cfg, nodes);
      rv := 0;
      var node := root;
      ghost var i := 0;
      while node != 0
        invariant 0 <= i <= |nodes| && node == At(nodes, i)
        invariant rv + Payload(cfg, nodes[i..]) == Payload(cfg, nodes)
        decreases |nodes| - i
      {
        assert Linked(nodes, Mem(), i);
        assert nodes[i..][1..] == nodes[i + 1..];
        rv := rv + size[node] - cfg.overhead;
        node := next[node];
        i := i + 1;
      }
      PositiveEnds(nodes, i);
    }
  }

  function Payload(cfg: Config, fl: seq<Block>): int
  {
    if fl == [] then 0 else fl[0].size - cfg.overhead + Payload(cfg, fl[1..])
  }

  lemma {:induction false} PayloadTotal(cfg: Config, fl: seq<Block>)
    ensures Payload(cfg, fl) == Total(fl) - cfg.overhead * |fl|
  {
    if fl != [] {
      PayloadTotal(cfg, fl[1..]);
      assert cfg.overhead * |fl| == cfg.overhead * (|fl| - 1) + cfg.overhead;
    }
  }
}
