/** xorlist.c: a doubly linked list in one link per node, the exclusive or of both
    neighbours' addresses. */
module XorList {

  /** Addresses as the code uses them, as unsigned numbers. */
  type Addr = nat

  const NULL: Addr := 0
  const EINVAL := 22

  /** The exclusive or, bit by bit. */
  function Xor(a: Addr, b: Addr): Addr
    decreases a + b
  {
    if a == 0 && b == 0 then 0 else 2 * Xor(a / 2, b / 2) + (if a % 2 == b % 2 then 0 else 1)
  }

  /** Two examples: the bits that differ. */
  lemma KnownXor()
    ensures Xor(12, 10) == 6 && Xor(0xFF, 0x0F) == 0xF0
  {
    assert Xor(1, 0) == 1 && Xor(1, 1) == 0;
    assert Xor(3, 2) == 1 && Xor(6, 5) == 3;
    assert Xor(15, 0) == 15 by { XorZero(15); }
    assert Xor(31, 1) == 30 && Xor(63, 3) == 60;
    assert Xor(127, 7) == 120;
  }

  lemma {:induction false} XorZero(a: Addr)
    ensures Xor(a, 0) == a
  {
    if a > 0 {
      XorZero(a / 2);
    }
  }

  lemma {:induction false} XorCommutes(a: Addr, b: Addr)
    ensures Xor(a, b) == Xor(b, a)
    decreases a + b
  {
    if a > 0 || b > 0 {
      XorCommutes(a / 2, b / 2);
    }
  }

  lemma {:induction false} XorUndoes(a: Addr, b: Addr)
    ensures Xor(a, Xor(a, b)) == b
    decreases a + b
  {
    if a > 0 || b > 0 {
      XorUndoes(a / 2, b / 2);
      XorBits(a, b, Xor(a / 2, b / 2));
    }
  }

  lemma XorBits(a: Addr, b: Addr, h: Addr)
    requires h == Xor(a / 2, b / 2) && Xor(a / 2, h) == b / 2
    ensures Xor(a, Xor(a, b)) == b
  {
    var bit := if a % 2 == b % 2 then 0 else 1;
    var x := 2 * h + bit;
    XorStep(a, b);
    assert x / 2 == h && x % 2 == bit;
    XorStep(a, x);
  }

  lemma XorStep(a: Addr, b: Addr)
    ensures Xor(a, b) == 2 * Xor(a / 2, b / 2) + (if a % 2 == b % 2 then 0 else 1)
  {
  }

  /** It is commutative, and undoes itself. */
  lemma XorCancels(a: Addr, b: Addr)
    ensures Xor(a, b) == Xor(b, a) && Xor(a, Xor(a, b)) == b && Xor(Xor(a, b), b) == a && Xor(Xor(a, b), a) == b
  {
    XorCommutes(a, b);
    XorCommutes(Xor(a, b), b);
    XorCommutes(Xor(a, b), a);
    XorUndoes(a, b);
    XorUndoes(b, a);
  }

  /** The neighbours of position `i`; NULL beyond the ends. */
  function Left(s: seq<Addr>, i: int): Addr
    requires 0 <= i < |s|
  {
    if i == 0 then NULL else s[i - 1]
  }

  function Right(s: seq<Addr>, i: int): Addr
    requires 0 <= i < |s|
  {
    if i + 1 < |s| then s[i + 1] else NULL
  }

  predicate Distinct(s: seq<Addr>)
  {
    && (forall i :: 0 <= i < |s| ==> s[i] != NULL)
    && (forall i, j :: 0 <= i < |s| && 0 <= j < |s| && i != j ==> s[i] != s[j])
  }

  /** The link at position `i` is the one of the list `s`. */
  predicate LinkOk(ptr: map<Addr, Addr>, s: seq<Addr>, i: int)
    requires 0 <= i < |s|
  {
    s[i] in ptr && ptr[s[i]] == Xor(Left(s, i), Right(s, i))
  }

  /** The links in memory make up the list `s`. */
  predicate Encodes(ptr: map<Addr, Addr>, s: seq<Addr>)
  {
    Distinct(s) && forall i :: 0 <= i < |s| ==> LinkOk(ptr, s, i)
  }

  // ----- the list from its other end

  function Reversed(s: seq<Addr>): seq<Addr>
  {
    seq(|s|, i requires 0 <= i < |s| => s[|s| - 1 - i])
  }

  /** The same links are the reversed list too. */
  lemma EncodesReversed(ptr: map<Addr, Addr>, s: seq<Addr>)
    requires Encodes(ptr, s)
    ensures Encodes(ptr, Reversed(s))
  {
    var r := Reversed(s);
    forall i | 0 <= i < |r|
      ensures LinkOk(ptr, r, i)
    {
      var k := |s| - 1 - i;
      assert LinkOk(ptr, s, k) && Left(r, i) == Right(s, k) && Right(r, i) == Left(s, k);
      XorCancels(Left(s, k), Right(s, k));
    }
  }

  // ----- inserting and deleting

  function Inserted(s: seq<Addr>, i: int, node: Addr): seq<Addr>
    requires 0 <= i < |s|
  {
    s[..i + 1] + [node] + s[i + 1..]
  }

  function Deleted(s: seq<Addr>, i: int): seq<Addr>
    requires 0 <= i < |s|
  {
    s[..i] + s[i + 1..]
  }

  lemma InsertedAt(s: seq<Addr>, i: int, node: Addr, k: int)
    requires 0 <= i < |s| && 0 <= k <= |s|
    ensures var t := Inserted(s, i, node);
            && |t| == |s| + 1 && t[k] == (if k <= i then s[k] else if k == i + 1 then node else s[k - 1])
            && Left(t, k) == (if k <= i then Left(s, k) else if k == i + 1 then s[i] else if k == i + 2 then node else Left(s, k - 1))
            && Right(t, k) == (if k < i then Right(s, k) else if k == i then node else if k == i + 1 then Right(s, i) else Right(s, k - 1))
  {
  }

  lemma DeletedAt(s: seq<Addr>, i: int, k: int)
    requires 0 <= i < |s| && 0 <= k < |s| - 1
    ensures var t := Deleted(s, i);
            && |t| == |s| - 1 && t[k] == (if k < i then s[k] else s[k + 1])
            && Left(t, k) == (if k < i then Left(s, k) else if k == i then Left(s, i) else Left(s, k + 1))
            && Right(t, k) == (if k == i - 1 then Right(s, i) else if k < i then Right(s, k) else Right(s, k + 1))
  {
  }

  lemma InsertedDistinct(s: seq<Addr>, i: int, node: Addr)
    requires Distinct(s) && 0 <= i < |s| && node != NULL && forall k :: 0 <= k < |s| ==> s[k] != node
    ensures Distinct(Inserted(s, i, node))
  {
    var t := Inserted(s, i, node);
    forall a, b | 0 <= a < |t| && 0 <= b < |t| && a != b
      ensures t[a] != NULL && t[a] != t[b]
    {
      InsertedAt(s, i, node, a);
      InsertedAt(s, i, node, b);
    }
    forall a | 0 <= a < |t|
      ensures t[a] != NULL
    {
      InsertedAt(s, i, node, a);
    }
  }

  lemma DeletedDistinct(s: seq<Addr>, i: int)
    requires Distinct(s) && 0 <= i < |s|
    ensures Distinct(Deleted(s, i))
  {
    var t := Deleted(s, i);
    assert forall a :: 0 <= a < |t| ==> t[a] == if a < i then s[a] else s[a + 1];
  }

  predicate Kept(ptr: map<Addr, Addr>, p: map<Addr, Addr>, a: Addr)
  {
    a in ptr ==> a in p && p[a] == ptr[a]
  }

  /** The links that insert a node behind position `i`. */
  lemma InsertLinks(ptr: map<Addr, Addr>, s: seq<Addr>, i: int, node: Addr, p: map<Addr, Addr>)
    requires Encodes(ptr, s) && 0 <= i < |s| && node != NULL && forall k :: 0 <= k < |s| ==> s[k] != node
    requires node in p && p[node] == Xor(s[i], Right(s, i))
    requires s[i] in p && p[s[i]] == Xor(Left(s, i), node)
    requires i + 1 < |s| ==> s[i + 1] in p && p[s[i + 1]] == Xor(node, Right(s, i + 1))
    requires forall k :: 0 <= k < |s| && k != i && k != i + 1 ==> Kept(ptr, p, s[k])
    ensures Encodes(p, Inserted(s, i, node))
  {
    var t := Inserted(s, i, node);
    InsertedDistinct(s, i, node);
    forall k | 0 <= k < |t|
      ensures LinkOk(p, t, k)
    {
      InsertedAt(s, i, node, k);
      if k < i {
        assert LinkOk(ptr, s, k);
      } else if k > i + 2 {
        assert LinkOk(ptr, s, k - 1);
      }
    }
  }

  /** The links that leave out position `i`. */
  lemma DeleteLinks(ptr: map<Addr, Addr>, s: seq<Addr>, i: int, p: map<Addr, Addr>)
    requires Encodes(ptr, s) && 0 <= i < |s|
    requires i > 0 ==> s[i - 1] in p && p[s[i - 1]] == Xor(Left(s, i - 1), Right(s, i))
    requires i + 1 < |s| ==> s[i + 1] in p && p[s[i + 1]] == Xor(Right(s, i + 1), Left(s, i))
    requires forall k :: 0 <= k < |s| && k != i - 1 && k != i && k != i + 1 ==> Kept(ptr, p, s[k])
    ensures Encodes(p, Deleted(s, i))
  {
    var t := Deleted(s, i);
    DeletedDistinct(s, i);
    forall k | 0 <= k < |t|
      ensures LinkOk(p, t, k)
    {
      DeletedAt(s, i, k);
      if k < i - 1 {
        assert LinkOk(ptr, s, k);
      } else if k > i {
        assert LinkOk(ptr, s, k + 1);
      } else if k == i {
        XorCancels(Left(s, i), Right(s, i + 1));
      }
    }
  }

  // ----- the code

  class Memory {
    var ptr: map<Addr, Addr>

    constructor ()
      ensures ptr == map[]
    {
      ptr := map[];
    }

    /** xlist_next. */
    function Next(prev: Addr, cur: Addr): Addr
      requires cur != NULL ==> cur in ptr
      reads this
    {
      if cur == NULL then NULL else Xor(prev, ptr[cur])
    }

    /** xlist_prev. */
    function Prev(at: Addr, next: Addr): Addr
      requires at != NULL ==> at in ptr
      reads this
    {
      if at == NULL then NULL else Xor(ptr[at], next)
    }

    /** From a node and one neighbour, the links give the other neighbour. */
    lemma Neighbours(s: seq<Addr>, i: int)
      requires Encodes(ptr, s) && 0 <= i < |s|
      ensures s[i] in ptr && Next(Left(s, i), s[i]) == Right(s, i) && Prev(s[i], Right(s, i)) == Left(s, i)
    {
      assert LinkOk(ptr, s, i);
      XorCancels(Left(s, i), Right(s, i));
    }

    /** What the code computes from the links of both neighbours. */
    lemma Around(s: seq<Addr>, i: int)
      requires Encodes(ptr, s) && 0 <= i < |s|
      ensures s[i] in ptr && s[i] != NULL && Next(Left(s, i), s[i]) == Right(s, i)
      ensures i + 1 < |s| ==> s[i + 1] in ptr && Right(s, i) != NULL && Xor(ptr[s[i + 1]], s[i]) == Right(s, i + 1)
      ensures i > 0 ==> s[i - 1] in ptr && Left(s, i) != NULL && Prev(s[i - 1], s[i]) == Left(s, i - 1)
    {
      Neighbours(s, i);
      if i + 1 < |s| {
        assert LinkOk(ptr, s, i + 1);
        XorCancels(s[i], Right(s, i + 1));
      }
      if i > 0 {
        Neighbours(s, i - 1);
      }
    }

    /** xlist_add: `node` goes behind `curr`, whose other neighbour is `prev`. */
    method Add(prev: Addr, curr: Addr, node: Addr, ghost s: seq<Addr>, ghost i: int) returns (rc: int)
      requires Encodes(ptr, s) && 0 <= i < |s| && curr == s[i] && prev == Left(s, i)
      requires node != NULL && forall k :: 0 <= k < |s| ==> s[k] != node
      modifies this
      ensures rc == 0 && Encodes(ptr, Inserted(s, i, node))
    {
      Around(s, i);
      XorZero(curr);
      ghost var before := ptr;
      var next := Next(prev, curr);
      if next == NULL {
        ptr := ptr[curr := Xor(prev, node)];
        ptr := ptr[node := curr];
      } else {
        var nextNext := Xor(ptr[next], curr);
        ptr := ptr[curr := Xor(prev, node)];
        ptr := ptr[node := Xor(curr, next)];
        ptr := ptr[next := if nextNext != 0 then Xor(node, nextNext) else Xor(node, 0)];
      }
      InsertLinks(before, s, i, node, ptr);
      rc := 0;
    }

    /** xlist_remove: takes `node` out and returns an error even so. */
    method Remove(prev: Addr, node: Addr, ghost s: seq<Addr>, ghost i: int) returns (rc: int)
      requires Encodes(ptr, s)
      requires node != NULL ==> 0 <= i < |s| && node == s[i] && prev == Left(s, i)
      modifies this
      ensures rc == -EINVAL
      ensures if node == NULL then ptr == old(ptr) else Encodes(ptr, Deleted(s, i)) && node in ptr && ptr[node] == NULL
    {
      if node == NULL {
        return -EINVAL;
      }
      Around(s, i);
      ghost var before := ptr;
      var next := Next(prev, node);
      var prevPrev := if prev != NULL then Prev(prev, node) else 0;
      var nextNext := if next != NULL then Xor(ptr[next], node) else 0;
      if prev != NULL {
        ptr := ptr[prev := Xor(prevPrev, next)];
      }
      if next != NULL {
        ptr := ptr[next := Xor(nextNext, prev)];
      }
      ptr := ptr[node := NULL];
      DeleteLinks(before, s, i, ptr);
      rc := -EINVAL;
    }

    /** xlist_for_each from the node `h`: it goes over the list from that end to the other,
        and ends. */
    method ForEach(h: Addr, ghost s: seq<Addr>) returns (visited: seq<Addr>)
      requires Encodes(ptr, s) && h == if s == [] then NULL else s[0]
      ensures visited == s
    {
      var p, c, t := NULL, h, NULL;
      visited := [];
      while c != NULL
        invariant |visited| <= |s| && visited == s[..|visited|]
        invariant c == (if |visited| < |s| then s[|visited|] else NULL)
        invariant |visited| < |s| ==> p == Left(s, |visited|)
        decreases |s| - |visited|
      {
        ghost var k := |visited|;
        Neighbours(s, k);
        visited := visited + [c];
        t := c;
        c := Next(p, c);
        p := t;
      }
    }

    /** From either end: the list, or the reversed list. */
    method ForEachBack(h: Addr, ghost s: seq<Addr>) returns (visited: seq<Addr>)
      requires Encodes(ptr, s) && h == if s == [] then NULL else s[|s| - 1]
      ensures visited == Reversed(s)
    {
      EncodesReversed(ptr, s);
      visited := ForEach(h, Reversed(s));
    }
  }
}
