/** confdata.c: the walk over the menu tree that needs no stack, only the links to the
    first child, the next sibling and the parent. */
module MenuWalk {
  import opened Sequences

  class Symbol {
    const choice: bool        // SYMBOL_CHOICE
    const wanted: bool        // whether sym_calc_value marks it to be written
    const group: Symbol?      // the choice of a choice value
    var deps: seq<Symbol>     // the symbols whose values it needs
    var needSet: bool         // SYMBOL_NEED_SET_CHOICE_VALUES
    var valid: bool           // SYMBOL_VALID
    var write: bool           // SYMBOL_WRITE

    constructor (choice: bool, wanted: bool, group: Symbol?)
    {
      this.choice, this.wanted, this.group := choice, wanted, group;
      deps, needSet, valid, write := [], false, false, false;
    }

    /** The mark the symbol has, or will have once it is calculated; only a choice value keeps
        one it has. */
    ghost predicate Marked()
      reads this`valid, this`write
    {
      if valid then write else wanted || (group != null && write)
    }
  }

  class Menu {
    const sym: Symbol?
    var list: Menu?
    var next: Menu?
    var parent: Menu?

    constructor (sym: Symbol?)
    {
      this.sym, list, next, parent := sym, null, null, null;
    }
  }

  /** Menus with the same parent, in order, each with the menus below it. */
  datatype Forest = Nil | Cons(menu: Menu, kids: Forest, rest: Forest)

  function Head(f: Forest): Menu?
  {
    if f.Nil? then null else f.menu
  }

  function Nodes(f: Forest): set<Menu>
  {
    if f.Nil? then {} else {f.menu} + Nodes(f.kids) + Nodes(f.rest)
  }

  /** Pre-order. */
  function Pre(f: Forest): seq<Menu>
  {
    if f.Nil? then [] else [f.menu] + Pre(f.kids) + Pre(f.rest)
  }

  function Size(f: Forest): nat
  {
    if f.Nil? then 0 else 1 + Size(f.kids) + Size(f.rest)
  }

  /** The links of the menus make up the forest. */
  ghost predicate Wired(f: Forest, parent: Menu?)
    reads Nodes(f)`list, Nodes(f)`next, Nodes(f)`parent
  {
    f.Cons? ==>
      && f.menu.list == Head(f.kids) && f.menu.next == Head(f.rest) && f.menu.parent == parent
      && Wired(f.kids, f.menu) && Wired(f.rest, parent)
  }

  ghost predicate MenuTree(root: Menu, f: Forest)
    reads root`list, root`next, root`parent, Nodes(f)`list, Nodes(f)`next, Nodes(f)`parent
  {
    root.list == Head(f) && root.next == null && root.parent == null && Wired(f, root)
  }

  // ----- a linked forest repeats no menu

  predicate Within(s: seq<Menu>, nodes: set<Menu>)
  {
    forall i :: 0 <= i < |s| ==> s[i] in nodes
  }

  lemma {:induction false} PreWithin(f: Forest, s: seq<Menu>)
    requires s == Pre(f)
    ensures Within(s, Nodes(f))
  {
    if f.Cons? {
      var a, b := Pre(f.kids), Pre(f.rest);
      PreWithin(f.kids, a);
      PreWithin(f.rest, b);
      forall i | 0 <= i < |s|
        ensures s[i] in Nodes(f)
      {
        assert s[i] == if i == 0 then f.menu else if i <= |a| then a[i - 1] else b[i - 1 - |a|];
      }
    }
  }

  lemma {:induction false} PreCovers(f: Forest, m: Menu)
    requires m in Nodes(f)
    ensures m in Pre(f)
  {
    if m in Nodes(f.kids) {
      PreCovers(f.kids, m);
    } else if m in Nodes(f.rest) {
      PreCovers(f.rest, m);
    }
  }

  /** The first menu determines all of them. */
  lemma {:induction false} SameHead(f: Forest, g: Forest, p: Menu?, q: Menu?)
    requires Wired(f, p) && Wired(g, q) && Head(f) == Head(g)
    ensures f == g
  {
    if f.Cons? {
      SameHead(f.kids, g.kids, f.menu, g.menu);
      SameHead(f.rest, g.rest, p, q);
    }
  }

  /** The part of a forest that starts at one of its menus. */
  lemma {:induction false} PartAt(f: Forest, p: Menu?, m: Menu) returns (g: Forest, q: Menu?)
    requires Wired(f, p) && m in Nodes(f)
    ensures Head(g) == m && Size(g) <= Size(f) && Nodes(g) <= Nodes(f) && Wired(g, q)
  {
    if f.menu == m {
      g, q := f, p;
    } else if m in Nodes(f.kids) {
      g, q := PartAt(f.kids, f.menu, m);
    } else {
      g, q := PartAt(f.rest, p, m);
    }
  }

  /** No menu is below or behind itself. */
  lemma NotAgain(f: Forest, p: Menu?)
    requires f.Cons? && Wired(f, p)
    ensures f.menu !in Nodes(f.kids) && f.menu !in Nodes(f.rest)
  {
    if f.menu in Nodes(f.kids) {
      var g, q := PartAt(f.kids, f.menu, f.menu);
      SameHead(f, g, p, q);
    }
    if f.menu in Nodes(f.rest) {
      var g, q := PartAt(f.rest, p, f.menu);
      SameHead(f, g, p, q);
    }
  }

  lemma {:induction false} ParentIn(f: Forest, p: Menu?, m: Menu)
    requires Wired(f, p) && m in Nodes(f)
    ensures m.parent == p || m.parent in Nodes(f)
  {
    if m in Nodes(f.kids) {
      ParentIn(f.kids, f.menu, m);
    } else if m in Nodes(f.rest) {
      ParentIn(f.rest, p, m);
    }
  }

  /** What is below one menu is not among its later siblings. */
  lemma {:induction false} Apart(k: Forest, m: Menu, r: Forest, p: Menu)
    requires Wired(k, m) && Wired(r, p) && m !in Nodes(r) && m != p && p !in Nodes(k)
    ensures Nodes(k) !! Nodes(r)
  {
    if k.Cons? {
      if k.menu in Nodes(r) {
        ParentIn(r, p, k.menu);
      }
      Apart(k.kids, k.menu, r, p);
      Apart(k.rest, m, r, p);
    }
  }

  lemma {:induction false} PreDistinct(f: Forest, p: Menu)
    requires Wired(f, p) && p !in Nodes(f)
    ensures NoDups(Pre(f))
  {
    if f.Cons? {
      NotAgain(f, p);
      PreDistinct(f.kids, f.menu);
      PreDistinct(f.rest, p);
      Apart(f.kids, f.menu, f.rest, p);
      var a, b, inA, inB := Pre(f.kids), Pre(f.rest), Nodes(f.kids), Nodes(f.rest);
      PreWithin(f.kids, a);
      PreWithin(f.rest, b);
      Joined(f.menu, a, b, inA, inB);
    }
  }

  lemma Joined(m: Menu, a: seq<Menu>, b: seq<Menu>, inA: set<Menu>, inB: set<Menu>)
    requires NoDups(a) && NoDups(b) && Within(a, inA) && Within(b, inB) && inA !! inB && m !in inA + inB
    ensures NoDups([m] + a + b)
  {
    NoDupsJoin(a, b);
    assert [m] + a + b == [m] + (a + b) && ([m] + (a + b))[1..] == a + b;
  }

  /** A menu tree holds every menu once, and the root is not among its descendants. */
  lemma TreeDistinct(root: Menu, f: Forest)
    requires MenuTree(root, f)
    ensures NoDups(Pre(f)) && root !in Nodes(f) && forall m :: m in Nodes(f) ==> m in Pre(f)
  {
    forall m | m in Nodes(f)
      ensures m in Pre(f)
    {
      PreCovers(f, m);
    }
    if root in Nodes(f) {
      var g, q := PartAt(f, root, root);
      SameHead(f, g.kids, root, root);
    }
    PreDistinct(f, root);
  }

  // ----- what is written

  /** The symbols written for a run of menus when those in `marked` carry the flag: no
      choices, and each symbol where it is met first. */
  ghost function Written(ms: seq<Menu>, marked: set<Symbol>): seq<Symbol>
  {
    if ms == [] then []
    else
      var sym := ms[0].sym;
      if sym != null && !sym.choice && sym in marked then [sym] + Written(ms[1..], marked - {sym})
      else Written(ms[1..], marked)
  }

  ghost predicate Occurs(ms: seq<Menu>, s: Symbol)
  {
    ms != [] && (ms[0].sym == s || Occurs(ms[1..], s))
  }

  /** Exactly the marked symbols of the menus that are no choice are written, once each. */
  lemma {:induction false} WrittenOnce(ms: seq<Menu>, marked: set<Symbol>)
    ensures forall s :: s in Written(ms, marked) <==> s in marked && !s.choice && Occurs(ms, s)
    ensures NoDups(Written(ms, marked))
  {
    if ms != [] {
      var sym, rest := ms[0].sym, ms[1..];
      if sym != null && !sym.choice && sym in marked {
        WrittenOnce(rest, marked - {sym});
        assert Written(ms, marked)[1..] == Written(rest, marked - {sym});
      } else {
        WrittenOnce(rest, marked);
      }
    }
  }

  // ----- the walk

  /** The menus above the current one, each with its later siblings. */
  datatype Context = Top | Up(menu: Menu, rest: Forest, up: Context)

  function Owner(c: Context): Menu?
  {
    if c.Top? then null else c.menu
  }

  function AllNodes(c: Context): set<Menu>
  {
    if c.Top? then {} else {c.menu} + Nodes(c.rest) + AllNodes(c.up)
  }

  ghost predicate Above(c: Context)
    reads AllNodes(c)`list, AllNodes(c)`next, AllNodes(c)`parent
  {
    c.Up? ==> c.menu.next == Head(c.rest) && c.menu.parent == Owner(c.up) && Wired(c.rest, Owner(c.up)) && Above(c.up)
  }

  /** What is still to be visited after the current subtree. */
  function Pending(c: Context): seq<Menu>
  {
    if c.Top? then [] else Pre(c.rest) + Pending(c.up)
  }

  lemma Regroup(a: seq<Menu>, b: seq<Menu>, c: seq<Menu>, d: seq<Menu>)
    ensures a + b + c + d == a + (b + (c + d))
  {
  }

  /** The menu is next; its subtree, its later siblings and the rest follow. */
  lemma Unfold(f: Forest, c: Context)
    requires f.Cons?
    ensures Pre(f) + Pending(c) == [f.menu] + (Pre(f.kids) + Pending(Up(f.menu, f.rest, c)))
    ensures f.kids.Nil? ==> Pre(f) + Pending(c) == [f.menu] + (Pre(f.rest) + Pending(c))
    ensures f.kids.Nil? && f.rest.Nil? ==> Pre(f) + Pending(c) == [f.menu] + Pending(c)
  {
    var k, r, p := Pre(f.kids), Pre(f.rest), Pending(c);
    Regroup([f.menu], k, r, p);
    assert Pending(Up(f.menu, f.rest, c)) == r + p;
    assert [] + (r + p) == r + p && [] + p == p;
  }

  /** `else while ((menu = menu->parent)) if (menu->next) ...`: up to the next sibling of
      the closest menu above that has one. */
  method Climb(menu0: Menu, ghost ctx0: Context) returns (menu: Menu?, ghost cur: Forest, ghost ctx: Context)
    requires menu0.parent == Owner(ctx0) && Above(ctx0)
    ensures menu == Head(cur) && Wired(cur, Owner(ctx)) && Above(ctx)
    ensures Pre(cur) + Pending(ctx) == Pending(ctx0) && (menu == null ==> Pending(ctx0) == [])
  {
    menu, ctx, cur := menu0.parent, ctx0, Nil;
    while menu != null && menu.next == null
      invariant menu == Owner(ctx) && Above(ctx) && Pending(ctx) == Pending(ctx0)
      decreases ctx
    {
      assert Pending(ctx) == [] + Pending(ctx.up);
      menu := menu.parent;
      ctx := ctx.up;
    }
    if menu != null {
      menu := menu.next;
      cur, ctx := ctx.rest, ctx.up;
    }
    assert menu == null ==> Pending(ctx) == [];
  }

  // ----- calculating a symbol

  /** The marks of `syms`, but for the symbols that are just being calculated. */
  ghost predicate Marks(syms: set<Symbol>, marked: set<Symbol>, busy: set<Symbol>)
    reads syms`valid, syms`write
  {
    forall s :: s in syms ==> if s in busy then s.valid else s.Marked() <==> s in marked
  }

  ghost predicate Closed(syms: set<Symbol>)
    reads syms`deps, syms`needSet
  {
    && (forall s :: s in syms && s.needSet ==> s.choice || s.group != null)
    && (forall s :: s in syms && s.group != null ==> s.group in syms)
    && (forall s, i :: s in syms && 0 <= i < |s.deps| ==> s.deps[i] in syms)
  }

  ghost function Invalid(syms: set<Symbol>): set<Symbol>
    reads syms`valid
  {
    set s | s in syms && !s.valid
  }

  ghost function Needing(syms: set<Symbol>): set<Symbol>
    reads syms`needSet
  {
    set s | s in syms && s.needSet
  }

  /** What was calculated stays as it is, and no flag is set again. */
  twostate predicate Kept(syms: set<Symbol>)
    reads syms`needSet, syms`valid, syms`write
  {
    forall s :: s in syms ==> (old(s.valid) ==> s.valid && s.write == old(s.write)) && (s.needSet ==> old(s.needSet))
  }

  /** Fewer symbols carry the flag, or as many and no more are to be calculated. */
  ghost predicate NotAbove(syms: set<Symbol>, needing: set<Symbol>, invalid: set<Symbol>)
    reads syms`needSet, syms`valid
  {
    Needing(syms) < needing || (Needing(syms) == needing && Invalid(syms) <= invalid)
  }

  ghost predicate Beneath(syms: set<Symbol>, needing: set<Symbol>, invalid: set<Symbol>)
    reads syms`needSet, syms`valid
  {
    Needing(syms) < needing || (Needing(syms) == needing && Invalid(syms) < invalid)
  }

  /** sym_calc_value, as far as the flags go: a valid symbol is left alone. Another is made
      valid after its choice was calculated, then the symbols it needs are calculated, which
      may lead back to it, and it gets its mark. It ends, and decides no mark differently;
      only a choice may ask to be calculated once more. */
  method Calc(sym: Symbol, ghost syms: set<Symbol>, ghost marked: set<Symbol>, ghost busy: set<Symbol>)
    requires sym in syms && Closed(syms) && Marks(syms, marked, busy)
    modifies syms`needSet, syms`valid, syms`write
    ensures Closed(syms) && Marks(syms, marked, busy) && Kept(syms) && (sym.valid || sym.choice)
    ensures NotAbove(syms, old(Needing(syms)), old(Invalid(syms)))
    decreases Needing(syms), Invalid(syms), 1
  {
    if sym.valid {
      return;
    }
    ghost var needing, invalid := Needing(syms), Invalid(syms);
    CalcChoice(sym, syms, marked, busy);
    Begin(sym, syms, marked, busy, needing, invalid);
    CalcNeeded(sym, syms, marked, busy, needing, invalid);
    End(sym, syms, marked, busy, needing, invalid);
  }

  /** `sym->flags |= SYMBOL_VALID;` and the old mark goes, but for a choice value. */
  method Begin(sym: Symbol, ghost syms: set<Symbol>, ghost marked: set<Symbol>, ghost busy: set<Symbol>,
               ghost needing: set<Symbol>, ghost invalid: set<Symbol>)
    requires sym in syms && sym !in busy && sym in invalid && Marks(syms, marked, busy) && NotAbove(syms, needing, invalid)
    requires (sym.wanted ==> sym in marked) && (sym.group == null ==> !sym.valid)
    modifies sym`valid, sym`write
    ensures sym.valid && Marks(syms, marked, busy + {sym}) && Beneath(syms, needing, invalid)
    ensures (sym.wanted || sym.write <==> sym in marked) && (sym.group == null ==> !sym.write)
  {
    sym.valid, sym.write := true, sym.group != null && sym.write;
    assert sym !in Invalid(syms);
  }

  /** The symbol gets its mark; a choice that still carries the flag is to be calculated
      once more. */
  method End(sym: Symbol, ghost syms: set<Symbol>, ghost marked: set<Symbol>, ghost busy: set<Symbol>,
             ghost needing: set<Symbol>, ghost invalid: set<Symbol>)
    requires sym in syms && sym !in busy && sym.valid && Closed(syms) && Marks(syms, marked, busy + {sym})
    requires Beneath(syms, needing, invalid) && (sym.group != null ==> !sym.needSet)
    requires (sym.wanted || sym.write <==> sym in marked) && (sym.group == null ==> !sym.write)
    modifies sym`needSet, sym`valid, sym`write
    ensures Closed(syms) && Marks(syms, marked, busy) && NotAbove(syms, needing, invalid)
    ensures (sym.valid || sym.choice) && (sym.needSet ==> old(sym.needSet))
  {
    sym.write := sym.wanted || sym.write;
    if sym.needSet {
      assert sym in Needing(syms);
      sym.needSet, sym.valid := false, false;
      assert sym !in Needing(syms);
    }
  }

  /** The choice of a choice value comes first when the value asks for it; that may
      calculate the value already. */
  method CalcChoice(sym: Symbol, ghost syms: set<Symbol>, ghost marked: set<Symbol>, ghost busy: set<Symbol>)
    requires sym in syms && Closed(syms) && Marks(syms, marked, busy)
    modifies syms`needSet, syms`valid, syms`write
    ensures Closed(syms) && Marks(syms, marked, busy) && Kept(syms)
    ensures if sym.group == null then sym.valid == old(sym.valid) else !sym.needSet
    ensures NotAbove(syms, old(Needing(syms)), old(Invalid(syms)))
    decreases Needing(syms), Invalid(syms), 0
  {
    if sym.group != null && sym.needSet {
      assert sym in Needing(syms);
      sym.needSet := false;
      assert sym !in Needing(syms);
      Calc(sym.group, syms, marked, busy);
    }
  }

  /** The symbols that a symbol needs; its own mark is still open. */
  method CalcNeeded(sym: Symbol, ghost syms: set<Symbol>, ghost marked: set<Symbol>, ghost busy: set<Symbol>,
                    ghost needing: set<Symbol>, ghost invalid: set<Symbol>)
    requires sym in syms && sym.valid && Closed(syms) && Marks(syms, marked, busy + {sym}) && Beneath(syms, needing, invalid)
    modifies syms`needSet, syms`valid, syms`write
    ensures Closed(syms) && Marks(syms, marked, busy + {sym}) && Kept(syms) && Beneath(syms, needing, invalid)
    decreases needing, invalid, 0
  {
    var i := 0;
    while i < |sym.deps|
      invariant 0 <= i <= |sym.deps| && Closed(syms) && Marks(syms, marked, busy + {sym}) && Kept(syms)
      invariant Beneath(syms, needing, invalid)
    {
      Calc(sym.deps[i], syms, marked, busy + {sym});
      i := i + 1;
    }
  }

  lemma {:induction false} NodesAllocated(f: Forest)
    ensures forall m :: m in Nodes(f) ==> allocated(m)
  {
    if f.Cons? {
      NodesAllocated(f.kids);
      NodesAllocated(f.rest);
    }
  }

  lemma {:induction false} AllAllocated(c: Context)
    ensures forall m :: m in AllNodes(c) ==> allocated(m)
  {
    if c.Up? {
      NodesAllocated(c.rest);
      AllAllocated(c.up);
    }
  }

  /** What the loop does for one menu: its symbol is calculated, and when it is marked it
      is written and its mark cleared; the links stay. */
  method Visit(menu: Menu, ghost syms: set<Symbol>, ghost marked: set<Symbol>, ghost rest: seq<Menu>,
               ghost cur: Forest, ghost ctx: Context)
    returns (out: seq<Symbol>, ghost left: set<Symbol>)
    requires (menu.sym != null ==> menu.sym in syms) && Closed(syms) && Marks(syms, marked, {})
    requires Wired(cur, Owner(ctx)) && Above(ctx)
    modifies syms`needSet, syms`valid, syms`write
    ensures Wired(cur, Owner(ctx)) && Above(ctx) && Closed(syms) && Marks(syms, left, {})
    ensures out + Written(rest, left) == Written([menu] + rest, marked)
  {
    hide Wired, Above;
    NodesAllocated(cur);
    AllAllocated(ctx);
    out, left := [], marked;
    var sym := menu.sym;
    if sym != null && !sym.choice {
      Calc(sym, syms, marked, {});
      if sym.write {
        sym.write := false;
        out, left := [sym], marked - {sym};
      }
    }
    assert ([menu] + rest)[1..] == rest;
  }

  /** The step to the next menu: the first child, else the next sibling, else up. */
  method Advance(menu: Menu, ghost cur: Forest, ghost ctx: Context)
    returns (after: Menu?, ghost cur2: Forest, ghost ctx2: Context)
    requires cur.Cons? && menu == cur.menu && Wired(cur, Owner(ctx)) && Above(ctx)
    ensures after == Head(cur2) && Wired(cur2, Owner(ctx2)) && Above(ctx2)
    ensures Pre(cur) + Pending(ctx) == [menu] + (Pre(cur2) + Pending(ctx2))
    ensures after == null ==> Pre(cur2) + Pending(ctx2) == []
  {
    Unfold(cur, ctx);
    if menu.list != null {
      after := menu.list;
      cur2, ctx2 := cur.kids, Up(cur.menu, cur.rest, ctx);
    } else if menu.next != null {
      after := menu.next;
      cur2, ctx2 := cur.rest, ctx;
    } else {
      after, cur2, ctx2 := Climb(menu, ctx);
    }
  }

  predicate SymbolsOf(ms: seq<Menu>, syms: set<Symbol>)
  {
    forall i :: 0 <= i < |ms| && ms[i].sym != null ==> ms[i].sym in syms
  }

  /** The loop of conf_write: it visits the descendants of the root once each, in
      pre-order, calculates their symbols, writes every symbol that is marked once it is
      calculated, and ends. */
  method Walk(root: Menu, ghost f: Forest, ghost syms: set<Symbol>)
    returns (visited: seq<Menu>, out: seq<Symbol>)
    requires MenuTree(root, f) && SymbolsOf(Pre(f), syms) && Closed(syms)
    modifies syms`needSet, syms`valid, syms`write
    ensures visited == Pre(f)
    ensures out == Written(Pre(f), set s | s in syms && old(s.Marked()))
  {
    visited, out := [], [];
    var menu := root.list;
    ghost var cur, ctx, todo := f, Up(root, Nil, Top), Pre(f);
    ghost var marked := set s | s in syms && s.Marked();
    ghost var all, goal, left := Pre(f), Written(Pre(f), marked), marked;
    assert todo == Pre(cur) + Pending(ctx);
    while menu != null
      invariant menu == Head(cur) && Wired(cur, Owner(ctx)) && Above(ctx) && Closed(syms) && Marks(syms, left, {})
      invariant todo == Pre(cur) + Pending(ctx) && (menu == null ==> todo == []) && SymbolsOf(todo, syms)
      invariant Progress(all, goal, visited, out, todo, Written(todo, left))
      decreases |todo|
    {
      var at := menu;
      menu, cur, ctx := Advance(at, cur, ctx);
      ghost var rest := Pre(cur) + Pending(ctx);
      SymbolsLater(at, rest, syms);
      ghost var was := left;
      var o;
      o, left := Visit(at, syms, left, rest, cur, ctx);
      ProgressStep(all, goal, visited, out, at, o, rest, Written(rest, left), Written([at] + rest, was));
      todo, visited, out := rest, visited + [at], out + o;
    }
  }

  /** What is visited and written, and what is still to come, make up the whole. */
  predicate Progress(all: seq<Menu>, goal: seq<Symbol>, visited: seq<Menu>, out: seq<Symbol>, todo: seq<Menu>, more: seq<Symbol>)
  {
    visited + todo == all && out + more == goal
  }

  lemma ProgressStep(all: seq<Menu>, goal: seq<Symbol>, visited: seq<Menu>, out: seq<Symbol>, at: Menu, o: seq<Symbol>,
                     rest: seq<Menu>, later: seq<Symbol>, more: seq<Symbol>)
    requires Progress(all, goal, visited, out, [at] + rest, more) && more == o + later
    ensures Progress(all, goal, visited + [at], out + o, rest, later)
  {
    assert visited + ([at] + rest) == (visited + [at]) + rest;
    assert out + (o + later) == (out + o) + later;
  }

  lemma SymbolsLater(at: Menu, rest: seq<Menu>, syms: set<Symbol>)
    requires SymbolsOf([at] + rest, syms)
    ensures SymbolsOf(rest, syms) && (at.sym != null ==> at.sym in syms)
  {
    var todo := [at] + rest;
    assert todo[0] == at && forall i :: 0 <= i < |rest| ==> rest[i] == todo[i + 1];
  }
}
