/** How much unifdef decides: when the value of a condition is known, that this is exactly
    when the unknown symbols cannot change it, and how conditions are read. */
module UnifdefDecides {
  import opened UnifdefExpr
  import opened UnifdefGrammar
  import opened UnifdefEval
  import opened Sequences
  import opened Wrappers

  // ----- when the value of an operator is known

  /** Without -K one false operand makes && false, whatever the other is; with -K both
      have to be known. */
  lemma AndDecided(syms: Symbols, strict: bool, l: Expr, r: Expr)
    ensures var a, b, t := Eval3(syms, strict, l), Eval3(syms, strict, r), Eval3(syms, strict, Bin(And, l, r));
            && (t == Known(0) <==> (a == Known(0) || b == Known(0)) && (strict ==> a.Known? && b.Known?))
            && (t == Known(1) <==> a.Known? && a.v != 0 && b.Known? && b.v != 0)
            && (t.Known? ==> t.v == 0 || t.v == 1)
  {
  }

  /** Without -K one true operand makes || true. */
  lemma OrDecided(syms: Symbols, strict: bool, l: Expr, r: Expr)
    ensures var a, b, t := Eval3(syms, strict, l), Eval3(syms, strict, r), Eval3(syms, strict, Bin(Or, l, r));
            && (t == Known(1) <==>
                  ((a.Known? && a.v != 0) || (b.Known? && b.v != 0)) && (strict ==> a.Known? && b.Known?))
            && (t == Known(0) <==> a == Known(0) && b == Known(0))
            && (t.Known? ==> t.v == 0 || t.v == 1)
  {
  }

  /** A comparison is known exactly when both operands are, and ! when its operand is. */
  lemma ComparisonDecided(syms: Symbols, strict: bool, op: BinOp, l: Expr, r: Expr)
    requires !op.Or? && !op.And?
    ensures var a, b, t := Eval3(syms, strict, l), Eval3(syms, strict, r), Eval3(syms, strict, Bin(op, l, r));
            && (t.Known? <==> a.Known? && b.Known?)
            && (t.Known? ==> (t.v == 1 <==> CCompares(op, a.v, b.v)) && (t.v == 0 || t.v == 1))
    ensures var a, t := Eval3(syms, strict, l), Eval3(syms, strict, Neg(l));
            (t == Known(1) <==> a == Known(0)) && (t == Known(0) <==> a.Known? && a.v != 0) && (t.Known? <==> a.Known?)
  {
  }

  /** A symbol is known exactly when it is given with -U, or with -D and an integer;
      `defined` is known for every symbol that is given, also with a text. */
  lemma SymbolDecided(syms: Symbols, strict: bool, name: string, paren: bool)
    ensures Eval3(syms, strict, Sym(name)).Known? <==> name in syms && (syms[name].def.Undefined? || syms[name].def.Integer?)
    ensures name in syms && syms[name].def.Undefined? ==> Eval3(syms, strict, Sym(name)) == Known(0)
    ensures name in syms && syms[name].def.Integer? && Fits(syms[name].def.v) ==>
      Eval3(syms, strict, Sym(name)) == Known(syms[name].def.v)
    ensures Eval3(syms, strict, DefinedOf(paren, [Ident(name)])).Known? <==> name in syms
    ensures name in syms && syms[name].def.Undefined? ==> Eval3(syms, strict, DefinedOf(paren, [Ident(name)])) == Known(0)
    ensures name in syms && !syms[name].def.Undefined? ==> Eval3(syms, strict, DefinedOf(paren, [Ident(name)])) == Known(1)
  {
    if name in syms && syms[name].def.Integer? {
      ToIntExact(syms[name].def.v);
    }
  }

  // ----- known exactly when all completions agree

  /** The unknown symbols and calls on which the value may depend. */
  function OpenNames(syms: Symbols, e: Expr): set<string>
  {
    if Eval3(syms, false, e).Known? then {}
    else match e
         case Sym(name) => {name}
         case Call(name, _) => {name}
         case DefinedOf(_, word) => if word != [] && word[0].IsWord() then {word[0].Spelling()} else {}
         case Neg(f) => OpenNames(syms, f)
         case Paren(f) => OpenNames(syms, f)
         case Bin(_, l, r) => OpenNames(syms, l) + OpenNames(syms, r)
         case _ => {}
  }

  /** The part that is unknown is made of symbols, calls and `defined` by !, && and ||, and
      has each of them once. */
  predicate ReadOnce(syms: Symbols, e: Expr)
  {
    Eval3(syms, false, e).Known? ||
    match e
    case Sym(name) => true
    case Call(name, _) => name !in syms
    case DefinedOf(_, word) => word != [] && word[0].IsWord()
    case Neg(f) => ReadOnce(syms, f)
    case Paren(f) => ReadOnce(syms, f)
    case Bin(op, l, r) =>
      (op.Or? || op.And?) && ReadOnce(syms, l) && ReadOnce(syms, r) && OpenNames(syms, l) !! OpenNames(syms, r)
    case _ => false
  }

  /** What is filled in for a name: whether it counts as true, and whether it is defined. */
  datatype Fill = Fill(holds: bool, def: bool)

  function Filled(syms: Symbols, fills: map<string, Fill>): Completion
  {
    Completion(name => ValueIn(syms, fills, name), (name, args) => CallIn(syms, fills, name), toks => 0)
  }

  function ValueIn(syms: Symbols, fills: map<string, Fill>, name: string): Option<CNum>
  {
    if name in syms && syms[name].def.Undefined? then None
    else if name in syms && syms[name].def.Integer? then Some(CNum(syms[name].def.v, false))
    else if name in fills && (fills[name].def || name in syms) then Some(CNum(Bit(fills[name].holds), false))
    else if name in syms then Some(CNum(0, false))
    else None
  }

  function CallIn(syms: Symbols, fills: map<string, Fill>, name: string): CNum
  {
    if name in syms && syms[name].def.Integer? then CNum(syms[name].def.v, false)
    else if name in fills then CNum(Bit(fills[name].holds), false)
    else CNum(0, false)
  }

  ghost predicate Includes(more: map<string, Fill>, fills: map<string, Fill>)
  {
    forall name :: name in fills ==> name in more && more[name] == fills[name]
  }

  /** Whatever is filled in beside `fills`, the value of `e` is `b`. */
  ghost predicate Forces(syms: Symbols, e: Expr, fills: map<string, Fill>, b: bool)
  {
    forall more :: Includes(more, fills) ==> (CEval(Filled(syms, more), e).v != 0 <==> b)
  }

  lemma FilledAgrees(syms: Symbols, fills: map<string, Fill>)
    ensures Agrees(Filled(syms, fills), syms)
  {
  }

  /** A known value is that of every completion. */
  lemma KnownForces(syms: Symbols, level: nat, e: Expr, fills: map<string, Fill>)
    requires WellFormed(syms, level, e) && SymbolsFit(syms) && TreeFits(e) && Unmixed(syms, e) && Eval3(syms, false, e).Known?
    ensures Forces(syms, e, fills, Eval3(syms, false, e).v != 0)
  {
    forall more | Includes(more, fills)
      ensures CEval(Filled(syms, more), e).v != 0 <==> Eval3(syms, false, e).v != 0
    {
      FilledAgrees(syms, more);
      Eval3Sound(syms, false, level, e, Filled(syms, more));
    }
  }

  /** A symbol, a call or `defined` that is open can be filled in both ways. */
  lemma LeafForced(syms: Symbols, e: Expr, b: bool) returns (fills: map<string, Fill>)
    requires e.Sym? || e.Call? || e.DefinedOf?
    requires ReadOnce(syms, e) && Eval3(syms, false, e).Unknown?
    ensures fills.Keys == OpenNames(syms, e) && Forces(syms, e, fills, b)
  {
    var name := if e.DefinedOf? then e.word[0].Spelling() else e.name;
    fills := map[name := Fill(b, b)];
    forall more | Includes(more, fills)
      ensures CEval(Filled(syms, more), e).v != 0 <==> b
    {
      assert name in fills && more[name] == fills[name];
    }
  }

  lemma ForcesMore(syms: Symbols, e: Expr, fills: map<string, Fill>, more: map<string, Fill>, b: bool)
    requires Forces(syms, e, fills, b) && Includes(more, fills)
    ensures Forces(syms, e, more, b)
  {
    forall most | Includes(most, more)
      ensures CEval(Filled(syms, most), e).v != 0 <==> b
    {
      assert Includes(most, fills);
    }
  }

  lemma BothForced(syms: Symbols, op: BinOp, l: Expr, r: Expr, fills: map<string, Fill>, a: bool, b: bool)
    requires (op.And? || op.Or?) && Forces(syms, l, fills, a) && Forces(syms, r, fills, b)
    ensures Forces(syms, Bin(op, l, r), fills, if op.And? then a && b else a || b)
  {
  }

  /** Either value of one operand of && or || that is not decided can be reached, the
      other operand being what it is or taking the value that leaves the choice open. */
  lemma OperandForced(syms: Symbols, level: nat, e: Expr, b: bool) returns (fills: map<string, Fill>)
    requires WellFormed(syms, level, e) && SymbolsFit(syms) && TreeFits(e) && Unmixed(syms, e) && ReadOnce(syms, e)
    requires Eval3(syms, false, e).Known? ==> (Eval3(syms, false, e).v != 0 <==> b)
    ensures fills.Keys == OpenNames(syms, e) && Forces(syms, e, fills, b)
    decreases e, 2
  {
    if Eval3(syms, false, e).Known? {
      fills := map[];
      KnownForces(syms, level, e, fills);
    } else {
      fills := OpenForced(syms, level, e, b);
    }
  }

  /** An expression that is not known can take either value. */
  lemma {:induction false} OpenForced(syms: Symbols, level: nat, e: Expr, b: bool) returns (fills: map<string, Fill>)
    requires WellFormed(syms, level, e) && SymbolsFit(syms) && TreeFits(e) && Unmixed(syms, e) && ReadOnce(syms, e)
    requires Eval3(syms, false, e).Unknown?
    ensures fills.Keys == OpenNames(syms, e) && Forces(syms, e, fills, b)
    decreases e, 1
  {
    match e
    case Sym(_) => fills := LeafForced(syms, e, b);
    case Call(_, _) => fills := LeafForced(syms, e, b);
    case DefinedOf(_, _) => fills := LeafForced(syms, e, b);
    case Neg(f) =>
      fills := OpenForced(syms, 4, f, !b);
    case Paren(f) =>
      fills := OpenForced(syms, 0, f, b);
    case Bin(op, l, r) =>
      fills := PairForced(syms, op, l, r, b);
  }

  /** For the value that both operands must have, both take it; for the other, the one
      that is open does, and the second is left to take the same. */
  lemma PairForced(syms: Symbols, op: BinOp, l: Expr, r: Expr, b: bool) returns (fills: map<string, Fill>)
    requires WellFormed(syms, LevelOf(op), Bin(op, l, r)) && SymbolsFit(syms) && TreeFits(Bin(op, l, r)) && Unmixed(syms, Bin(op, l, r))
    requires ReadOnce(syms, Bin(op, l, r)) && Eval3(syms, false, Bin(op, l, r)).Unknown?
    ensures fills.Keys == OpenNames(syms, Bin(op, l, r)) && Forces(syms, Bin(op, l, r), fills, b)
    decreases Bin(op, l, r), 0
  {
    var t, u := Eval3(syms, false, l), Eval3(syms, false, r);
    var left, right := if t.Known? then t.v != 0 else b, if u.Known? then u.v != 0 else b;
    var fl := OperandForced(syms, LevelOf(op), l, left);
    var fr := OperandForced(syms, LevelOf(op) + 1, r, right);
    fills := fl + fr;
    ForcesMore(syms, l, fl, fills, left);
    ForcesMore(syms, r, fr, fills, right);
    BothForced(syms, op, l, r, fills, left, right);
  }

  /** Some completion that agrees with the command line gives the expression this value. */
  ghost predicate Possible(syms: Symbols, e: Expr, b: bool)
  {
    exists c: Completion :: Agrees(c, syms) && (CEval(c, e).v != 0 <==> b)
  }

  /** Without -K such an expression is decided exactly when the unknown symbols cannot
      change its value. */
  lemma DecidedExactly(syms: Symbols, level: nat, e: Expr)
    requires WellFormed(syms, level, e) && SymbolsFit(syms) && TreeFits(e) && Unmixed(syms, e) && ReadOnce(syms, e)
    ensures Eval3(syms, false, e).Known? <==> !(Possible(syms, e, true) && Possible(syms, e, false))
    ensures Eval3(syms, false, e).Known? ==> Possible(syms, e, Eval3(syms, false, e).v != 0)
  {
    if Eval3(syms, false, e).Known? {
      var b := Eval3(syms, false, e).v != 0;
      KnownForces(syms, level, e, map[]);
      FilledAgrees(syms, map[]);
      assert Includes(map[], map[]);
      if Possible(syms, e, !b) {
        var c: Completion :| Agrees(c, syms) && (CEval(c, e).v != 0 <==> !b);
        Eval3Sound(syms, false, level, e, c);
      }
    } else {
      CanBe(syms, level, e, true);
      CanBe(syms, level, e, false);
    }
  }

  lemma CanBe(syms: Symbols, level: nat, e: Expr, b: bool)
    requires WellFormed(syms, level, e) && SymbolsFit(syms) && TreeFits(e) && Unmixed(syms, e) && ReadOnce(syms, e)
    requires Eval3(syms, false, e).Unknown?
    ensures Possible(syms, e, b)
  {
    var fills := OpenForced(syms, level, e, b);
    FilledAgrees(syms, fills);
    assert Includes(fills, fills);
  }

  // ----- conditions

  /** Some word of the line is no number. */
  predicate HasIdent(toks: seq<Token>)
  {
    exists i :: 0 <= i < |toks| && toks[i].Ident?
  }

  lemma IdentIn(a: seq<Token>, b: seq<Token>)
    ensures HasIdent(a + b) <==> HasIdent(a) || HasIdent(b)
  {
    if i :| 0 <= i < |a| && a[i].Ident? {
      assert (a + b)[i].Ident?;
    }
    if i :| 0 <= i < |b| && b[i].Ident? {
      assert (a + b)[|a| + i].Ident?;
    }
  }

  /** A constant expression is one that is printed without identifiers. */
  lemma {:induction false} ConstantHasNoIdent(e: Expr)
    ensures HasSymbol(e) <==> HasIdent(Print(e))
  {
    match e
    case Lit(_, _) =>
    case Sym(_) => assert Print(e)[0].Ident?;
    case Call(_, _) => assert Print(e)[0].Ident?;
    case DefinedOf(_, _) => assert Print(e)[0].Ident?;
    case Neg(f) =>
      ConstantHasNoIdent(f);
      IdentIn([Not], Print(f));
    case Paren(f) =>
      ConstantHasNoIdent(f);
      IdentIn(Print(f), [Close]);
      IdentIn([Open], Print(f) + [Close]);
    case Bin(op, l, r) =>
      ConstantHasNoIdent(l);
      ConstantHasNoIdent(r);
      IdentIn([Op(op)], Print(r));
      IdentIn(Print(l), [Op(op)] + Print(r));
  }

  /** The verdict on a condition that reads as `e`: its value when that is known and, without
      -k, when it is not constant. */
  lemma VerdictExactly(o: Options, e: Expr)
    requires WellFormed(o.syms, 0, e)
    ensures var t, judged := Eval3(o.syms, o.strict, e), o.killconsts || HasIdent(Print(e));
            && (Classify(o, Print(e)) == LT_TRUE <==> judged && t.Known? && t.v != 0)
            && (Classify(o, Print(e)) == LT_FALSE <==> judged && t == Known(0))
  {
    GrammarExact(o.syms, Print(e), e);
    ConstantHasNoIdent(e);
  }

  /** What does not read as an expression is not judged. */
  lemma UnreadIsUnknown(o: Options, toks: seq<Token>)
    requires forall e :: WellFormed(o.syms, 0, e) ==> toks != Print(e)
    ensures Classify(o, toks) == LT_IF
  {
    var p := ParseLevel(o.syms, 0, toks);
    if p.Some? && p.value.rest == [] {
      GrammarExact(o.syms, toks, p.value.e);
    }
  }

  /** A condition whose unknown part is read once is judged exactly when C's answer is the
      same under every completion. */
  lemma JudgedExactly(o: Options, e: Expr)
    requires WellFormed(o.syms, 0, e) && ReadOnce(o.syms, e) && !o.strict && (o.killconsts || HasIdent(Print(e)))
    requires SymbolsFit(o.syms) && TreeFits(e) && Unmixed(o.syms, e)
    ensures Classify(o, Print(e)) == LT_TRUE <==> forall c :: Admits(o, c) ==> CTrue(c, Print(e))
    ensures Classify(o, Print(e)) == LT_FALSE <==> forall c :: Admits(o, c) ==> !CTrue(c, Print(e))
  {
    VerdictExactly(o, e);
    DecidedExactly(o.syms, 0, e);
    PlainlyWellFormed(o.syms, 0, e);
    hide Classify, Eval3, ReadOnce, Unmixed, TreeFits, Agrees, CTrue, CEval;
    forall c
      ensures CTrue(c, Print(e)) <==> CEval(c, e).v != 0
    {
      CTrueOfPrinted(c, e);
    }
    forall b
      ensures Possible(o.syms, e, b) <==> exists c :: Admits(o, c) && (CTrue(c, Print(e)) <==> b)
    {
      if Possible(o.syms, e, b) {
        var c: Completion :| Agrees(c, o.syms) && (CEval(c, e).v != 0 <==> b);
        assert Admits(o, c) && (CTrue(c, Print(e)) <==> b);
      }
    }
    assert Possible(o.syms, e, true) <==> exists c :: Admits(o, c) && (CTrue(c, Print(e)) <==> true);
    assert Possible(o.syms, e, false) <==> exists c :: Admits(o, c) && (CTrue(c, Print(e)) <==> false);
  }

  lemma {:induction false} PlainlyWellFormed(syms: Symbols, level: nat, e: Expr)
    requires WellFormed(syms, level, e)
    ensures WellFormed(map[], level, e)
    decreases e
  {
    match e
    case Neg(f) => PlainlyWellFormed(syms, 4, f);
    case Paren(f) => PlainlyWellFormed(syms, 0, f);
    case Bin(op, l, r) =>
      PlainlyWellFormed(syms, LevelOf(op), l);
      PlainlyWellFormed(syms, LevelOf(op) + 1, r);
    case _ =>
  }

  // ----- precedence

  /** C's precedence of the binary operators: `q` binds tighter than `p`. */
  predicate Tighter(q: BinOp, p: BinOp)
  {
    match p
    case Or => q != Or
    case And => q != Or && q != And
    case Eq => q in {Le, Ge, Lt, Gt}
    case Ne => q in {Le, Ge, Lt, Gt}
    case _ => false
  }

  lemma TighterLevel(q: BinOp, p: BinOp)
    ensures Tighter(q, p) <==> LevelOf(q) > LevelOf(p)
  {
  }

  /** Of two operators in a row the tighter one takes the middle operand, else the first. */
  lemma Precedence(syms: Symbols, a: Expr, p: BinOp, b: Expr, q: BinOp, c: Expr)
    requires WellFormed(syms, 4, a) && WellFormed(syms, 4, b) && WellFormed(syms, 4, c)
    ensures ParseLevel(syms, 0, Print(a) + ([Op(p)] + (Print(b) + ([Op(q)] + Print(c)))))
         == Some(Parsed(if Tighter(q, p) then Bin(p, a, Bin(q, b, c)) else Bin(q, Bin(p, a, b), c), []))
  {
    var toks := Print(a) + ([Op(p)] + (Print(b) + ([Op(q)] + Print(c))));
    TighterLevel(q, p);
    if Tighter(q, p) {
      PairReads(syms, LevelOf(p) + 1, q, b, c);
      PairReads(syms, 0, p, a, Bin(q, b, c));
      GrammarExact(syms, toks, Bin(p, a, Bin(q, b, c)));
    } else {
      PairReads(syms, LevelOf(q), p, a, b);
      PairReads(syms, 0, q, Bin(p, a, b), c);
      Regroup(Print(a), [Op(p)], Print(b), [Op(q)] + Print(c));
      GrammarExact(syms, toks, Bin(q, Bin(p, a, b), c));
    }
  }

  /** Two operands with an operator between them. */
  lemma PairReads(syms: Symbols, level: nat, op: BinOp, l: Expr, r: Expr)
    requires level <= LevelOf(op)
    requires WellFormed(syms, 4, l) || WellFormed(syms, LevelOf(op), l)
    requires WellFormed(syms, 4, r) || WellFormed(syms, LevelOf(op) + 1, r)
    ensures WellFormed(syms, level, Bin(op, l, r)) && Print(Bin(op, l, r)) == Print(l) + ([Op(op)] + Print(r))
  {
    if WellFormed(syms, 4, l) {
      WellFormedBelow(syms, 4, LevelOf(op), l);
    }
    if WellFormed(syms, 4, r) {
      WellFormedBelow(syms, 4, LevelOf(op) + 1, r);
    }
  }

  /** ! takes the operand behind it and no more. */
  lemma UnaryFirst(syms: Symbols, a: Expr, p: BinOp, b: Expr)
    requires WellFormed(syms, 4, a) && WellFormed(syms, 4, b)
    ensures ParseLevel(syms, 0, ([Not] + Print(a)) + ([Op(p)] + Print(b))) == Some(Parsed(Bin(p, Neg(a), b), []))
  {
    assert WellFormed(syms, 4, Neg(a)) && Print(Neg(a)) == [Not] + Print(a);
    PairReads(syms, 0, p, Neg(a), b);
    GrammarExact(syms, ([Not] + Print(a)) + ([Op(p)] + Print(b)), Bin(p, Neg(a), b));
  }

  /** Brackets hold together what is in them, also behind !. */
  lemma BracketsFirst(syms: Symbols, a: Expr)
    requires WellFormed(syms, 0, a)
    ensures ParseLevel(syms, 0, [Not] + ([Open] + (Print(a) + [Close]))) == Some(Parsed(Neg(Paren(a)), []))
  {
    hide ParseLevel;
    var inner := Paren(a);
    assert WellFormed(syms, 4, inner) && Print(inner) == [Open] + (Print(a) + [Close]);
    assert WellFormed(syms, 0, Neg(inner));
    GrammarExact(syms, Print(Neg(inner)), Neg(inner));
  }

  /** Open brackets less closed ones. */
  function Depth(toks: seq<Token>): int
  {
    if toks == [] then 0
    else Depth(Front(toks)) + (if Last(toks).Open? then 1 else if Last(toks).Close? then -1 else 0)
  }

  /** `n` is the first place where the brackets opened at `level` are all closed. */
  ghost predicate FirstClosed(toks: seq<Token>, level: nat, n: nat)
  {
    0 < n <= |toks| && level + Depth(toks[..n]) <= 0 && forall i :: 0 < i < n ==> level + Depth(toks[..i]) > 0
  }

  lemma DepthCons(t: Token, toks: seq<Token>)
    ensures Depth([t] + toks) == Depth(toks) + (if t.Open? then 1 else if t.Close? then -1 else 0)
  {
    if toks == [] {
      assert Front([t]) == [] && [t] + toks == [t];
    } else {
      DepthCons(t, Front(toks));
      assert Front([t] + toks) == [t] + Front(toks);
    }
  }

  /** The depth behind the first token, in terms of the rest. */
  lemma DepthBehind(toks: seq<Token>, level: nat, now: int, i: nat)
    requires 0 < i <= |toks|
    requires now == if toks[0].Open? then level + 1 else if toks[0].Close? then level - 1 else level
    ensures level + Depth(toks[..i]) == now + Depth(toks[1..][..i - 1])
  {
    assert toks[..i] == [toks[0]] + toks[1..][..i - 1];
    DepthCons(toks[0], toks[1..][..i - 1]);
  }

  lemma ClosedBehind(toks: seq<Token>, level: nat, now: nat, n: nat)
    requires toks != [] && now > 0
    requires now == if toks[0].Open? then level + 1 else if toks[0].Close? then level - 1 else level
    ensures FirstClosed(toks, level, n) <==> n > 0 && FirstClosed(toks[1..], now, n - 1)
  {
    forall i | 0 < i <= |toks|
      ensures level + Depth(toks[..i]) == now + Depth(toks[1..][..i - 1])
    {
      DepthBehind(toks, level, now, i);
    }
    assert toks[1..][..0] == [];
    if FirstClosed(toks, level, n) {
      assert level + Depth(toks[..1]) == now;
      forall i | 0 < i < n - 1
        ensures now + Depth(toks[1..][..i]) > 0
      {
        assert level + Depth(toks[..i + 1]) > 0;
      }
    }
  }

  /** An argument list ends where its brackets first balance, and there is none when they
      never do. */
  lemma {:induction false} GroupBalances(toks: seq<Token>, level: nat)
    ensures Group(toks, level).Some? ==> FirstClosed(toks, level, Group(toks, level).value)
    ensures Group(toks, level).None? ==> forall n: nat :: !FirstClosed(toks, level, n)
    decreases |toks|
  {
    if toks != [] {
      var now := if toks[0].Open? then level + 1 else if toks[0].Close? then level - 1 else level;
      DepthBehind(toks, level, now, 1);
      assert toks[1..][..0] == [];
      if now > 0 {
        GroupBalances(toks[1..], now);
        forall n: nat
          ensures FirstClosed(toks, level, n) <==> n > 0 && FirstClosed(toks[1..], now, n - 1)
        {
          ClosedBehind(toks, level, now, n);
        }
      }
    }
  }
}
