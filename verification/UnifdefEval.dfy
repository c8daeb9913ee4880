/** Evaluation of #if expressions when only some symbols are known.

    Evaluator is the single-pass evaluator of unifdef.c. It is proved to report
    the three-valued value of the tree the grammar assigns to the tokens, and
    that value is proved to be the one C computes under every way of completing
    the unknown symbols. */
module UnifdefEval {
  import opened UnifdefExpr
  import opened UnifdefGrammar
  import opened Wrappers

  /** The results an evaluation function can report. */
  datatype Verdict = LT_TRUE | LT_FALSE | LT_IF | LT_ERROR

  datatype Truth = Unknown | Known(v: int)

  const INT_MAX := 0x7FFF_FFFF
  const LONG_MAX := 0x7FFF_FFFF_FFFF_FFFF

  /** strtol saturates to a 64-bit long; storing that in an int keeps 32 bits. */
  function ToInt(n: int): (r: int)
    ensures -INT_MAX - 1 <= r <= INT_MAX
  {
    var l := if n > LONG_MAX then LONG_MAX else if n < -LONG_MAX - 1 then -LONG_MAX - 1 else n;
    var low := l % 0x1_0000_0000;
    if low > INT_MAX then low - 0x1_0000_0000 else low
  }

  predicate Fits(n: int) { -INT_MAX - 1 <= n <= INT_MAX }

  lemma ToIntExact(n: int)
    ensures ToInt(n) == n <==> Fits(n)
  {
  }

  function Bit(b: bool): int { if b then 1 else 0 }

  function Compute(op: BinOp, a: int, b: int): int
  {
    Bit(match op
        case Or => a != 0 || b != 0
        case And => a != 0 && b != 0
        case Eq => a == b
        case Ne => a != b
        case Le => a <= b
        case Ge => a >= b
        case Lt => a < b
        case Gt => a > b)
  }

  function Verdict3(t: Truth): Verdict
  {
    match t
    case Unknown => LT_IF
    case Known(v) => if v != 0 then LT_TRUE else LT_FALSE
  }

  // ----- the three-valued value of a tree

  function Apply(strict: bool, op: BinOp, a: Truth, b: Truth): Truth
  {
    if op == Or && !strict && (Verdict3(a) == LT_TRUE || Verdict3(b) == LT_TRUE) then Known(1)
    else if op == And && !strict && (Verdict3(a) == LT_FALSE || Verdict3(b) == LT_FALSE) then Known(0)
    else if a.Unknown? || b.Unknown? then Unknown
    else Known(Compute(op, a.v, b.v))
  }

  function SymbolTruth(syms: Symbols, name: string): Truth
  {
    if name !in syms || syms[name].def.Text? then Unknown
    else if syms[name].def.Undefined? then Known(0)
    else Known(ToInt(syms[name].def.v))
  }

  function DefinedTruth(syms: Symbols, word: seq<Token>): Truth
  {
    if word == [] || !word[0].IsWord() || word[0].Spelling() !in syms then Unknown
    else Known(Bit(!syms[word[0].Spelling()].def.Undefined?))
  }

  function Eval3(syms: Symbols, strict: bool, e: Expr): Truth
  {
    match e
    case Lit(_, value) => Known(ToInt(value))
    case Sym(name) => SymbolTruth(syms, name)
    case Call(name, _) => SymbolTruth(syms, name)
    case DefinedOf(_, word) => DefinedTruth(syms, word)
    case Neg(f) =>
      (match Eval3(syms, strict, f)
       case Unknown => Unknown
       case Known(v) => Known(Bit(v == 0)))
    case Paren(f) => Eval3(syms, strict, f)
    case Bin(op, l, r) => Apply(strict, op, Eval3(syms, strict, l), Eval3(syms, strict, r))
  }

  /** Whether the expression mentions any symbol, which makes it non-constant. */
  predicate HasSymbol(e: Expr)
  {
    match e
    case Lit(_, _) => false
    case Neg(f) => HasSymbol(f)
    case Paren(f) => HasSymbol(f)
    case Bin(_, l, r) => HasSymbol(l) || HasSymbol(r)
    case _ => true
  }

  // ----- the evaluator

  /** What a call that started at `toks` must hand back, given how `toks` reads. */
  predicate Reports(syms: Symbols, strict: bool, p: Option<Parsed>, toks: seq<Token>,
                    lt: Verdict, val: int, rest: seq<Token>)
  {
    match p
    case None => lt == LT_ERROR && rest == toks
    case Some(q) =>
      var t := Eval3(syms, strict, q.e);
      lt == Verdict3(t) && (t.Known? ==> val == t.v) && rest == q.rest
  }

  class Evaluator {
    const syms: Symbols
    const strictlogic: bool
    var constexpr: bool

    constructor (syms: Symbols, strictlogic: bool)
      ensures this.syms == syms && this.strictlogic == strictlogic
    {
      this.syms := syms;
      this.strictlogic := strictlogic;
    }

    /** constexpr survives exactly the expressions without symbols. */
    twostate predicate Tracks(p: Option<Parsed>)
      reads this
    {
      p.Some? ==> constexpr == (old(constexpr) && !HasSymbol(p.value.e))
    }

    method SkipArgs(cp: seq<Token>) returns (rest: seq<Token>)
      ensures rest == cp[|Args(cp)|..]
    {
      if cp == [] || !cp[0].Open? {
        return cp;
      }
      var level, i := 0, 0;
      while true
        invariant 0 <= i < |cp|
        invariant i == 0 ==> level == 0
        invariant i > 0 ==> level > 0
        invariant match Group(cp[i..], level)
                  case None => Group(cp, 0).None?
                  case Some(n) => Group(cp, 0) == Some(i + n)
        decreases |cp| - i
      {
        if cp[i].Open? {
          level := level + 1;
        }
        if cp[i].Close? {
          level := level - 1;
        }
        assert cp[i..][1..] == cp[i + 1..];
        i := i + 1;
        if level == 0 || i == |cp| {
          break;
        }
      }
      return if level == 0 then cp[i..] else cp;
    }

    method EvalUnary(valp: int, cp: seq<Token>) returns (lt: Verdict, val: int, rest: seq<Token>)
      modifies this`constexpr
      ensures Reports(syms, strictlogic, ParseUnary(syms, cp), cp, lt, val, rest)
      ensures Tracks(ParseUnary(syms, cp))
      decreases |cp|, 0
    {
      val := valp;
      if cp == [] {
        return LT_ERROR, val, cp;
      } else if cp[0].Not? {
        lt, val, rest := EvalUnary(val, cp[1..]);
        if lt == LT_ERROR {
          return LT_ERROR, val, cp;
        }
        if lt != LT_IF {
          val := Bit(val == 0);
          lt := if val != 0 then LT_TRUE else LT_FALSE;
        }
      } else if cp[0].Open? {
        lt, val, rest := EvalTable(0, val, cp[1..]);
        if lt == LT_ERROR || rest == [] || !rest[0].Close? {
          return LT_ERROR, val, cp;
        }
        rest := rest[1..];
      } else if cp[0].Num? {
        val := ToInt(cp[0].value);
        lt := if val != 0 then LT_TRUE else LT_FALSE;
        rest := cp[1..];
      } else if cp[0] == DEFINED {
        lt, val, rest := EvalDefined(val, cp[1..]);
        if lt == LT_ERROR {
          return LT_ERROR, val, cp;
        }
      } else if cp[0].Ident? {
        lt, val, rest := EvalSymbol(val, cp[0].name, cp[1..]);
        if lt == LT_ERROR {
          return LT_ERROR, val, cp;
        }
      } else {
        return LT_ERROR, val, cp;
      }
    }

    /** The branch of eval_unary that has just seen the word "defined". */
    method EvalDefined(valp: int, cp: seq<Token>) returns (lt: Verdict, val: int, rest: seq<Token>)
      modifies this`constexpr
      ensures Reports(syms, strictlogic, ParseDefined(cp), cp, lt, val, rest)
      ensures Tracks(ParseDefined(cp))
    {
      val := valp;
      var defparen := cp != [] && cp[0].Open?;
      rest := if defparen then cp[1..] else cp;
      if rest == [] || !rest[0].IsWord() || rest[0].Spelling() !in syms {
        lt := LT_IF;
      } else {
        val := Bit(!syms[rest[0].Spelling()].def.Undefined?);
        lt := if val != 0 then LT_TRUE else LT_FALSE;
      }
      if rest != [] && rest[0].IsWord() {
        rest := rest[1..];
      }
      if defparen {
        if rest == [] || !rest[0].Close? {
          return LT_ERROR, val, cp;
        }
        rest := rest[1..];
      }
      constexpr := false;
    }

    /** The branch of eval_unary that has just seen any other identifier. */
    method EvalSymbol(valp: int, name: string, cp: seq<Token>) returns (lt: Verdict, val: int, rest: seq<Token>)
      modifies this`constexpr
      ensures Reports(syms, strictlogic, ParseSymbol(syms, name, cp), cp, lt, val, rest)
      ensures Tracks(ParseSymbol(syms, name, cp))
    {
      val := valp;
      rest := cp;
      if name !in syms {
        lt := LT_IF;
        rest := SkipArgs(rest);
      } else if syms[name].def.Undefined? {
        val, lt := 0, LT_FALSE;
      } else if syms[name].def.Text? {
        return LT_ERROR, val, cp;
      } else {
        val := ToInt(syms[name].def.v);
        lt := if val != 0 then LT_TRUE else LT_FALSE;
        rest := SkipArgs(rest);
      }
      constexpr := false;
    }

    method OpStrict(p: int, v: bool, at: Verdict, bt: Verdict) returns (lt: Verdict, p': int)
      ensures if at == LT_IF || bt == LT_IF then lt == LT_IF && p' == p
              else p' == Bit(v) && lt == (if v then LT_TRUE else LT_FALSE)
    {
      if at == LT_IF || bt == LT_IF {
        return LT_IF, p;
      }
      return if v then LT_TRUE else LT_FALSE, Bit(v);
    }

    /** The operator functions of the precedence table. */
    method OpFn(op: BinOp, p: int, at: Verdict, a: int, bt: Verdict, b: int)
      returns (lt: Verdict, p': int)
      requires at != LT_ERROR && bt != LT_ERROR
      requires at != LT_IF ==> at == (if a != 0 then LT_TRUE else LT_FALSE)
      requires bt != LT_IF ==> bt == (if b != 0 then LT_TRUE else LT_FALSE)
      ensures var t := Apply(strictlogic, op, if at == LT_IF then Unknown else Known(a),
                                              if bt == LT_IF then Unknown else Known(b));
              lt == Verdict3(t) && (t.Known? ==> p' == t.v)
    {
      match op
      case Or =>
        if !strictlogic && (at == LT_TRUE || bt == LT_TRUE) {
          return LT_TRUE, 1;
        }
        lt, p' := OpStrict(p, a != 0 || b != 0, at, bt);
      case And =>
        if !strictlogic && (at == LT_FALSE || bt == LT_FALSE) {
          return LT_FALSE, 0;
        }
        lt, p' := OpStrict(p, a != 0 && b != 0, at, bt);
      case Eq => lt, p' := OpStrict(p, a == b, at, bt);
      case Ne => lt, p' := OpStrict(p, a != b, at, bt);
      case Le => lt, p' := OpStrict(p, a <= b, at, bt);
      case Ge => lt, p' := OpStrict(p, a >= b, at, bt);
      case Lt => lt, p' := OpStrict(p, a < b, at, bt);
      case Gt => lt, p' := OpStrict(p, a > b, at, bt);
    }

    /** The index in row `level` of the operator `cp` starts with, or the row's length. */
    method FindOp(level: nat, cp: seq<Token>) returns (i: nat)
      requires level < 4
      ensures i <= |Ops(level)|
      ensures i < |Ops(level)| ==> cp != [] && cp[0] == Op(Ops(level)[i])
      ensures i == |Ops(level)| <==> cp == [] || !cp[0].Op? || LevelOf(cp[0].op) != level
    {
      i := 0;
      while i < |Ops(level)|
        invariant i <= |Ops(level)|
        invariant forall j :: 0 <= j < i ==> cp == [] || cp[0] != Op(Ops(level)[j])
      {
        if cp != [] && cp[0] == Op(Ops(level)[i]) {
          return;
        }
        i := i + 1;
      }
    }

    /** The inner function of a row of the precedence table. */
    method EvalInner(level: nat, valp: int, cp: seq<Token>) returns (lt: Verdict, val: int, rest: seq<Token>)
      requires level <= 4
      modifies this`constexpr
      ensures Reports(syms, strictlogic, ParseLevel(syms, level, cp), cp, lt, val, rest)
      ensures Tracks(ParseLevel(syms, level, cp))
      decreases |cp|, 10 - 2 * level
    {
      if level == 4 {
        lt, val, rest := EvalUnary(valp, cp);
      } else {
        lt, val, rest := EvalTable(level, valp, cp);
      }
    }

    /** One turn of eval_table's loop: the operator, its right operand, and the
        operator function applied to both. */
    method EvalRight(level: nat, op: BinOp, ghost e: Expr, lt0: Verdict, val0: int, cp: seq<Token>)
      returns (lt: Verdict, val: int, rest: seq<Token>)
      requires level < 4 && cp != [] && cp[0] == Op(op) && Carries(e, lt0, val0)
      modifies this`constexpr
      ensures var p := ParseLevel(syms, level + 1, cp[1..]);
              if p.None? then lt == LT_ERROR
              else Carries(Bin(op, e, p.value.e), lt, val) && rest == p.value.rest
      ensures Tracks(ParseLevel(syms, level + 1, cp[1..]))
      decreases |cp|, 10
    {
      var other: int := *;
      var rt;
      rt, other, rest := EvalInner(level + 1, other, cp[1..]);
      if rt == LT_ERROR {
        return LT_ERROR, val0, cp;
      }
      ghost var r := ParseLevel(syms, level + 1, cp[1..]).value.e;
      ghost var a, b := Eval3(syms, strictlogic, e), Eval3(syms, strictlogic, r);
      assert a == (if lt0 == LT_IF then Unknown else Known(val0));
      assert b == (if rt == LT_IF then Unknown else Known(other));
      lt, val := OpFn(op, val0, lt0, val0, rt, other);
      assert Eval3(syms, strictlogic, Bin(op, e, r)) == Apply(strictlogic, op, a, b);
    }

    method EvalTable(level: nat, valp: int, cp0: seq<Token>) returns (lt: Verdict, val: int, rest: seq<Token>)
      requires level < 4
      modifies this`constexpr
      ensures Reports(syms, strictlogic, ParseLevel(syms, level, cp0), cp0, lt, val, rest)
      ensures Tracks(ParseLevel(syms, level, cp0))
      decreases |cp0|, 9 - 2 * level
    {
      ghost var goal := ParseLevel(syms, level, cp0);
      var cp;
      lt, val, cp := EvalInner(level + 1, valp, cp0);
      if lt == LT_ERROR {
        return LT_ERROR, val, cp0;
      }
      ghost var e := ParseLevel(syms, level + 1, cp0).value.e;
      while true
        invariant |cp| < |cp0|
        invariant Carries(e, lt, val)
        invariant constexpr == (old(constexpr) && !HasSymbol(e))
        invariant goal == ParseTail(syms, level, e, cp)
        decreases |cp|
      {
        var i := FindOp(level, cp);
        if i == |Ops(level)| {
          break;
        }
        TailUnfold(syms, level, e, cp);
        var rt, next;
        rt, val, next := EvalRight(level, Ops(level)[i], e, lt, val, cp);
        if rt == LT_ERROR {
          return LT_ERROR, val, cp0;
        }
        lt, e, cp := rt, Bin(cp[0].op, e, ParseLevel(syms, level + 1, cp[1..]).value.e), next;
      }
      rest := cp;
    }

    /** `lt` and `val` are the three-valued value of `e`. */
    ghost predicate Carries(e: Expr, lt: Verdict, val: int)
    {
      var t := Eval3(syms, strictlogic, e);
      lt == Verdict3(t) && (t.Known? ==> val == t.v)
    }

    lemma TailUnfold(syms: Symbols, level: nat, e: Expr, cp: seq<Token>)
      requires level < 4 && cp != [] && cp[0].Op? && LevelOf(cp[0].op) == level
      ensures ParseTail(syms, level, e, cp)
           == match ParseLevel(syms, level + 1, cp[1..])
              case None => None
              case Some(p) => ParseTail(syms, level, Bin(cp[0].op, e, p.e), p.rest)
    {
    }

    /** Evaluates the expression of an #if or #elif; `rest` is what it did not read. */
    method IfEval(killconsts: bool, cp: seq<Token>) returns (lt: Verdict, rest: seq<Token>)
      modifies this`constexpr
      ensures lt == Judge(syms, strictlogic, killconsts, ParseLevel(syms, 0, cp))
      ensures rest == (match ParseLevel(syms, 0, cp) case None => cp case Some(p) => p.rest)
    {
      constexpr := !killconsts;
      var val;
      lt, val, rest := EvalTable(0, 0, cp);
      if constexpr || lt == LT_ERROR {
        lt := LT_IF;
      }
    }
  }

  /** The verdict on an expression that reads as `p`. */
  function Judge(syms: Symbols, strict: bool, killconsts: bool, p: Option<Parsed>): (lt: Verdict)
    ensures lt != LT_ERROR
  {
    if p.None? || (!killconsts && !HasSymbol(p.value.e)) then LT_IF
    else Verdict3(Eval3(syms, strict, p.value.e))
  }

  // ----- what C makes of the same expression

  /** A value in an #if, of type intmax_t or uintmax_t (section 6.10.1 of
      ISO/IEC 9899:1999), which have 64 bits. */
  datatype CNum = CNum(v: int, unsigned: bool)

  function AsUnsigned(n: int): int
  {
    n % 0x1_0000_0000_0000_0000
  }

  /** A literal with the suffix u or U. */
  predicate HasUnsignedSuffix(text: string)
  {
    'u' in text || 'U' in text
  }

  /** The six comparisons of C (sections 6.5.8 and 6.5.9 of ISO/IEC 9899:1999). */
  predicate CCompares(op: BinOp, a: int, b: int)
  {
    match op
    case Eq => a == b
    case Ne => a < b || a > b
    case Lt => a < b
    case Gt => b < a
    case Le => a < b || a == b
    case _ => b < a || a == b
  }

  /** Comparisons convert both operands to unsigned when one of them is. */
  function CBin(op: BinOp, a: CNum, b: CNum): CNum
  {
    CNum(Bit(if op.Or? then a.v != 0 || b.v != 0
             else if op.And? then a.v != 0 && b.v != 0
             else if a.unsigned || b.unsigned then CCompares(op, AsUnsigned(a.v), AsUnsigned(b.v))
             else CCompares(op, a.v, b.v)),
         false)
  }

  /** One way of filling in everything the command line left open: the value of
      each symbol (None when it is not defined), of each macro call, and of any
      text outside the grammar above. */
  datatype Completion = Completion(
    value: string -> Option<CNum>,
    call: (string, seq<Token>) -> CNum,
    other: seq<Token> -> int)

  function CEval(c: Completion, e: Expr): CNum
  {
    match e
    case Lit(text, value) => CNum(value, HasUnsignedSuffix(text))
    case Sym(name) => (match c.value(name) case None => CNum(0, false) case Some(v) => v)
    case Call(name, args) => c.call(name, args)
    case DefinedOf(_, word) =>
      CNum(if word != [] && word[0].IsWord() then Bit(c.value(word[0].Spelling()).Some?) else c.other(Print(e)), false)
    case Neg(f) => CNum(Bit(CEval(c, f).v == 0), false)
    case Paren(f) => CEval(c, f)
    case Bin(op, l, r) => CBin(op, CEval(c, l), CEval(c, r))
  }

  /** Whether C includes the group that the expression `toks` controls. */
  predicate CTrue(c: Completion, toks: seq<Token>)
  {
    match ParseLevel(map[], 0, toks)
    case None => c.other(toks) != 0
    case Some(p) => if p.rest == [] then CEval(c, p.e).v != 0 else c.other(toks) != 0
  }

  /** On the printed form of a tree that is the value of the tree. */
  lemma CTrueOfPrinted(c: Completion, e: Expr)
    requires WellFormed(map[], 0, e)
    ensures CTrue(c, Print(e)) <==> CEval(c, e).v != 0
  {
    GrammarExact(map[], Print(e), e);
  }

  /** The completion gives the known symbols the values of the command line. */
  ghost predicate Agrees(c: Completion, syms: Symbols)
  {
    forall name :: name in syms ==>
      match syms[name].def
      case Undefined => c.value(name).None?
      case Integer(v) => c.value(name) == Some(CNum(v, false)) && forall args :: c.call(name, args) == CNum(v, false)
      case Text => c.value(name).Some?
  }

  predicate SymbolsFit(syms: Symbols)
  {
    forall name :: name in syms && syms[name].def.Integer? ==> Fits(syms[name].def.v)
  }

  predicate LiteralsFit(toks: seq<Token>)
  {
    forall i :: 0 <= i < |toks| && toks[i].Num? ==> Fits(toks[i].value)
  }

  predicate TreeFits(e: Expr)
  {
    match e
    case Lit(_, value) => Fits(value)
    case Neg(f) => TreeFits(f)
    case Paren(f) => TreeFits(f)
    case Bin(_, l, r) => TreeFits(l) && TreeFits(r)
    case _ => true
  }

  lemma LiteralsSplit(a: seq<Token>, b: seq<Token>)
    requires LiteralsFit(a + b)
    ensures LiteralsFit(a) && LiteralsFit(b)
  {
    assert forall i :: 0 <= i < |a| ==> a[i] == (a + b)[i];
    assert forall i :: 0 <= i < |b| ==> b[i] == (a + b)[|a| + i];
  }

  lemma {:induction false} PrintedLiteralsFit(e: Expr)
    requires LiteralsFit(Print(e))
    ensures TreeFits(e)
    decreases e
  {
    match e
    case Lit(_, _) => assert Print(e)[0].Num?;
    case Neg(f) =>
      LiteralsSplit([Not], Print(f));
      PrintedLiteralsFit(f);
    case Paren(f) =>
      LiteralsSplit([Open], Print(f) + [Close]);
      LiteralsSplit(Print(f), [Close]);
      PrintedLiteralsFit(f);
    case Bin(op, l, r) =>
      LiteralsSplit(Print(l), [Op(op)] + Print(r));
      LiteralsSplit([Op(op)], Print(r));
      PrintedLiteralsFit(l);
      PrintedLiteralsFit(r);
    case _ =>
  }

  /** An operand that C takes as unsigned: a suffixed literal, in any brackets. */
  predicate UnsignedOperand(e: Expr)
  {
    match e
    case Lit(text, _) => HasUnsignedSuffix(text)
    case Paren(f) => UnsignedOperand(f)
    case _ => false
  }

  /** An operand that is known to be negative: a symbol, in any brackets. */
  predicate NegativeOperand(syms: Symbols, e: Expr)
  {
    match e
    case Sym(name) => SymbolTruth(syms, name).Known? && SymbolTruth(syms, name).v < 0
    case Call(name, _) => SymbolTruth(syms, name).Known? && SymbolTruth(syms, name).v < 0
    case Paren(f) => NegativeOperand(syms, f)
    case _ => false
  }

  /** A negative symbol against an unsigned literal. */
  predicate Mixed(syms: Symbols, l: Expr, r: Expr)
  {
    (UnsignedOperand(l) && NegativeOperand(syms, r)) || (NegativeOperand(syms, l) && UnsignedOperand(r))
  }

  /** No comparison in the tree mixes the two. */
  predicate Unmixed(syms: Symbols, e: Expr)
  {
    match e
    case Neg(f) => Unmixed(syms, f)
    case Paren(f) => Unmixed(syms, f)
    case Bin(op, l, r) => Unmixed(syms, l) && Unmixed(syms, r) && (op.Or? || op.And? || !Mixed(syms, l, r))
    case _ => true
  }

  /** The condition of a line that has to hold for unifdef to judge it as C does. */
  predicate ConditionOk(syms: Symbols, toks: seq<Token>)
  {
    && LiteralsFit(toks)
    && var p := ParseLevel(map[], 0, toks); p.Some? && p.value.rest == [] ==> Unmixed(syms, p.value.e)
  }

  /** What the two sides know about an operand whose value is known. */
  ghost predicate Alike(syms: Symbols, c: Completion, e: Expr, t: Truth)
  {
    && t.Known? && CEval(c, e).v == t.v && Fits(t.v)
    && (CEval(c, e).unsigned <==> UnsignedOperand(e)) && (UnsignedOperand(e) ==> 0 <= t.v)
    && (t.v < 0 <==> NegativeOperand(syms, e))
  }

  /** The usual conversions change nothing unless a negative value meets an unsigned one. */
  lemma ConversionHarmless(op: BinOp, a: CNum, b: CNum)
    requires Fits(a.v) && Fits(b.v) && (a.unsigned ==> 0 <= a.v) && (b.unsigned ==> 0 <= b.v)
    requires !(a.unsigned && b.v < 0) && !(b.unsigned && a.v < 0)
    ensures CBin(op, a, b).v == Compute(op, a.v, b.v)
  {
  }

  lemma SymbolSound(syms: Symbols, c: Completion, e: Expr, name: string)
    requires (e == Sym(name) || (e.Call? && e.name == name && name in syms && syms[name].def.Integer?))
    requires Agrees(c, syms) && SymbolsFit(syms) && SymbolTruth(syms, name).Known?
    ensures Alike(syms, c, e, SymbolTruth(syms, name))
  {
    if syms[name].def.Integer? {
      ToIntExact(syms[name].def.v);
    }
  }

  lemma BinSound(op: BinOp, strict: bool, t: Truth, u: Truth, a: CNum, b: CNum)
    requires Apply(strict, op, t, u).Known?
    requires t.Known? ==> a.v == t.v && Fits(t.v) && (a.unsigned ==> 0 <= a.v)
    requires u.Known? ==> b.v == u.v && Fits(u.v) && (b.unsigned ==> 0 <= b.v)
    requires op.Or? || op.And? || (t.Known? && u.Known? ==> !(a.unsigned && b.v < 0) && !(b.unsigned && a.v < 0))
    ensures CBin(op, a, b).v == Apply(strict, op, t, u).v && 0 <= CBin(op, a, b).v <= 1
  {
    if !op.Or? && !op.And? {
      ConversionHarmless(op, a, b);
    }
  }

  /** A value reported as known is the value C computes, whatever the unknown
      symbols turn out to be. */
  lemma {:induction false} Eval3Sound(syms: Symbols, strict: bool, level: nat, e: Expr, c: Completion)
    requires WellFormed(syms, level, e) && Agrees(c, syms)
    requires SymbolsFit(syms) && TreeFits(e) && Unmixed(syms, e)
    requires Eval3(syms, strict, e).Known?
    ensures CEval(c, e).v == Eval3(syms, strict, e).v && Alike(syms, c, e, Eval3(syms, strict, e))
    decreases e
  {
    match e
    case Lit(_, value) => ToIntExact(value);
    case Sym(name) => SymbolSound(syms, c, e, name);
    case Call(name, _) => SymbolSound(syms, c, e, name);
    case DefinedOf(_, _) =>
    case Neg(f) => Eval3Sound(syms, strict, 4, f, c);
    case Paren(f) => Eval3Sound(syms, strict, 0, f, c);
    case Bin(op, l, r) =>
      var t, u := Eval3(syms, strict, l), Eval3(syms, strict, r);
      if t.Known? {
        Eval3Sound(syms, strict, LevelOf(op), l, c);
      }
      if u.Known? {
        Eval3Sound(syms, strict, LevelOf(op) + 1, r, c);
      }
      BinSound(op, strict, t, u, CEval(c, l), CEval(c, r));
  }

  /** Two operands with known values compare as in C, in all six ways, exactly when they
      do not mix a negative symbol with an unsigned literal. */
  lemma ComparisonExact(syms: Symbols, c: Completion, l: Expr, r: Expr)
    requires Alike(syms, c, l, Eval3(syms, false, l)) && Alike(syms, c, r, Eval3(syms, false, r))
    ensures (forall op: BinOp :: !op.Or? && !op.And? ==> Eval3(syms, false, Bin(op, l, r)) == Known(CEval(c, Bin(op, l, r)).v))
       <==> !Mixed(syms, l, r)
  {
    var a, b := CEval(c, l), CEval(c, r);
    if Mixed(syms, l, r) {
      assert Eval3(syms, false, Bin(Lt, l, r)) == Known(Bit(a.v < b.v));
      assert CEval(c, Bin(Lt, l, r)).v == Bit(AsUnsigned(a.v) < AsUnsigned(b.v));
    } else {
      forall op: BinOp | !op.Or? && !op.And?
        ensures Eval3(syms, false, Bin(op, l, r)) == Known(CEval(c, Bin(op, l, r)).v)
      {
        ConversionHarmless(op, a, b);
      }
    }
  }

  /** Under -K a value is reported exactly when no unknown symbol occurs. */
  predicate AllKnown(syms: Symbols, e: Expr)
  {
    match e
    case Lit(_, _) => true
    case Sym(name) => SymbolTruth(syms, name).Known?
    case Call(name, _) => SymbolTruth(syms, name).Known?
    case DefinedOf(_, word) => DefinedTruth(syms, word).Known?
    case Neg(f) => AllKnown(syms, f)
    case Paren(f) => AllKnown(syms, f)
    case Bin(_, l, r) => AllKnown(syms, l) && AllKnown(syms, r)
  }

  lemma {:induction false} StrictLogic(syms: Symbols, e: Expr)
    ensures Eval3(syms, true, e).Known? <==> AllKnown(syms, e)
    ensures Eval3(syms, true, e).Known? ==> Eval3(syms, false, e) == Eval3(syms, true, e)
  {
    match e
    case Neg(f) => StrictLogic(syms, f);
    case Paren(f) => StrictLogic(syms, f);
    case Bin(_, l, r) =>
      StrictLogic(syms, l);
      StrictLogic(syms, r);
    case _ =>
  }

  // ----- classification of the expressions of #if and #elif lines

  datatype Options = Options(syms: Symbols, strict: bool, killconsts: bool, iocccok: bool)

  /** The verdict parseline settles on: anything left over on the line demotes it. */
  function Classify(o: Options, toks: seq<Token>): (lt: Verdict)
    ensures lt != LT_ERROR
  {
    var p := ParseLevel(o.syms, 0, toks);
    if p.Some? && p.value.rest == [] then Judge(o.syms, o.strict, o.killconsts, p) else LT_IF
  }

  ghost predicate Admits(o: Options, c: Completion)
  {
    Agrees(c, o.syms) && SymbolsFit(o.syms)
  }

  /** For every token sequence, not only well-formed ones: a condition judged true
      holds, and one judged false fails, under every completion. */
  lemma ClassifySound(o: Options, c: Completion, toks: seq<Token>)
    requires Admits(o, c) && ConditionOk(o.syms, toks)
    ensures Classify(o, toks) == LT_TRUE ==> CTrue(c, toks)
    ensures Classify(o, toks) == LT_FALSE ==> !CTrue(c, toks)
  {
    var p := ParseLevel(o.syms, 0, toks);
    if Classify(o, toks) != LT_IF {
      var e := p.value.e;
      assert p == Some(Parsed(e, []));
      GrammarExact(o.syms, toks, e);
      ReadSameWithoutSymbols(o.syms, toks, e);
      PrintedLiteralsFit(e);
      Eval3Sound(o.syms, o.strict, 0, e, c);
    }
  }

  /** `e` compares with every literal that fits an int, suffixed like `text` or not, as in C. */
  ghost predicate ComparesAsInC(syms: Symbols, c: Completion, e: Expr, text: string)
  {
    forall op: BinOp, m: nat :: !op.Or? && !op.And? && m <= INT_MAX ==>
      Eval3(syms, false, Bin(op, e, Lit(text, m))) == Known(CEval(c, Bin(op, e, Lit(text, m))).v)
  }

  /** A literal is safe in every comparison with an int exactly when it is an int
      itself: 32-bit truncation changes the outcome of some comparison otherwise. */
  lemma LiteralExact(text: string, n: nat, other: string, c: Completion)
    requires n <= LONG_MAX
    ensures ComparesAsInC(map[], c, Lit(text, n), other) <==> Fits(n)
  {
    ToIntExact(n);
    if Fits(n) {
      forall op: BinOp, m: nat | !op.Or? && !op.And? && m <= INT_MAX
        ensures Eval3(map[], false, Bin(op, Lit(text, n), Lit(other, m)))
             == Known(CEval(c, Bin(op, Lit(text, n), Lit(other, m))).v)
      {
        ToIntExact(m);
        ConversionHarmless(op, CNum(n, HasUnsignedSuffix(text)), CNum(m, HasUnsignedSuffix(other)));
      }
    } else {
      Overruns(map[], c, Lit(text, n), n, other);
    }
  }

  /** A value above INT_MAX compares wrongly with INT_MAX. */
  lemma Overruns(syms: Symbols, c: Completion, e: Expr, n: int, text: string)
    requires INT_MAX < n <= LONG_MAX && Eval3(syms, false, e) == Known(ToInt(n)) && CEval(c, e).v == n
    ensures !ComparesAsInC(syms, c, e, text)
  {
    ToIntExact(INT_MAX);
    var gt := Bin(Gt, e, Lit(text, INT_MAX));
    assert Eval3(syms, false, gt) == Known(0) && CEval(c, gt).v == 1;
  }

  /** A known symbol is safe against every other known value that fits an int exactly when
      its own value fits. */
  lemma SymbolExact(name: string, v: int, other: string)
    requires name != other && -LONG_MAX - 1 <= v <= LONG_MAX
    ensures (forall op: BinOp, m: int :: !op.Or? && !op.And? && Fits(m) ==>
              Eval3(Pair(name, v, other, m), false, Bin(op, Sym(name), Sym(other)))
                == Known(CBin(op, CNum(v, false), CNum(m, false)).v))
       <==> Fits(v)
  {
    ToIntExact(v);
    if Fits(v) {
      forall op: BinOp, m: int | !op.Or? && !op.And? && Fits(m)
        ensures Eval3(Pair(name, v, other, m), false, Bin(op, Sym(name), Sym(other)))
             == Known(CBin(op, CNum(v, false), CNum(m, false)).v)
      {
        ToIntExact(m);
      }
    } else {
      var m := ToInt(v);
      ToIntExact(m);
      assert Eval3(Pair(name, v, other, m), false, Bin(Eq, Sym(name), Sym(other))) == Known(1);
    }
  }

  function Pair(name: string, v: int, other: string, m: int): Symbols
  {
    map[name := Symbol(Integer(v), false), other := Symbol(Integer(m), false)]
  }

  /** Against every unsigned literal exactly when it is not negative either. */
  lemma SymbolAgainstUnsigned(syms: Symbols, c: Completion, name: string, v: int, text: string)
    requires name in syms && syms[name].def == Integer(v) && -LONG_MAX - 1 <= v <= LONG_MAX && Agrees(c, syms)
    requires HasUnsignedSuffix(text)
    ensures ComparesAsInC(syms, c, Sym(name), text) <==> 0 <= v <= INT_MAX
  {
    var e := Sym(name);
    ToIntExact(v);
    assert Eval3(syms, false, e) == Known(ToInt(v)) && CEval(c, e) == CNum(v, false);
    if 0 <= v <= INT_MAX {
      forall op: BinOp, m: nat | !op.Or? && !op.And? && m <= INT_MAX
        ensures Eval3(syms, false, Bin(op, e, Lit(text, m))) == Known(CEval(c, Bin(op, e, Lit(text, m))).v)
      {
        ToIntExact(m);
        ConversionHarmless(op, CNum(v, false), CNum(m, true));
      }
    } else if v > INT_MAX {
      Overruns(syms, c, e, v, text);
    } else {
      ToIntExact(INT_MAX);
      var lt, eq := Bin(Lt, e, Lit(text, INT_MAX)), Bin(Eq, e, Lit(text, INT_MAX));
      assert CEval(c, lt).v == 0 && CEval(c, eq).v == 0;
      if ToInt(v) == INT_MAX {
        assert Eval3(syms, false, eq) == Known(1);
      } else {
        assert Eval3(syms, false, lt) == Known(1);
      }
    }
  }

  // ----- inputs that are misjudged

  /** `#if 4294967296` is judged false under -k, and C takes it. */
  lemma TruncationMisjudges(o: Options, c: Completion)
    requires o.killconsts
    ensures var toks := [Num("4294967296", 0x1_0000_0000)];
            Classify(o, toks) == LT_FALSE && CTrue(c, toks)
  {
    hide ParseLevel, CTrue;
    var e := Lit("4294967296", 0x1_0000_0000);
    var toks := [Num("4294967296", 0x1_0000_0000)];
    GrammarExact(o.syms, toks, e);
    assert Print(e) == toks;
    CTrueOfPrinted(c, e);
  }

  /** `#if A` with -DA=4294967296 is judged false even without -k, and C takes it. */
  lemma WideSymbolMisjudges(o: Options, c: Completion)
    requires "A" in o.syms && o.syms["A"].def == Integer(0x1_0000_0000) && Agrees(c, o.syms)
    ensures var toks := [Ident("A")];
            Classify(o, toks) == LT_FALSE && CTrue(c, toks)
  {
    hide ParseLevel, CTrue;
    var e := Sym("A");
    var toks := [Ident("A")];
    GrammarExact(o.syms, toks, e);
    assert Print(e) == toks;
    CTrueOfPrinted(c, e);
  }

  /** `#if A < 1U` with -DA=-1 is judged true, and C drops it: -1 becomes 2^64 - 1. */
  lemma MixedMisjudges(o: Options, c: Completion, toks: seq<Token>)
    requires "A" in o.syms && o.syms["A"].def == Integer(-1) && Agrees(c, o.syms)
    requires toks == [Ident("A"), Op(Lt), Num("1U", 1)]
    ensures Classify(o, toks) == LT_TRUE && !CTrue(c, toks) && LiteralsFit(toks)
  {
    hide ParseLevel, CTrue;
    var l, r := Sym("A"), Lit("1U", 1);
    var e := Bin(Lt, l, r);
    MixedReads(o.syms, toks, l, r);
    CTrueOfPrinted(c, e);
    MixedValues(o, c, l, r);
  }

  lemma MixedReads(syms: Symbols, toks: seq<Token>, l: Expr, r: Expr)
    requires l == Sym("A") && r == Lit("1U", 1) && toks == [Ident("A"), Op(Lt), Num("1U", 1)]
    requires "A" in syms ==> !syms["A"].def.Text?
    ensures Print(Bin(Lt, l, r)) == toks && WellFormed(map[], 0, Bin(Lt, l, r))
    ensures ParseLevel(syms, 0, toks) == Some(Parsed(Bin(Lt, l, r), []))
  {
    var e := Bin(Lt, l, r);
    assert Print(e) == toks;
    GrammarExact(syms, toks, e);
  }

  lemma MixedValues(o: Options, c: Completion, l: Expr, r: Expr)
    requires "A" in o.syms && o.syms["A"].def == Integer(-1) && Agrees(c, o.syms)
    requires l == Sym("A") && r == Lit("1U", 1)
    ensures Eval3(o.syms, o.strict, Bin(Lt, l, r)) == Known(1) && CEval(c, Bin(Lt, l, r)).v == 0
  {
    ToIntExact(-1);
    ToIntExact(1);
    assert HasUnsignedSuffix("1U") by {
      assert "1U"[1] == 'U';
    }
    assert CEval(c, l) == CNum(-1, false) && CEval(c, r) == CNum(1, true);
  }
}
