/** The controlling expressions of #if and #elif lines: tokens, syntax trees, and
    the grammar that unifdef's recursive-descent evaluator recognises.

    The parser here is the specification of that evaluator. It builds the tree
    whose value the evaluator computes. */
module UnifdefExpr {
  import opened Wrappers

  datatype BinOp = Or | And | Eq | Ne | Le | Ge | Lt | Gt

  /** A preprocessing token. A word is a maximal run of letters, digits and '_':
      a number when it starts with a digit, an identifier otherwise. */
  datatype Token =
    | Not
    | Open
    | Close
    | Op(op: BinOp)
    | Num(text: string, value: nat)
    | Ident(name: string)
    | Other(text: string)
  {
    predicate IsWord() { Num? || Ident? }

    /** The spelling that findsym looks up. */
    function Spelling(): string
      requires IsWord()
    {
      if Num? then text else name
    }
  }

  /** What the command line says about one symbol: -U, -D with an integer, or -D
      with a text that is not an integer. */
  datatype Definition = Undefined | Integer(v: int) | Text
  datatype Symbol = Symbol(def: Definition, ignore: bool)
  type Symbols = map<string, Symbol>

  datatype Expr =
    | Lit(text: string, value: nat)
    | Sym(name: string)
    | Call(name: string, args: seq<Token>)
    | DefinedOf(paren: bool, word: seq<Token>)
    | Neg(e: Expr)
    | Paren(e: Expr)
    | Bin(op: BinOp, l: Expr, r: Expr)

  const DEFINED := Ident("defined")

  /** The operators of each row of the precedence table. */
  function Ops(level: nat): (ops: seq<BinOp>)
  {
    match level
    case 0 => [Or]
    case 1 => [And]
    case 2 => [Eq, Ne]
    case 3 => [Le, Ge, Lt, Gt]
    case _ => []
  }

  function LevelOf(op: BinOp): (level: nat)
    ensures level < 4 && op in Ops(level)
    ensures forall other: nat :: op in Ops(other) ==> other == level
  {
    match op
    case Or => 0
    case And => 1
    case Eq | Ne => 2
    case _ => 3
  }

  // ----- macro arguments

  /** How many tokens a parenthesised group occupies, counting brackets from `level`. */
  function Group(toks: seq<Token>, level: nat): (n: Option<nat>)
    ensures n.Some? ==> 0 < n.value <= |toks|
  {
    if toks == [] then None
    else
      var now := if toks[0].Open? then level + 1 else if toks[0].Close? then level - 1 else level;
      if now <= 0 then Some(1)
      else match Group(toks[1..], now)
           case None => None
           case Some(n) => Some(n + 1)
  }

  predicate IsGroup(toks: seq<Token>)
  {
    toks != [] && toks[0].Open? && Group(toks, 0) == Some(|toks|)
  }

  /** The leading argument list of `toks`, or nothing when there is none. */
  function Args(toks: seq<Token>): (args: seq<Token>)
    ensures args <= toks
  {
    if toks != [] && toks[0].Open? && Group(toks, 0).Some? then toks[..Group(toks, 0).value] else []
  }

  lemma {:induction false} GroupPrefix(toks: seq<Token>, level: nat)
    requires Group(toks, level).Some?
    ensures var n := Group(toks, level).value; Group(toks[..n], level) == Some(n)
  {
    var n := Group(toks, level).value;
    var now := if toks[0].Open? then level + 1 else if toks[0].Close? then level - 1 else level;
    if now > 0 {
      GroupPrefix(toks[1..], now);
      assert toks[..n][1..] == toks[1..][..n - 1];
    }
  }

  lemma {:induction false} GroupExtend(toks: seq<Token>, more: seq<Token>, level: nat)
    requires Group(toks, level) == Some(|toks|)
    ensures Group(toks + more, level) == Some(|toks|)
  {
    var now := if toks[0].Open? then level + 1 else if toks[0].Close? then level - 1 else level;
    assert (toks + more)[0] == toks[0];
    if now > 0 {
      assert (toks + more)[1..] == toks[1..] + more;
      GroupExtend(toks[1..], more, now);
    }
  }

  // ----- printing

  function DefinedTail(paren: bool, word: seq<Token>): seq<Token>
  {
    if paren then [Open] + word + [Close] else word
  }

  function Print(e: Expr): (toks: seq<Token>)
    ensures toks != []
  {
    match e
    case Lit(text, value) => [Num(text, value)]
    case Sym(name) => [Ident(name)]
    case Call(name, args) => [Ident(name)] + args
    case DefinedOf(paren, word) =>
      [DEFINED] + DefinedTail(paren, word)
    case Neg(e) => [Not] + Print(e)
    case Paren(e) => [Open] + (Print(e) + [Close])
    case Bin(op, l, r) => Print(l) + ([Op(op)] + Print(r))
  }

  /** The tree needs no brackets beyond its own Paren nodes to be read back at
      precedence `level`, and every symbol in it can be read under `syms`. */
  predicate WellFormed(syms: Symbols, level: nat, e: Expr)
    decreases e
  {
    match e
    case Lit(_, _) => true
    case Sym(name) => name != "defined" && (name in syms ==> !syms[name].def.Text?)
    case Call(name, args) =>
      name != "defined" && IsGroup(args) && (name in syms ==> syms[name].def.Integer?)
    case DefinedOf(_, word) => |word| <= 1 && (word != [] ==> word[0].IsWord())
    case Neg(e) => WellFormed(syms, 4, e)
    case Paren(e) => WellFormed(syms, 0, e)
    case Bin(op, l, r) =>
      level <= LevelOf(op) && WellFormed(syms, LevelOf(op), l) && WellFormed(syms, LevelOf(op) + 1, r)
  }

  // ----- parsing

  datatype Parsed = Parsed(e: Expr, rest: seq<Token>)

  /** Reads !expr, (expr), a number, defined, or a symbol with optional arguments. */
  function ParseUnary(syms: Symbols, toks: seq<Token>): (p: Option<Parsed>)
    ensures p.Some? ==> |p.value.rest| < |toks|
    decreases |toks|, 0
  {
    if toks == [] then None
    else if toks[0].Not? then
      match ParseUnary(syms, toks[1..])
      case None => None
      case Some(p) => Some(Parsed(Neg(p.e), p.rest))
    else if toks[0].Open? then
      match ParseLevel(syms, 0, toks[1..])
      case None => None
      case Some(p) =>
        if p.rest == [] || !p.rest[0].Close? then None else Some(Parsed(Paren(p.e), p.rest[1..]))
    else if toks[0].Num? then
      Some(Parsed(Lit(toks[0].text, toks[0].value), toks[1..]))
    else if toks[0] == DEFINED then
      ParseDefined(toks[1..])
    else if toks[0].Ident? then
      ParseSymbol(syms, toks[0].name, toks[1..])
    else None
  }

  function ParseDefined(toks: seq<Token>): (p: Option<Parsed>)
    ensures p.Some? ==> |p.value.rest| <= |toks|
  {
    var paren := toks != [] && toks[0].Open?;
    var inner := if paren then toks[1..] else toks;
    var word := if inner != [] && inner[0].IsWord() then inner[..1] else [];
    var rest := inner[|word|..];
    if !paren then Some(Parsed(DefinedOf(false, word), rest))
    else if rest == [] || !rest[0].Close? then None
    else Some(Parsed(DefinedOf(true, word), rest[1..]))
  }

  function ParseSymbol(syms: Symbols, name: string, toks: seq<Token>): (p: Option<Parsed>)
    ensures p.Some? ==> |p.value.rest| <= |toks|
  {
    if name in syms && syms[name].def.Text? then None
    else if name in syms && syms[name].def.Undefined? then Some(Parsed(Sym(name), toks))
    else
      var args := Args(toks);
      Some(Parsed(if args == [] then Sym(name) else Call(name, args), toks[|args|..]))
  }

  /** Reads an expression whose operators all bind at least as tightly as `level`. */
  function ParseLevel(syms: Symbols, level: nat, toks: seq<Token>): (p: Option<Parsed>)
    requires level <= 4
    ensures p.Some? ==> |p.value.rest| < |toks|
    decreases |toks|, 5 - level
  {
    if level == 4 then ParseUnary(syms, toks)
    else match ParseLevel(syms, level + 1, toks)
         case None => None
         case Some(p) => ParseTail(syms, level, p.e, p.rest)
  }

  /** Extends `lhs` to the left-associated chain of operators of row `level`. */
  function ParseTail(syms: Symbols, level: nat, lhs: Expr, toks: seq<Token>): (p: Option<Parsed>)
    requires level <= 4
    ensures p.Some? ==> |p.value.rest| <= |toks|
    decreases |toks|, 6
  {
    if toks == [] || !toks[0].Op? || LevelOf(toks[0].op) != level then Some(Parsed(lhs, toks))
    else match ParseLevel(syms, level + 1, toks[1..])
         case None => None
         case Some(p) => ParseTail(syms, level, Bin(toks[0].op, lhs, p.e), p.rest)
  }
}
