/** The grammar is exact: what the parser of unifdef.c accepts is what the printer of
    expression trees produces, and the other way round. */
module UnifdefGrammar {
  import opened UnifdefExpr
  import opened Wrappers

  // ----- what the parser accepts is what the printer produces

  lemma WellFormedBelow(syms: Symbols, level: nat, level': nat, e: Expr)
    requires level' <= level && WellFormed(syms, level, e)
    ensures WellFormed(syms, level', e)
  {
  }

  lemma ParseDefinedReads(toks: seq<Token>)
    requires ParseDefined(toks).Some?
    ensures var p := ParseDefined(toks).value;
            [DEFINED] + toks == Print(p.e) + p.rest && WellFormed(map[], 4, p.e)
  {
    ParseDefinedForms(toks);
    hide WellFormed, ParseDefined, DefinedTail;
    var e, rest := ParseDefined(toks).value.e, ParseDefined(toks).value.rest;
    DefinedTokens(toks);
    assert [DEFINED] + (DefinedTail(e.paren, e.word) + rest) == ([DEFINED] + DefinedTail(e.paren, e.word)) + rest;
  }

  lemma DefinedTokens(toks: seq<Token>)
    requires ParseDefined(toks).Some?
    ensures var p := ParseDefined(toks).value;
            p.e.DefinedOf? && toks == DefinedTail(p.e.paren, p.e.word) + p.rest
  {
    var p := ParseDefined(toks).value;
    var word := p.e.word;
    if toks != [] && toks[0].Open? {
      PrefixRest([Open], toks);
      PrefixRest(word, toks[1..]);
      PrefixRest([Close], toks[1..][|word|..]);
      TailThere(word, p.rest);
    } else {
      PrefixRest(word, toks);
    }
  }

  lemma TailThere(word: seq<Token>, rest: seq<Token>)
    ensures [Open] + (word + ([Close] + rest)) == DefinedTail(true, word) + rest
  {
  }

  lemma ParseDefinedForms(toks: seq<Token>)
    requires ParseDefined(toks).Some?
    ensures WellFormed(map[], 4, ParseDefined(toks).value.e)
  {
  }

  lemma PrefixRest(a: seq<Token>, toks: seq<Token>)
    requires a <= toks
    ensures toks == a + toks[|a|..] && a == toks[..|a|]
  {
  }

  lemma ParseSymbolReads(syms: Symbols, name: string, toks: seq<Token>)
    requires name != "defined" && ParseSymbol(syms, name, toks).Some?
    ensures var p := ParseSymbol(syms, name, toks).value;
            [Ident(name)] + toks == Print(p.e) + p.rest && WellFormed(syms, 4, p.e)
  {
    if !(name in syms && syms[name].def.Undefined?) && Args(toks) != [] {
      GroupPrefix(toks, 0);
      PrefixRest(Args(toks), toks);
    }
  }

  lemma {:induction false} ParseUnaryReads(syms: Symbols, toks: seq<Token>)
    requires ParseUnary(syms, toks).Some?
    ensures var p := ParseUnary(syms, toks).value;
            toks == Print(p.e) + p.rest && WellFormed(syms, 4, p.e)
    decreases |toks|, 0
  {
    var head, tail := toks[0], toks[1..];
    assert toks == [head] + tail;
    if head.Not? {
      ParseUnaryReads(syms, tail);
      var p := ParseUnary(syms, tail).value;
      assert [head] + (Print(p.e) + p.rest) == ([head] + Print(p.e)) + p.rest;
    } else if head.Open? {
      ParseReads(syms, 0, tail);
      var p := ParseLevel(syms, 0, tail).value;
      assert p.rest == [Close] + p.rest[1..];
      Regroup([head], Print(p.e), [Close], p.rest[1..]);
    } else if head.Num? {
    } else if head == DEFINED {
      ParseDefinedReads(tail);
    } else {
      ParseSymbolReads(syms, head.name, tail);
    }
  }

  /** Parsing never misreads: an accepted prefix is the printed form of the tree
      it is read as, and that tree respects precedence and associativity. */
  lemma {:induction false} ParseReads(syms: Symbols, level: nat, toks: seq<Token>)
    requires level <= 4 && ParseLevel(syms, level, toks).Some?
    ensures var p := ParseLevel(syms, level, toks).value;
            toks == Print(p.e) + p.rest && WellFormed(syms, level, p.e)
    decreases |toks|, 5 - level
  {
    if level == 4 {
      ParseUnaryReads(syms, toks);
    } else {
      ParseReads(syms, level + 1, toks);
      var p := ParseLevel(syms, level + 1, toks).value;
      WellFormedBelow(syms, level + 1, level, p.e);
      ParseTailReads(syms, level, p.e, p.rest);
    }
  }

  lemma PrintBin(op: BinOp, l: Expr, r: Expr, toks: seq<Token>, rest: seq<Token>)
    requires toks != [] && toks[0] == Op(op) && toks[1..] == Print(r) + rest
    ensures Print(l) + toks == Print(Bin(op, l, r)) + rest
  {
    assert toks == [Op(op)] + (Print(r) + rest);
    Regroup(Print(l), [Op(op)], Print(r), rest);
  }

  lemma {:induction false} ParseTailReads(syms: Symbols, level: nat, lhs: Expr, toks: seq<Token>)
    requires level <= 4 && WellFormed(syms, level, lhs) && ParseTail(syms, level, lhs, toks).Some?
    ensures var p := ParseTail(syms, level, lhs, toks).value;
            Print(lhs) + toks == Print(p.e) + p.rest && WellFormed(syms, level, p.e)
    decreases |toks|, 6
  {
    if toks == [] || !toks[0].Op? || LevelOf(toks[0].op) != level {
    } else {
      hide Print;
      ParseReads(syms, level + 1, toks[1..]);
      var p := ParseLevel(syms, level + 1, toks[1..]).value;
      ParseTailReads(syms, level, Bin(toks[0].op, lhs, p.e), p.rest);
      PrintBin(toks[0].op, lhs, p.e, toks, p.rest);
    }
  }

  lemma Regroup(a: seq<Token>, b: seq<Token>, c: seq<Token>, d: seq<Token>)
    ensures a + (b + (c + d)) == (a + (b + c)) + d == ((a + b) + c) + d
  {
  }

  // ----- what the printer produces, the parser reads back

  /** `rest` cannot be taken for a continuation of an expression of row `level`. */
  predicate Follows(level: nat, rest: seq<Token>)
  {
    rest == [] ||
    (!rest[0].Open? && !rest[0].IsWord() && (rest[0].Op? ==> LevelOf(rest[0].op) < level))
  }

  lemma ParseDefinedTail(paren: bool, word: seq<Token>, rest: seq<Token>)
    requires WellFormed(map[], 4, DefinedOf(paren, word)) && Follows(4, rest)
    ensures ParseDefined(DefinedTail(paren, word) + rest) == Some(Parsed(DefinedOf(paren, word), rest))
  {
    var toks := DefinedTail(paren, word) + rest;
    var after := if paren then [Close] + rest else rest;
    var inner := if paren then toks[1..] else toks;
    assert inner == word + after;
    assert inner[..|word|] == word && inner[|word|..] == after;
  }

  lemma UnaryWord(syms: Symbols, name: string, tail: seq<Token>, rest: seq<Token>)
    ensures ParseUnary(syms, ([Ident(name)] + tail) + rest)
         == if name == "defined" then ParseDefined(tail + rest) else ParseSymbol(syms, name, tail + rest)
  {
    assert (([Ident(name)] + tail) + rest)[1..] == tail + rest;
  }

  lemma ParseSymbolCall(syms: Symbols, name: string, args: seq<Token>, rest: seq<Token>)
    requires WellFormed(syms, 4, Call(name, args))
    ensures ParseSymbol(syms, name, args + rest) == Some(Parsed(Call(name, args), rest))
  {
    GroupExtend(args, rest, 0);
    assert (args + rest)[..|args|] == args && (args + rest)[|args|..] == rest;
  }

  lemma ParsePrintDefined(syms: Symbols, paren: bool, word: seq<Token>, rest: seq<Token>)
    requires WellFormed(map[], 4, DefinedOf(paren, word)) && Follows(4, rest)
    ensures ParseUnary(syms, Print(DefinedOf(paren, word)) + rest) == Some(Parsed(DefinedOf(paren, word), rest))
  {
    ParseDefinedTail(paren, word, rest);
    UnaryWord(syms, "defined", DefinedTail(paren, word), rest);
  }

  lemma ParsePrintCall(syms: Symbols, name: string, args: seq<Token>, rest: seq<Token>)
    requires WellFormed(syms, 4, Call(name, args))
    ensures ParseUnary(syms, Print(Call(name, args)) + rest) == Some(Parsed(Call(name, args), rest))
  {
    ParseSymbolCall(syms, name, args, rest);
    UnaryWord(syms, name, args, rest);
  }

  lemma ParsePrintPrefixed(syms: Symbols, f: Expr, rest: seq<Token>)
    ensures ParseUnary(syms, Print(f) + rest) == Some(Parsed(f, rest))
        ==> ParseUnary(syms, Print(Neg(f)) + rest) == Some(Parsed(Neg(f), rest))
    ensures ParseLevel(syms, 0, Print(f) + ([Close] + rest)) == Some(Parsed(f, [Close] + rest))
        ==> ParseUnary(syms, Print(Paren(f)) + rest) == Some(Parsed(Paren(f), rest))
  {
    assert (Print(Neg(f)) + rest)[1..] == Print(f) + rest;
    assert (Print(Paren(f)) + rest)[1..] == Print(f) + ([Close] + rest);
    assert ([Close] + rest)[1..] == rest;
  }

  lemma ParsePrintLeaf(syms: Symbols, e: Expr, rest: seq<Token>)
    requires (e.Lit? || e.Sym?) && WellFormed(syms, 4, e) && Follows(4, rest)
    ensures ParseUnary(syms, Print(e) + rest) == Some(Parsed(e, rest))
  {
    assert (Print(e) + rest)[1..] == rest;
  }

  lemma {:induction false} ParsePrintUnary(syms: Symbols, e: Expr, rest: seq<Token>)
    requires !e.Bin? && WellFormed(syms, 4, e) && Follows(4, rest)
    ensures ParseUnary(syms, Print(e) + rest) == Some(Parsed(e, rest))
    decreases e, 0
  {
    if e.Neg? {
      ParsePrint(syms, 4, e.e, rest);
      ParsePrintPrefixed(syms, e.e, rest);
    } else if e.Paren? {
      ParsePrint(syms, 0, e.e, [Close] + rest);
      ParsePrintPrefixed(syms, e.e, rest);
    } else if e.DefinedOf? {
      ParsePrintDefined(syms, e.paren, e.word, rest);
    } else if e.Call? {
      ParsePrintCall(syms, e.name, e.args, rest);
    } else {
      ParsePrintLeaf(syms, e, rest);
    }
  }

  lemma TailStops(syms: Symbols, level: nat, e: Expr, rest: seq<Token>)
    requires level <= 4 && Follows(level, rest)
    ensures ParseTail(syms, level, e, rest) == Some(Parsed(e, rest))
  {
  }

  lemma TailStep(syms: Symbols, op: BinOp, l: Expr, r: Expr, rest: seq<Token>)
    requires ParseLevel(syms, LevelOf(op) + 1, Print(r) + rest) == Some(Parsed(r, rest))
    ensures ParseTail(syms, LevelOf(op), l, [Op(op)] + (Print(r) + rest))
         == ParseTail(syms, LevelOf(op), Bin(op, l, r), rest)
  {
    assert ([Op(op)] + (Print(r) + rest))[1..] == Print(r) + rest;
  }

  lemma LevelStep(syms: Symbols, level: nat, e: Expr, toks: seq<Token>, rest: seq<Token>)
    requires level < 4 && ParseLevel(syms, level + 1, toks) == Some(Parsed(e, rest))
    ensures ParseLevel(syms, level, toks) == ParseTail(syms, level, e, rest)
  {
  }

  /** Reading a printed tree rebuilds it and stops exactly at its end. */
  lemma {:induction false} ParsePrint(syms: Symbols, level: nat, e: Expr, rest: seq<Token>)
    requires level <= 4 && WellFormed(syms, level, e) && Follows(if level == 4 then 4 else level + 1, rest)
    ensures ParseLevel(syms, level, Print(e) + rest) == ParseTail(syms, level, e, rest)
    decreases e, 5 - level
  {
    hide ParseTail;
    var toks := Print(e) + rest;
    if level == 4 {
      ParsePrintUnary(syms, e, rest);
      TailStops(syms, 4, e, rest);
    } else if e.Bin? && LevelOf(e.op) == level {
      var tail := [Op(e.op)] + (Print(e.r) + rest);
      ParsePrint(syms, level, e.l, tail);
      ParsePrint(syms, level + 1, e.r, rest);
      TailStops(syms, level + 1, e.r, rest);
      TailStep(syms, e.op, e.l, e.r, rest);
      Regroup(Print(e.l), [Op(e.op)], Print(e.r), rest);
    } else {
      ParsePrint(syms, level + 1, e, rest);
      TailStops(syms, level + 1, e, rest);
      LevelStep(syms, level, e, toks, rest);
    }
  }

  /** Exactly the printed forms of well-formed trees are read to the end. */
  lemma GrammarExact(syms: Symbols, toks: seq<Token>, e: Expr)
    ensures ParseLevel(syms, 0, toks) == Some(Parsed(e, []))
       <==> toks == Print(e) && WellFormed(syms, 0, e)
  {
    if ParseLevel(syms, 0, toks) == Some(Parsed(e, [])) {
      ParseReads(syms, 0, toks);
    }
    if toks == Print(e) && WellFormed(syms, 0, e) {
      ParsePrint(syms, 0, e, []);
      assert Print(e) + [] == toks;
    }
  }

  /** Knowing more symbols never changes how a complete expression is read. */
  lemma {:induction false} WellFormedAnySymbols(syms: Symbols, level: nat, e: Expr)
    requires WellFormed(syms, level, e)
    ensures WellFormed(map[], level, e)
    decreases e
  {
    match e
    case Neg(f) => WellFormedAnySymbols(syms, 4, f);
    case Paren(f) => WellFormedAnySymbols(syms, 0, f);
    case Bin(op, l, r) =>
      WellFormedAnySymbols(syms, LevelOf(op), l);
      WellFormedAnySymbols(syms, LevelOf(op) + 1, r);
    case _ =>
  }

  lemma ReadSameWithoutSymbols(syms: Symbols, toks: seq<Token>, e: Expr)
    requires ParseLevel(syms, 0, toks) == Some(Parsed(e, []))
    ensures ParseLevel(map[], 0, toks) == Some(Parsed(e, []))
  {
    GrammarExact(syms, toks, e);
    WellFormedAnySymbols(syms, 0, e);
    GrammarExact(map[], toks, e);
  }
}
