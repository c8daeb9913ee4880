/** What unifdef leaves: no condition that it can decide, and nothing but text when it can
    decide all of them. */
module UnifdefReduces {
  import opened UnifdefExpr
  import opened UnifdefEval
  import opened UnifdefMachine
  import opened UnifdefMeaning
  import opened UnifdefDecides
  import opened Sequences
  import opened Wrappers

  // ----- nothing decided is left

  /** #ifdef and #ifndef of a symbol that is given are decided, unless more is on the line. */
  lemma IfdefDecided(o: Options, negated: bool, name: string, junk: bool)
    requires name != ""
    ensures var base := IfdefType(o, negated, name, junk);
            && (base in {TRUE, TRUEI} <==> name in o.syms && !junk && (o.syms[name].def != Undefined <==> !negated))
            && (base in {FALSE, FALSEI} <==> name in o.syms && !junk && (o.syms[name].def != Undefined <==> negated))
            && (base == IF <==> name !in o.syms || junk)
  {
  }

  predicate HasCondition(line: Line)
  {
    line.If? || line.Ifdef? || line.Elif?
  }

  /** No verdict can be given on the condition of the line. */
  predicate Undecided(o: Options, line: Line)
  {
    match line
    case If(cond, _) => Classify(o, cond) == LT_IF
    case Elif(cond, _) => Classify(o, cond) == LT_IF
    case Ifdef(negated, name, junk, _) => IfdefType(o, negated, name, junk) == IF
    case _ => true
  }

  /** Of the lines with a condition only those are written that are undecided, or split over
      lines and passed with -e; an #elif may become an #if. */
  lemma StepLeaves(o: Options, s: Ifstate, line: Line)
    ensures var m := MoveOf(o, s, line);
            m.Stay? || m.Set? || m.Push? || m.Pop? ==>
              |m.out| <= 1 &&
              forall i :: 0 <= i < |m.out| && !m.out[i].Plain? && !m.out[i].Else? && !m.out[i].Endif? ==>
                (m.out[i] == line || m.out[i] == AsIf(line)) && (Undecided(o, m.out[i]) || (m.out[i].dodgy && o.iocccok))
  {
    TableMoves(o, s, line);
    UndecidedBase(o, line);
    if HasCondition(line) {
      if KeepsLine(MoveOf(o, s, line)) {
        KeptLines(o, s, line);
      }
      hide MoveOf, LineType, Undecided;
      LeavesAsKept(o, s, line, MoveOf(o, s, line));
    }
  }

  predicate KeepsLine(m: Move)
  {
    (m.Push? || m.Set?) && m.out != [] && m.s == PASS_MIDDLE
  }

  /** The type of a line tells whether it is decided. */
  lemma UndecidedBase(o: Options, line: Line)
    ensures HasCondition(line) ==> (Undecided(o, line) <==> BaseOf(o, line) in {IF, ELIF})
    ensures Undecided(o, AsIf(line)) == Undecided(o, line)
  {
  }

  lemma LeavesAsKept(o: Options, s: Ifstate, line: Line, m: Move)
    requires HasCondition(line) && (TableMove(s, BaseOf(o, line), line, m) || m == Fail)
    requires KeepsLine(m) ==> Undecided(o, line) || (line.dodgy && o.iocccok)
    requires Undecided(o, AsIf(line)) == Undecided(o, line)
    ensures m.Stay? || m.Set? || m.Push? || m.Pop? ==>
              |m.out| <= 1 &&
              forall i :: 0 <= i < |m.out| && !m.out[i].Plain? && !m.out[i].Else? && !m.out[i].Endif? ==>
                (m.out[i] == line || m.out[i] == AsIf(line)) && (Undecided(o, m.out[i]) || (m.out[i].dodgy && o.iocccok))
  {
  }

  lemma {:induction false} RunLeaves(o: Options, stack: seq<Ifstate>, lines: seq<Line>)
    requires StackOk(stack) && Run(o, stack, lines).Some?
    ensures forall line :: line in Run(o, stack, lines).value && !line.Plain? && !line.Else? && !line.Endif? ==>
              Undecided(o, line) || (line.dodgy && o.iocccok)
    decreases |lines|
  {
    if lines != [] {
      RunUnfold(o, stack, lines);
      StepSafe(o, stack, lines[0]);
      StepLeaves(o, Last(stack), lines[0]);
      RunLeaves(o, Step(o, stack, lines[0]).stack, lines[1..]);
    }
  }

  /** Nothing that unifdef can decide is left in its output, but what is split over lines
      and passed with -e. */
  lemma NothingDecidedLeft(o: Options, lines: seq<Line>)
    requires Unifdef(o, lines).Some?
    ensures forall line :: line in Unifdef(o, lines).value && !line.Plain? && !line.Else? && !line.Endif? ==>
              Undecided(o, line) || (line.dodgy && o.iocccok)
  {
    RunLeaves(o, [OUTSIDE], lines);
  }

  // ----- a file that is decided everywhere

  /** The line has no condition, or one that is decided, on one line. */
  predicate Settled(o: Options, line: Line)
  {
    !line.Plain? ==> !line.dodgy && (line.Else? || line.Endif? || !Undecided(o, line))
  }

  lemma {:induction false} RunSettled(o: Options, stack: seq<Ifstate>, lines: seq<Line>)
    requires StackOk(stack) && Run(o, stack, lines).Some? && forall line :: line in lines ==> Settled(o, line)
    ensures forall line :: line in Run(o, stack, lines).value ==> !HasCondition(line)
    decreases |lines|
  {
    if lines != [] {
      RunUnfold(o, stack, lines);
      StepSafe(o, stack, lines[0]);
      StepLeaves(o, Last(stack), lines[0]);
      assert Settled(o, lines[0]);
      RunSettled(o, Step(o, stack, lines[0]).stack, lines[1..]);
    }
  }

  lemma {:induction false} NoOpenings(lines: seq<Line>)
    requires Nests([], lines) && forall line :: line in lines ==> !HasCondition(line)
    ensures forall line :: line in lines ==> line.Plain?
    decreases |lines|
  {
    if lines != [] {
      assert lines[0] in lines;
      NoOpenings(lines[1..]);
    }
  }

  function Texts(lines: seq<Line>): seq<string>
    requires forall line :: line in lines ==> line.Plain?
  {
    if lines == [] then [] else [lines[0].text] + Texts(lines[1..])
  }

  lemma {:induction false} PlainIncluded(c: Completion, lines: seq<Line>)
    requires forall line :: line in lines ==> line.Plain?
    ensures Cpp(c, [], lines) == Some(Texts(lines))
    decreases |lines|
  {
    if lines != [] {
      PlainIncluded(c, lines[1..]);
      CppCons(c, [], lines[0], lines[1..]);
      assert lines == [lines[0]] + lines[1..];
    }
  }

  /** When every condition is decided the output has no directives: it is the text that C
      includes. */
  lemma AllDecided(o: Options, c: Completion, lines: seq<Line>)
    requires Unifdef(o, lines).Some? && (forall line :: line in lines ==> Settled(o, line))
    requires Admits(o, c) && LinesFit(o, lines)
    ensures var out := Unifdef(o, lines).value;
            (forall line :: line in out ==> line.Plain?) && Cpp(c, [], lines) == Some(Texts(out))
  {
    var out := Unifdef(o, lines).value;
    RunSettled(o, [OUTSIDE], lines);
    Idempotent(o, lines);
    AcceptsExactly(o, out);
    NoOpenings(out);
    MeaningPreserved(o, c, lines);
    PlainIncluded(c, out);
  }

  // ----- short cuts

  /** `#if A && B` goes with its group when B is given with -U, and `#if A || B` stays
      without its directives when B is given with -D and 1, whatever A is. */
  lemma ShortCutsDecide(o: Options)
    requires !o.strict && "A" !in o.syms && "B" in o.syms
    ensures o.syms["B"].def.Undefined? ==> Unifdef(o, Group1([Ident("A"), Op(And), Ident("B")])) == Some([])
    ensures o.syms["B"].def == Integer(1) ==> Unifdef(o, Group1([Ident("A"), Op(Or), Ident("B")])) == Some([Plain("x")])
  {
    SymbolDecided(o.syms, false, "B", false);
    if o.syms["B"].def.Undefined? {
      PairJudged(o, And, LT_FALSE);
    } else if o.syms["B"].def == Integer(1) {
      PairJudged(o, Or, LT_TRUE);
    }
  }

  lemma PairJudged(o: Options, op: BinOp, v: Verdict)
    requires !o.strict && "A" !in o.syms && "B" in o.syms
    requires (op == And && o.syms["B"].def.Undefined? && v == LT_FALSE) || (op == Or && o.syms["B"].def == Integer(1) && v == LT_TRUE)
    ensures Unifdef(o, Group1([Ident("A"), Op(op), Ident("B")]))
         == Some(if v == LT_TRUE then [Plain("x")] else [])
  {
    var l, r := Sym("A"), Sym("B");
    var e := Bin(op, l, r);
    var toks := [Ident("A"), Op(op), Ident("B")];
    assert UnifdefExpr.Print(e) == toks && toks[0].Ident?;
    assert WellFormed(o.syms, 0, e);
    SymbolDecided(o.syms, false, "B", false);
    AndDecided(o.syms, false, l, r);
    OrDecided(o.syms, false, l, r);
    VerdictExactly(o, e);
    Group1Output(o, toks, v);
  }

  /** #ifdef of a symbol that is given goes: with its group, or from around it. */
  lemma IfdefGoes(o: Options, negated: bool, name: string)
    requires name != "" && name in o.syms
    ensures Unifdef(o, [Ifdef(negated, name, false, false), Plain("x"), Endif(false)])
         == Some(if o.syms[name].def.Undefined? == negated then [Plain("x")] else [])
  {
    var first := Ifdef(negated, name, false, false);
    var lines, rest := [first, Plain("x"), Endif(false)], [Plain("x"), Endif(false)];
    var s := if o.syms[name].def.Undefined? == negated then TRUE_PREFIX else FALSE_PREFIX;
    IfdefDecided(o, negated, name, false);
    assert MoveOf(o, OUTSIDE, first) == Push(s, []);
    assert [OUTSIDE] + [s] == [OUTSIDE, s] && lines[1..] == rest;
    var out := if s == TRUE_PREFIX then [Plain("x")] else [];
    BodyLeaves(o, s, out);
    RunUnfold(o, [OUTSIDE], lines);
    assert [] + out == out;
  }

  // ----- directives that are split over lines

  /** A split directive is written as it is, refused, or goes with text that goes anyway;
      only an undecided #elif may turn into the #if of its group. One that could be
      decided is refused unless -e is given. */
  lemma SplitDirectives(o: Options, s: Ifstate, line: Line)
    requires !line.Plain? && line.dodgy
    ensures MoveOf(o, s, line) ==
            if line.If? || line.Ifdef? then
              (if s in {FALSE_PREFIX, FALSE_MIDDLE, FALSE_ELSE, FALSE_TRAILER} then Push(FALSE_TRAILER, [])
               else if Undecided(o, line) || o.iocccok then Push(PASS_MIDDLE, [line])
               else Fail)
            else if s == PASS_MIDDLE then
              (if line.Endif? then Pop([line])
               else if line.Else? then Set(PASS_ELSE, [line])
               else if Undecided(o, line) || o.iocccok then Set(PASS_MIDDLE, [line])
               else Fail)
            else if line.Endif? then (if s in {TRUE_MIDDLE, PASS_ELSE} then Pop([line]) else Fail)
            else if s == FALSE_TRAILER then Set(if line.Else? then FALSE_ELSE else FALSE_TRAILER, [])
            else if s == FALSE_PREFIX && line.Elif? && Undecided(o, line) then Set(PASS_MIDDLE, [If(line.cond, true)])
            else Fail
  {
    UndecidedBase(o, line);
    if line.If? || line.Ifdef? {
      SplitOpening(o, s, BaseOf(o, line), line);
    } else if line.Elif? {
      SplitElif(o, s, BaseOf(o, line), line);
    }
  }

  lemma SplitOpening(o: Options, s: Ifstate, base: Base, line: Line)
    requires base in OPENINGS
    ensures Perform(o, Directive(s, base, true), line) ==
            if s in {FALSE_PREFIX, FALSE_MIDDLE, FALSE_ELSE, FALSE_TRAILER} then Push(FALSE_TRAILER, [])
            else if base == IF || o.iocccok then Push(PASS_MIDDLE, [line])
            else Fail
  {
  }

  lemma SplitElif(o: Options, s: Ifstate, base: Base, line: Line)
    requires base in {ELIF, ELTRUE, ELFALSE} && line.Elif? && line.dodgy
    ensures Perform(o, Directive(s, base, true), line) ==
            if s == PASS_MIDDLE then (if base == ELIF || o.iocccok then Set(PASS_MIDDLE, [line]) else Fail)
            else if s == FALSE_TRAILER then Set(FALSE_TRAILER, [])
            else if s == FALSE_PREFIX && base == ELIF then Set(PASS_MIDDLE, [If(line.cond, true)])
            else Fail
  {
  }
}
