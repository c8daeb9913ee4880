/** What unifdef's transformation means: conditional inclusion (section 6.10.1 of
    ISO/IEC 9899:1999) selects the same text from the output as from the input. */
module UnifdefMeaning {
  import opened UnifdefExpr
  import opened UnifdefGrammar
  import opened UnifdefEval
  import opened UnifdefMachine
  import opened Sequences
  import opened Wrappers

  // ----- conditional inclusion

  /** One open #if group: whether the text around it is included, whether one of
      its groups has been selected, whether the current group is included, and
      whether its #else has been seen. */
  datatype Frame = Frame(outer: bool, taken: bool, live: bool, els: bool)

  predicate Live(frames: seq<Frame>)
  {
    frames == [] || Last(frames).live
  }

  predicate Holds(c: Completion, line: Line)
  {
    match line
    case If(cond, _) => CTrue(c, cond)
    case Elif(cond, _) => CTrue(c, cond)
    case Ifdef(negated, name, _, _) => c.value(name).Some? != negated
    case _ => false
  }

  function Turned(c: Completion, f: Frame, line: Line): Frame
  {
    if line.Elif? then
      f.(taken := f.taken || Holds(c, line), live := f.outer && !f.taken && Holds(c, line))
    else
      f.(taken := true, live := f.outer && !f.taken, els := true)
  }

  datatype Included = Included(frames: seq<Frame>, text: seq<string>)

  function CppStep(c: Completion, frames: seq<Frame>, line: Line): Option<Included>
  {
    match line
    case Plain(text) => Some(Included(frames, if Live(frames) then [text] else []))
    case If(_, _) | Ifdef(_, _, _, _) =>
      var v := Holds(c, line);
      Some(Included(frames + [Frame(Live(frames), v, Live(frames) && v, false)], []))
    case Elif(_, _) | Else(_) =>
      if frames == [] || Last(frames).els then None
      else Some(Included(Front(frames) + [Turned(c, Last(frames), line)], []))
    case Endif(_) => if frames == [] then None else Some(Included(Front(frames), []))
  }

  function Join(text: seq<string>, rest: Option<seq<string>>): Option<seq<string>>
  {
    if rest.None? then None else Some(text + rest.value)
  }

  /** The plain lines that survive, or nothing when the groups do not nest. */
  function Cpp(c: Completion, frames: seq<Frame>, lines: seq<Line>): (text: Option<seq<string>>)
    decreases |lines|
  {
    if lines == [] then (if frames == [] then Some([]) else None)
    else
      var r := CppStep(c, frames, lines[0]);
      if r.None? then None else Join(r.value.text, Cpp(c, r.value.frames, lines[1..]))
  }

  // ----- the simulation

  /** The group's #if has been written and its #endif has not. */
  predicate IsOpen(s: Ifstate)
  {
    s in {PASS_MIDDLE, FALSE_MIDDLE, TRUE_MIDDLE, PASS_ELSE}
  }

  /** How the state of a group ties its frame on the input (`f`) to its frame on
      the output (`g`, meaningful only when the group is open there). */
  predicate Related(s: Ifstate, f: Frame, g: Frame)
  {
    match s
    case OUTSIDE => false
    case FALSE_PREFIX => !f.live && !f.taken && !f.els
    case TRUE_PREFIX => f.live == f.outer && f.taken && !f.els
    case PASS_MIDDLE => g == f && !f.els
    case FALSE_MIDDLE => !f.live && !f.els && !g.els && g.outer == f.outer && g.taken == f.taken
    case TRUE_MIDDLE => f.taken && !f.els && g.els && g.outer == f.outer && g.live == f.live
    case PASS_ELSE => f.els && g.els && g.outer == f.outer && g.live == f.live
    case FALSE_ELSE => !f.live && f.els
    case TRUE_ELSE => f.live == f.outer && f.els
    case FALSE_TRAILER => !f.live && !f.els && (f.outer ==> f.taken)
  }

  /** A group inside dropped text is dropped throughout. */
  predicate Inherits(outer: Ifstate, s: Ifstate)
  {
    !Prints(outer) ==> s in {FALSE_TRAILER, FALSE_ELSE}
  }

  predicate Sim(stack: seq<Ifstate>, ins: seq<Frame>, outs: seq<Frame>)
    requires stack != []
    decreases |stack|
  {
    if |stack| == 1 then stack == [OUTSIDE] && ins == [] && outs == []
    else if ins == [] || (IsOpen(Last(stack)) && outs == []) then false
    else
      var s, f := Last(stack), Last(ins);
      var outs' := if IsOpen(s) then Front(outs) else outs;
      var g := if IsOpen(s) then Last(outs) else f;
      && Sim(Front(stack), Front(ins), outs')
      && Inherits(Last(Front(stack)), s)
      && f.outer == Live(Front(ins))
      && Related(s, f, g)
  }

  /** Printing states include the same text on both sides; dropping states include none. */
  lemma {:induction false} SimLive(stack: seq<Ifstate>, ins: seq<Frame>, outs: seq<Frame>)
    requires stack != [] && Sim(stack, ins, outs)
    ensures Prints(Last(stack)) ==> Live(ins) == Live(outs)
    ensures !Prints(Last(stack)) ==> !Live(ins)
    decreases |stack|
  {
    if |stack| > 1 {
      var s := Last(stack);
      SimLive(Front(stack), Front(ins), if IsOpen(s) then Front(outs) else outs);
    }
  }

  lemma SimPush(stack: seq<Ifstate>, ins: seq<Frame>, outs: seq<Frame>, s: Ifstate, f: Frame, gs: seq<Frame>)
    requires stack != [] && Sim(stack, ins, outs)
    requires Inherits(Last(stack), s) && f.outer == Live(ins)
    requires if IsOpen(s) then |gs| == 1 && Related(s, f, gs[0]) else gs == [] && Related(s, f, f)
    ensures Sim(stack + [s], ins + [f], outs + gs)
  {
    assert Front(stack + [s]) == stack && Front(ins + [f]) == ins;
    if IsOpen(s) {
      assert Front(outs + gs) == outs && Last(outs + gs) == gs[0];
    } else {
      assert outs + gs == outs;
    }
  }

  // ----- conditions are judged soundly

  predicate LineFits(o: Options, line: Line)
  {
    (line.If? ==> ConditionOk(o.syms, line.cond)) && (line.Elif? ==> ConditionOk(o.syms, line.cond))
  }

  predicate LinesFit(o: Options, lines: seq<Line>)
  {
    forall i :: 0 <= i < |lines| ==> LineFits(o, lines[i])
  }

  lemma TypeSound(o: Options, c: Completion, line: Line)
    requires Admits(o, c) && LineFits(o, line)
    ensures var lt := LineType(o, line);
            lt.LT? ==> Judged(c, lt.base, line)
  {
    if line.If? || line.Elif? {
      ClassifySound(o, c, line.cond);
    }
  }

  // ----- one line

  /** Making move `m` on `line` from (stack, ins, outs) keeps the two sides together. */
  ghost predicate Follows(c: Completion, m: Move, stack: seq<Ifstate>, ins: seq<Frame>, outs: seq<Frame>, line: Line)
    requires stack != []
  {
    var r := Make(stack, m);
    var i := CppStep(c, ins, line);
    r.Next? && r.stack != [] && i.Some? &&
    if r.out == [] then i.value.text == [] && Sim(r.stack, i.value.frames, outs)
    else
      |r.out| == 1 &&
      var j := CppStep(c, outs, r.out[0]);
      j.Some? && j.value.text == i.value.text && Sim(r.stack, i.value.frames, j.value.frames)
  }

  /** What the table does with each kind of line. */
  predicate OpeningMove(s: Ifstate, base: Base, line: Line, m: Move)
  {
    m.Push? &&
    (if !Prints(s) then m == Push(FALSE_TRAILER, [])
     else || m == Push(PASS_MIDDLE, [line])
          || (m == Push(TRUE_PREFIX, []) && base in {TRUE, TRUEI})
          || (m == Push(FALSE_PREFIX, []) && base in {FALSE, FALSEI}))
  }

  const OPENINGS := {TRUEI, FALSEI, IF, TRUE, FALSE}

  lemma OpeningMoves(o: Options, s: Ifstate, base: Base, dodgy: bool, line: Line)
    requires base in OPENINGS
    ensures var m := Perform(o, Directive(s, base, dodgy), line);
            OpeningMove(s, base, line, m) || (m == Fail && dodgy)
  {
  }

  /** What the table does with an #elif of type `base` in state `s`. */
  predicate ElifMove(s: Ifstate, base: Base, line: Line, m: Move)
  {
    match s
    case FALSE_PREFIX =>
      if base == ELIF then m == Set(PASS_MIDDLE, [AsIf(line)])
      else m == Set(if base == ELTRUE then TRUE_PREFIX else FALSE_PREFIX, [])
    case TRUE_PREFIX | FALSE_TRAILER => m == Set(FALSE_TRAILER, [])
    case PASS_MIDDLE | FALSE_MIDDLE =>
      || m == Set(PASS_MIDDLE, [line])
      || (base == ELTRUE && m == Set(TRUE_MIDDLE, [Else(false)]))
      || (base == ELFALSE && m == Set(FALSE_MIDDLE, []))
    case TRUE_MIDDLE => m == Set(FALSE_TRAILER, [Endif(false)])
    case _ => false
  }

  lemma ElifMoves(o: Options, s: Ifstate, base: Base, dodgy: bool, line: Line)
    requires base in {ELIF, ELTRUE, ELFALSE}
    ensures var m := Perform(o, Directive(s, base, dodgy), line);
            ElifMove(s, base, line, m) || (m == Fail && (dodgy || s == OUTSIDE || InElse(s)))
  {
  }

  predicate ElseMove(s: Ifstate, line: Line, m: Move)
  {
    match s
    case FALSE_PREFIX => m == Set(TRUE_ELSE, [])
    case TRUE_PREFIX | FALSE_TRAILER => m == Set(FALSE_ELSE, [])
    case PASS_MIDDLE | FALSE_MIDDLE => m == Set(PASS_ELSE, [line])
    case TRUE_MIDDLE => m == Set(FALSE_ELSE, [Endif(false)])
    case _ => false
  }

  lemma ElseMoves(o: Options, s: Ifstate, dodgy: bool, line: Line)
    ensures var m := Perform(o, Directive(s, ELSE, dodgy), line);
            ElseMove(s, line, m) || (m == Fail && (dodgy || s == OUTSIDE || InElse(s)))
  {
  }

  lemma EndifMoves(o: Options, s: Ifstate, dodgy: bool, line: Line)
    ensures var m := Perform(o, Directive(s, ENDIF, dodgy), line);
            (s != OUTSIDE && m == Pop(if IsOpen(s) then [line] else [])) || (m == Fail && (dodgy || s == OUTSIDE))
  {
  }

  /** The move the table makes on `line`, whatever the options. */
  ghost predicate TableMove(s: Ifstate, base: Base, line: Line, m: Move)
  {
    match line
    case Plain(_) => m == Stay(if Prints(s) then [line] else [])
    case If(_, _) | Ifdef(_, _, _, _) => base in OPENINGS && OpeningMove(s, base, line, m)
    case Elif(_, _) => base in {ELIF, ELTRUE, ELFALSE} && ElifMove(s, base, line, m)
    case Else(_) => ElseMove(s, line, m)
    case Endif(_) => s != OUTSIDE && m == Pop(if IsOpen(s) then [line] else [])
  }

  function BaseOf(o: Options, line: Line): Base
  {
    if line.Plain? then IF else LineType(o, line).base
  }

  lemma TableMoves(o: Options, s: Ifstate, line: Line)
    ensures TableMove(s, BaseOf(o, line), line, MoveOf(o, s, line)) || MoveOf(o, s, line) == Fail
    ensures MoveOf(o, s, line) == Fail <==> Rejects(o, s, line)
    ensures Rejects(o, s, line) ==> Misplaced(s, line) || (!line.Plain? && line.dodgy)
    ensures Misplaced(s, line) ==> Rejects(o, s, line)
  {
    match line
    case Plain(_) =>
    case If(_, dodgy) => OpeningMoves(o, s, BaseOf(o, line), dodgy, line);
    case Ifdef(_, _, _, dodgy) => OpeningMoves(o, s, BaseOf(o, line), dodgy, line);
    case Elif(_, dodgy) => ElifMoves(o, s, BaseOf(o, line), dodgy, line);
    case Else(dodgy) => ElseMoves(o, s, dodgy, line);
    case Endif(dodgy) => EndifMoves(o, s, dodgy, line);
  }

  predicate Rejects(o: Options, s: Ifstate, line: Line)
  {
    MoveOf(o, s, line) == Fail
  }

  /** #elif, #else or #endif where no group can take it. */
  predicate Misplaced(s: Ifstate, line: Line)
  {
    match line
    case Elif(_, _) | Else(_) => s == OUTSIDE || InElse(s)
    case Endif(_) => s == OUTSIDE
    case _ => false
  }

  /** The type `base` of a line agrees with whether its condition holds. */
  predicate Judged(c: Completion, base: Base, line: Line)
  {
    && (base in {TRUE, TRUEI, ELTRUE} ==> Holds(c, line))
    && (base in {FALSE, FALSEI, ELFALSE} ==> !Holds(c, line))
  }

  lemma PlainFollows(c: Completion, m: Move, base: Base, stack: seq<Ifstate>, ins: seq<Frame>, outs: seq<Frame>, line: Line)
    requires stack != [] && Sim(stack, ins, outs)
    requires line.Plain? && TableMove(Last(stack), base, line, m)
    ensures Follows(c, m, stack, ins, outs, line)
  {
    SimLive(stack, ins, outs);
  }

  lemma OpeningRelated(c: Completion, s: Ifstate, base: Base, line: Line, m: Move, f: Frame)
    requires OpeningMove(s, base, line, m) && Judged(c, base, line)
    requires f == Frame(f.outer, Holds(c, line), f.outer && Holds(c, line), false) && (!Prints(s) ==> !f.outer)
    ensures Inherits(s, m.s) && Related(m.s, f, f) && (IsOpen(m.s) <==> m.out == [line])
    ensures m.out == [line] || m.out == []
    ensures m.out == [line] ==> Prints(s)
  {
  }

  lemma OpeningFollows(c: Completion, m: Move, base: Base, stack: seq<Ifstate>, ins: seq<Frame>, outs: seq<Frame>, line: Line)
    requires stack != [] && Sim(stack, ins, outs) && Make(stack, m).Next?
    requires (line.If? || line.Ifdef?) && TableMove(Last(stack), base, line, m) && Judged(c, base, line)
    ensures Follows(c, m, stack, ins, outs, line)
  {
    SimLive(stack, ins, outs);
    var f := Frame(Live(ins), Holds(c, line), Live(ins) && Holds(c, line), false);
    OpeningRelated(c, Last(stack), base, line, m, f);
    SimPush(stack, ins, outs, m.s, f, if IsOpen(m.s) then [f] else []);
    OpeningDone(c, m, stack, ins, outs, line, f);
  }

  lemma OpeningDone(c: Completion, m: Move, stack: seq<Ifstate>, ins: seq<Frame>, outs: seq<Frame>, line: Line, f: Frame)
    requires stack != [] && m.Push? && Make(stack, m).Next? && (line.If? || line.Ifdef?)
    requires f == Frame(Live(ins), Holds(c, line), Live(ins) && Holds(c, line), false)
    requires m.out == [] || (m.out == [line] && Live(outs) == Live(ins))
    requires Sim(stack + [m.s], ins + [f], outs + if m.out == [] then [] else [f])
    ensures Follows(c, m, stack, ins, outs, line)
  {
    assert outs + [] == outs;
  }

  /** The top of the three stacks, and what is below it. */
  lemma Unstack(stack: seq<Ifstate>, ins: seq<Frame>, outs: seq<Frame>)
    requires |stack| > 1 && Sim(stack, ins, outs)
    ensures stack == Front(stack) + [Last(stack)] && ins == Front(ins) + [Last(ins)]
    ensures IsOpen(Last(stack)) ==> outs != [] && outs == Front(outs) + [Last(outs)]
    ensures Prints(Last(Front(stack))) ==>
      Live(Front(ins)) == Live(if IsOpen(Last(stack)) then Front(outs) else outs)
    ensures Sim(Front(stack), Front(ins), if IsOpen(Last(stack)) then Front(outs) else outs)
    ensures Inherits(Last(Front(stack)), Last(stack)) && Last(ins).outer == Live(Front(ins))
    ensures Related(Last(stack), Last(ins), if IsOpen(Last(stack)) then Last(outs) else Last(ins))
  {
    var outs' := if IsOpen(Last(stack)) then Front(outs) else outs;
    assert Sim(Front(stack), Front(ins), outs') && ins != [];
    SimLive(Front(stack), Front(ins), outs');
    Rejoin(stack);
    Rejoin(ins);
    if IsOpen(Last(stack)) {
      Rejoin(outs);
    }
  }

  lemma Rejoin<T>(s: seq<T>)
    requires s != []
    ensures s == Front(s) + [Last(s)]
  {
  }

  /** #endif: an open group is closed on both sides, any other only on the input. */
  lemma ClosingFollows(c: Completion, m: Move, base: Base, stack: seq<Ifstate>, ins: seq<Frame>, outs: seq<Frame>, line: Line)
    requires |stack| > 1 && Sim(stack, ins, outs)
    requires line.Endif? && TableMove(Last(stack), base, line, m)
    ensures Follows(c, m, stack, ins, outs, line)
  {
  }

  predicate TurnMove(s: Ifstate, base: Base, line: Line, m: Move)
  {
    if line.Elif? then ElifMove(s, base, line, m) else line.Else? && ElseMove(s, line, m)
  }

  /** The frames that the output's copy of the group has after `out` is read. */
  function TurnedOut(c: Completion, s: Ifstate, f: Frame, g: Frame, out: seq<Line>): seq<Frame>
  {
    if out == [] then (if IsOpen(s) then [g] else [])
    else if out[0].If? then [Frame(f.outer, Holds(c, out[0]), f.outer && Holds(c, out[0]), false)]
    else if out[0].Endif? then []
    else [Turned(c, g, out[0])]
  }

  /** #elif and #else seen by one group: what is written, and that its frames stay related. */
  lemma TurnRelated(c: Completion, s: Ifstate, base: Base, line: Line, m: Move, f: Frame, g: Frame)
    requires TurnMove(s, base, line, m) && Judged(c, base, line) && Related(s, f, g)
    requires line.Elif? ==> base in {ELIF, ELTRUE, ELFALSE}
    ensures !f.els && m.Set? && |m.out| <= 1
    ensures m.out != [] ==>
      var w := m.out[0];
      (w.If? && s == FALSE_PREFIX) || ((w.Elif? || w.Else?) && IsOpen(s) && !g.els) || (w.Endif? && IsOpen(s))
    ensures var gs := TurnedOut(c, s, f, g, m.out);
            var f' := Turned(c, f, line);
            if IsOpen(m.s) then |gs| == 1 && Related(m.s, f', gs[0]) else gs == [] && Related(m.s, f', f')
  {
  }

  lemma TurnInherits(outer: Ifstate, s: Ifstate, base: Base, line: Line, m: Move)
    requires Inherits(outer, s) && TurnMove(s, base, line, m)
    ensures Inherits(outer, m.s)
    ensures s == FALSE_PREFIX ==> Prints(outer)
  {
  }

  /** A frame that turns stays in simulation with what is written for it. */
  lemma TurnedSim(c: Completion, m: Move, base: Base, stack: seq<Ifstate>, ins: seq<Frame>, below: seq<Frame>,
                  s: Ifstate, f: Frame, g: Frame, line: Line)
    requires stack != [] && Sim(stack, ins, below) && Inherits(Last(stack), s) && f.outer == Live(ins) && Related(s, f, g)
    requires TurnMove(s, base, line, m) && Judged(c, base, line) && (line.Elif? ==> base in {ELIF, ELTRUE, ELFALSE})
    ensures !f.els && m.Set? && |m.out| <= 1
    ensures m.out != [] ==>
      var w := m.out[0];
      || (w.If? && s == FALSE_PREFIX && f.outer == Live(below))
      || ((w.Elif? || w.Else?) && IsOpen(s) && !g.els) || (w.Endif? && IsOpen(s))
    ensures Sim(stack + [m.s], ins + [Turned(c, f, line)], below + TurnedOut(c, s, f, g, m.out))
  {
    hide Sim, TurnMove, Judged, Live, Inherits, TurnedOut, Related, Holds;
    TurnRelated(c, s, base, line, m, f, g);
    TurnInherits(Last(stack), s, base, line, m);
    SimLive(stack, ins, below);
    SimPush(stack, ins, below, m.s, Turned(c, f, line), TurnedOut(c, s, f, g, m.out));
  }

  lemma TurningFollows(c: Completion, m: Move, base: Base, stack: seq<Ifstate>, ins: seq<Frame>, outs: seq<Frame>, line: Line)
    requires |stack| > 1 && Sim(stack, ins, outs)
    requires (line.Elif? || line.Else?) && TableMove(Last(stack), base, line, m) && Judged(c, base, line)
    ensures Follows(c, m, stack, ins, outs, line)
  {
    Unstack(stack, ins, outs);
    hide Sim, TurnMove, Judged, Live, Inherits, TurnedOut, Related, Holds, Turned, CppStep, Follows;
    var s, f, below := Last(stack), Last(ins), if IsOpen(Last(stack)) then Front(outs) else outs;
    var g := if IsOpen(s) then Last(outs) else f;
    TurnedSim(c, m, base, Front(stack), Front(ins), below, s, f, g, line);
    TurnWritten(c, s, outs, below, m.out, f, g);
    TurnDone(c, m, stack, ins, outs, line, below + TurnedOut(c, s, f, g, m.out));
  }

  lemma TurnDone(c: Completion, m: Move, stack: seq<Ifstate>, ins: seq<Frame>, outs: seq<Frame>, line: Line, outs': seq<Frame>)
    requires stack != [] && m.Set? && ins != [] && !Last(ins).els && (line.Elif? || line.Else?) && |m.out| <= 1
    requires Sim(Front(stack) + [m.s], Front(ins) + [Turned(c, Last(ins), line)], outs')
    requires if m.out == [] then outs' == outs else CppStep(c, outs, m.out[0]) == Some(Included(outs', []))
    ensures Follows(c, m, stack, ins, outs, line)
  {
  }

  /** Reading what was written leaves the output's frames as TurnedOut says. */
  lemma TurnWritten(c: Completion, s: Ifstate, outs: seq<Frame>, below: seq<Frame>, out: seq<Line>, f: Frame, g: Frame)
    requires outs == below + (if IsOpen(s) then [g] else [])
    requires out != [] ==>
      var w := out[0];
      || (w.If? && !IsOpen(s) && f.outer == Live(below))
      || ((w.Elif? || w.Else?) && IsOpen(s) && !g.els)
      || (w.Endif? && IsOpen(s))
    ensures var gs := TurnedOut(c, s, f, g, out);
            if out == [] then below + gs == outs
            else CppStep(c, outs, out[0]) == Some(Included(below + gs, []))
  {
    if IsOpen(s) {
      assert Front(outs) == below && Last(outs) == g;
    }
    assert below + [] == below;
  }

  lemma StepFollows(o: Options, c: Completion, stack: seq<Ifstate>, ins: seq<Frame>, outs: seq<Frame>, line: Line)
    requires StackOk(stack) && Sim(stack, ins, outs)
    requires Admits(o, c) && LineFits(o, line) && Step(o, stack, line).Next?
    ensures Follows(c, MoveOf(o, Last(stack), line), stack, ins, outs, line)
  {
    var m, base := MoveOf(o, Last(stack), line), BaseOf(o, line);
    TableMoves(o, Last(stack), line);
    BaseJudged(o, c, line);
    InsideGroup(stack, base, line, m);
    if line.Plain? {
      PlainFollows(c, m, base, stack, ins, outs, line);
    } else if line.If? || line.Ifdef? {
      OpeningFollows(c, m, base, stack, ins, outs, line);
    } else if line.Endif? {
      ClosingFollows(c, m, base, stack, ins, outs, line);
    } else {
      TurningFollows(c, m, base, stack, ins, outs, line);
    }
  }

  lemma BaseJudged(o: Options, c: Completion, line: Line)
    requires Admits(o, c) && LineFits(o, line)
    ensures Judged(c, BaseOf(o, line), line)
  {
    TypeSound(o, c, line);
  }

  /** Only directives that close or turn a group need one to be open. */
  lemma InsideGroup(stack: seq<Ifstate>, base: Base, line: Line, m: Move)
    requires StackOk(stack) && TableMove(Last(stack), base, line, m)
    ensures line.Elif? || line.Else? || line.Endif? ==> |stack| > 1
  {
    assert Last(stack) == OUTSIDE <==> |stack| == 1;
  }

  // ----- whole files

  /** The included text after `line` is read in place of the first line of the rest. */
  lemma CppCons(c: Completion, frames: seq<Frame>, line: Line, rest: seq<Line>)
    requires CppStep(c, frames, line).Some?
    ensures var r := CppStep(c, frames, line).value;
            Cpp(c, frames, [line] + rest) == Join(r.text, Cpp(c, r.frames, rest))
  {
    assert ([line] + rest)[1..] == rest;
  }

  /** A step of the simulation, seen from the whole files: both sides include `text`
      and go on from related frames. */
  lemma StepIncludes(o: Options, c: Completion, stack: seq<Ifstate>, ins: seq<Frame>, outs: seq<Frame>, line: Line,
                     more: seq<Line>, rest: seq<Line>)
    returns (ins': seq<Frame>, outs': seq<Frame>, text: seq<string>)
    requires StackOk(stack) && Sim(stack, ins, outs)
    requires Admits(o, c) && LineFits(o, line) && Step(o, stack, line).Next?
    ensures var r := Step(o, stack, line);
            && r.stack != [] && Sim(r.stack, ins', outs')
            && Cpp(c, ins, [line] + more) == Join(text, Cpp(c, ins', more))
            && Cpp(c, outs, r.out + rest) == Join(text, Cpp(c, outs', rest))
  {
    var out := Step(o, stack, line).out;
    StepFollows(o, c, stack, ins, outs, line);
    var i := CppStep(c, ins, line).value;
    CppCons(c, ins, line, more);
    ins', text := i.frames, i.text;
    if out == [] {
      outs' := outs;
      assert out + rest == rest;
      JoinNothing(Cpp(c, outs, rest));
    } else {
      outs' := CppStep(c, outs, out[0]).value.frames;
      CppCons(c, outs, out[0], rest);
      assert out == [out[0]];
    }
  }

  /** What the simulation says of two whole files. */
  ghost predicate SameText(o: Options, c: Completion, stack: seq<Ifstate>, ins: seq<Frame>, outs: seq<Frame>, lines: seq<Line>)
    requires stack != []
  {
    Run(o, stack, lines).Some? ==>
      Cpp(c, ins, lines).Some? && Cpp(c, outs, Run(o, stack, lines).value) == Cpp(c, ins, lines)
  }

  lemma RunStep(o: Options, c: Completion, stack: seq<Ifstate>, ins: seq<Frame>, outs: seq<Frame>, lines: seq<Line>)
    returns (ins': seq<Frame>, outs': seq<Frame>)
    requires StackOk(stack) && Sim(stack, ins, outs) && Admits(o, c) && LinesFit(o, lines)
    requires lines != [] && Run(o, stack, lines).Some?
    ensures var r := Step(o, stack, lines[0]);
            && r.Next? && StackOk(r.stack) && Sim(r.stack, ins', outs') && Run(o, r.stack, lines[1..]).Some?
            && (SameText(o, c, r.stack, ins', outs', lines[1..]) ==> SameText(o, c, stack, ins, outs, lines))
  {
    RunUnfold(o, stack, lines);
    var r := Step(o, stack, lines[0]);
    var rest := Run(o, r.stack, lines[1..]).value;
    var text;
    ins', outs', text := StepIncludes(o, c, stack, ins, outs, lines[0], lines[1..], rest);
    assert lines == [lines[0]] + lines[1..];
  }

  lemma {:induction false} RunPreserves(o: Options, c: Completion, stack: seq<Ifstate>, ins: seq<Frame>, outs: seq<Frame>, lines: seq<Line>)
    requires StackOk(stack) && Sim(stack, ins, outs) && Admits(o, c) && LinesFit(o, lines)
    ensures SameText(o, c, stack, ins, outs, lines)
    decreases |lines|
  {
    if Run(o, stack, lines).Some? && lines != [] {
      var ins', outs' := RunStep(o, c, stack, ins, outs, lines);
      RunPreserves(o, c, Step(o, stack, lines[0]).stack, ins', outs', lines[1..]);
    } else if lines == [] && |stack| == 1 {
      assert ins == [] && outs == [];
    }
  }

  lemma JoinNothing(rest: Option<seq<string>>)
    ensures Join([], rest) == rest
  {
    if rest.Some? {
      assert [] + rest.value == rest.value;
    }
  }

  /** Whatever the unknown symbols are, compiling the output includes exactly the
      plain lines that compiling the input includes, in the same order; and the
      output nests properly. */
  lemma MeaningPreserved(o: Options, c: Completion, lines: seq<Line>)
    requires Admits(o, c) && LinesFit(o, lines) && Unifdef(o, lines).Some?
    ensures Cpp(c, [], lines).Some?
    ensures Cpp(c, [], Unifdef(o, lines).value) == Cpp(c, [], lines)
  {
    RunPreserves(o, c, [OUTSIDE], [], [], lines);
  }

  // ----- what a misjudged condition does

  /** One group of one line. */
  function Group1(e: seq<Token>): seq<Line>
  {
    [If(e, false), Plain("x"), Endif(false)]
  }

  lemma Group1Tail(e: seq<Token>)
    ensures Group1(e)[0] == If(e, false) && Group1(e)[1..] == [Plain("x"), Endif(false)]
    ensures Group1(e) == [If(e, false)] + [Plain("x"), Endif(false)]
    ensures [Plain("x"), Endif(false)][1..] == [Endif(false)] && [Endif(false)][1..] == []
  {
  }

  lemma EndLeaves(o: Options, s: Ifstate, out: seq<Line>)
    requires ((s == FALSE_PREFIX || s == TRUE_PREFIX) && out == []) || (s == PASS_MIDDLE && out == [Endif(false)])
    ensures Run(o, [OUTSIDE, s], [Endif(false)]) == Some(out)
  {
    var end, stack := [Endif(false)], [OUTSIDE, s];
    RunUnfold(o, stack, end);
    assert Front(stack) == [OUTSIDE] && end[1..] == [];
    assert Step(o, stack, Endif(false)) == Next([OUTSIDE], out);
    assert Run(o, [OUTSIDE], []) == Some([]) && out + [] == out;
  }

  lemma BodyLeaves(o: Options, s: Ifstate, out: seq<Line>)
    requires || (s == FALSE_PREFIX && out == []) || (s == TRUE_PREFIX && out == [Plain("x")])
             || (s == PASS_MIDDLE && out == [Plain("x"), Endif(false)])
    ensures Run(o, [OUTSIDE, s], [Plain("x"), Endif(false)]) == Some(out)
  {
    var lines, stack := [Plain("x"), Endif(false)], [OUTSIDE, s];
    var rest := if s == PASS_MIDDLE then [Endif(false)] else [];
    var mine := if Prints(s) then [Plain("x")] else [];
    EndLeaves(o, s, rest);
    RunUnfold(o, stack, lines);
    assert lines[1..] == [Endif(false)];
    assert Step(o, stack, Plain("x")) == Next(stack, mine);
    assert mine + rest == out;
  }

  function FirstState(v: Verdict): Ifstate
  {
    match v
    case LT_TRUE => TRUE_PREFIX
    case LT_FALSE => FALSE_PREFIX
    case _ => PASS_MIDDLE
  }

  lemma FirstMove(o: Options, e: seq<Token>, s: Ifstate, mine: seq<Line>)
    requires s == FirstState(Classify(o, e)) && mine == if s == PASS_MIDDLE then [If(e, false)] else []
    ensures Step(o, [OUTSIDE], If(e, false)) == Next([OUTSIDE, s], mine)
  {
    assert MoveOf(o, OUTSIDE, If(e, false)) == Push(s, mine);
    assert [OUTSIDE] + [s] == [OUTSIDE, s];
  }

  lemma Group1Run(o: Options, e: seq<Token>, s: Ifstate, mine: seq<Line>, rest: seq<Line>)
    requires Step(o, [OUTSIDE], If(e, false)) == Next([OUTSIDE, s], mine)
    requires Run(o, [OUTSIDE, s], [Plain("x"), Endif(false)]) == Some(rest)
    ensures Unifdef(o, Group1(e)) == Some(mine + rest)
  {
    Group1Tail(e);
    RunUnfold(o, [OUTSIDE], Group1(e));
  }

  lemma Group1From(o: Options, e: seq<Token>, s: Ifstate)
    requires s == FirstState(Classify(o, e))
    ensures Unifdef(o, Group1(e))
         == Some(if s == TRUE_PREFIX then [Plain("x")] else if s == FALSE_PREFIX then [] else Group1(e))
  {
    var mine := if s == PASS_MIDDLE then [If(e, false)] else [];
    var rest := if s == TRUE_PREFIX then [Plain("x")] else if s == FALSE_PREFIX then [] else [Plain("x"), Endif(false)];
    FirstMove(o, e, s, mine);
    BodyLeaves(o, s, rest);
    Group1Run(o, e, s, mine, rest);
    Group1Tail(e);
    if s != PASS_MIDDLE {
      assert mine + rest == rest;
    }
  }

  /** What unifdef makes of it. */
  lemma Group1Output(o: Options, e: seq<Token>, v: Verdict)
    requires v == Classify(o, e)
    ensures Unifdef(o, Group1(e))
         == Some(match v case LT_TRUE => [Plain("x")] case LT_FALSE => [] case _ => Group1(e))
  {
    Group1From(o, e, FirstState(v));
  }

  lemma BodyIncluded(c: Completion, f: seq<Frame>, v: bool)
    requires |f| == 1 && f[0] == Frame(true, v, v, false)
    ensures Cpp(c, f, [Plain("x"), Endif(false)]) == Some(if v then ["x"] else [])
  {
    var text := if v then ["x"] else [];
    assert Front(f) == [];
    CppCons(c, f, Endif(false), []);
    JoinNothing(Cpp(c, [], []));
    assert [Endif(false)] == [Endif(false)] + [];
    CppCons(c, f, Plain("x"), [Endif(false)]);
    assert [Plain("x"), Endif(false)] == [Plain("x")] + [Endif(false)];
    assert text + [] == text;
  }

  /** What C makes of it. */
  lemma Group1Text(c: Completion, e: seq<Token>)
    ensures Cpp(c, [], Group1(e)) == Some(if CTrue(c, e) then ["x"] else [])
    ensures Cpp(c, [], [Plain("x")]) == Some(["x"])
  {
    var v := CTrue(c, e);
    var f := [Frame(true, v, v, false)];
    BodyIncluded(c, f, v);
    Group1Tail(e);
    assert [] + f == f;
    CppCons(c, [], If(e, false), [Plain("x"), Endif(false)]);
    JoinNothing(Some(if v then ["x"] else []));
    CppCons(c, [], Plain("x"), []);
    assert [Plain("x")] == [Plain("x")] + [] && ["x"] + [] == ["x"];
  }

  /** One group keeps its meaning exactly when its condition is judged as C judges it. */
  lemma JudgementMatters(o: Options, c: Completion, e: seq<Token>)
    ensures Unifdef(o, Group1(e)).Some?
    ensures Cpp(c, [], Unifdef(o, Group1(e)).value) == Cpp(c, [], Group1(e))
       <==> (Classify(o, e) == LT_TRUE ==> CTrue(c, e)) && (Classify(o, e) == LT_FALSE ==> !CTrue(c, e))
  {
    Group1Output(o, e, Classify(o, e));
    Group1Text(c, e);
  }

  /** So the literals have to fit: with -k this file loses a line that C includes. */
  lemma WideLiteralChangesMeaning(o: Options, c: Completion)
    requires o.killconsts
    ensures var file := Group1([Num("4294967296", 0x1_0000_0000)]);
            Unifdef(o, file) == Some([]) && Cpp(c, [], file) == Some(["x"])
  {
    var e := [Num("4294967296", 0x1_0000_0000)];
    TruncationMisjudges(o, c);
    Group1Output(o, e, LT_FALSE);
    Group1Text(c, e);
  }

  /** So do the values of known symbols: here without -k. */
  lemma WideSymbolChangesMeaning(o: Options, c: Completion)
    requires "A" in o.syms && o.syms["A"].def == Integer(0x1_0000_0000) && Agrees(c, o.syms)
    ensures var file := Group1([Ident("A")]);
            Unifdef(o, file) == Some([]) && Cpp(c, [], file) == Some(["x"])
  {
    WideSymbolMisjudges(o, c);
    Group1Output(o, [Ident("A")], LT_FALSE);
    Group1Text(c, [Ident("A")]);
  }

  /** And a negative symbol must not meet an unsigned literal: this file keeps a line that
      C drops, though all of its numbers fit. */
  lemma MixedChangesMeaning(o: Options, c: Completion)
    requires "A" in o.syms && o.syms["A"].def == Integer(-1) && Agrees(c, o.syms)
    ensures var file := Group1([Ident("A"), Op(Lt), Num("1U", 1)]);
            Unifdef(o, file) == Some([Plain("x")]) && Cpp(c, [], file) == Some([])
  {
    var e := [Ident("A"), Op(Lt), Num("1U", 1)];
    MixedMisjudges(o, c, e);
    Group1Output(o, e, LT_TRUE);
    Group1Text(c, e);
  }

  // ----- what is accepted

  /** The nesting that `line` leaves, if it may come where it does. */
  function NestStep(open: seq<bool>, line: Line): Option<seq<bool>>
  {
    match line
    case Plain(_) => Some(open)
    case If(_, _) | Ifdef(_, _, _, _) => if |open| < 63 then Some(open + [false]) else None
    case Elif(_, _) => if open != [] && !Last(open) then Some(open) else None
    case Else(_) => if open != [] && !Last(open) then Some(Front(open) + [true]) else None
    case Endif(_) => if open != [] then Some(Front(open)) else None
  }

  /** Directives nest, at most one #else per group and last, fewer than MAXDEPTH deep. */
  predicate Nests(open: seq<bool>, lines: seq<Line>)
    decreases |lines|
  {
    if lines == [] then open == []
    else NestStep(open, lines[0]).Some? && Nests(NestStep(open, lines[0]).value, lines[1..])
  }

  predicate NoDodgy(lines: seq<Line>)
  {
    forall i :: 0 <= i < |lines| && !lines[i].Plain? ==> !lines[i].dodgy
  }

  predicate InElse(s: Ifstate)
  {
    s in {PASS_ELSE, FALSE_ELSE, TRUE_ELSE}
  }

  function Flags(stack: seq<Ifstate>): (flags: seq<bool>)
    requires stack != []
    ensures |flags| == |stack| - 1
    ensures forall i :: 0 <= i < |flags| ==> flags[i] == InElse(stack[i + 1])
  {
    if |stack| == 1 then [] else Flags(Front(stack)) + [InElse(Last(stack))]
  }

  /** The flags after a step are those that nesting prescribes. */
  lemma StepNests(o: Options, stack: seq<Ifstate>, line: Line)
    requires StackOk(stack)
    ensures var r := Step(o, stack, line);
            if r.Next? then StackOk(r.stack) && NestStep(Flags(stack), line) == Some(Flags(r.stack))
            else r.Failed? && (NestStep(Flags(stack), line).None? || (!line.Plain? && line.dodgy))
  {
    StepSafe(o, stack, line);
    TableMoves(o, Last(stack), line);
    TableNests(BaseOf(o, line), stack, line, MoveOf(o, Last(stack), line));
  }

  lemma TableNests(base: Base, stack: seq<Ifstate>, line: Line, m: Move)
    requires StackOk(stack)
    ensures Misplaced(Last(stack), line) ==> NestStep(Flags(stack), line).None?
    ensures TableMove(Last(stack), base, line, m) ==> MakeNests(stack, line, m)
  {
    assert Last(stack) == OUTSIDE <==> |stack| == 1;
    if TableMove(Last(stack), base, line, m) {
      InsideGroup(stack, base, line, m);
      KindOfMove(Last(stack), base, line, m);
      KindNests(stack, line, m);
    }
  }

  /** The part of the table that matters for nesting. */
  predicate NestMove(s: Ifstate, line: Line, m: Move)
  {
    match line
    case Plain(_) => m.Stay?
    case If(_, _) | Ifdef(_, _, _, _) => m.Push? && !InElse(m.s)
    case Elif(_, _) | Else(_) => m.Set? && !InElse(s) && InElse(m.s) == line.Else?
    case Endif(_) => m.Pop?
  }

  predicate MakeNests(stack: seq<Ifstate>, line: Line, m: Move)
    requires stack != []
  {
    var r := Make(stack, m);
    if r.Next? then r.stack != [] && NestStep(Flags(stack), line) == Some(Flags(r.stack))
    else r.Failed? && NestStep(Flags(stack), line).None?
  }

  lemma KindOfMove(s: Ifstate, base: Base, line: Line, m: Move)
    requires TableMove(s, base, line, m)
    ensures NestMove(s, line, m)
  {
  }

  lemma KindNests(stack: seq<Ifstate>, line: Line, m: Move)
    requires 0 < |stack| <= MAXDEPTH && NestMove(Last(stack), line, m)
    requires line.Elif? || line.Else? || line.Endif? ==> |stack| > 1
    ensures MakeNests(stack, line, m)
  {
    if |stack| > 1 {
      assert stack == Front(stack) + [Last(stack)];
      FlagsPush(Front(stack), Last(stack));
    }
    if m.Push? {
      FlagsPush(stack, m.s);
    } else if m.Set? {
      FlagsPush(Front(stack), m.s);
    }
  }

  lemma FlagsPush(stack: seq<Ifstate>, s: Ifstate)
    requires stack != []
    ensures Flags(stack + [s]) == Flags(stack) + [InElse(s)]
  {
    assert Front(stack + [s]) == stack;
  }

  lemma {:induction false} RunNests(o: Options, stack: seq<Ifstate>, lines: seq<Line>)
    requires StackOk(stack)
    ensures Run(o, stack, lines).Some? ==> Nests(Flags(stack), lines)
    ensures NoDodgy(lines) && Nests(Flags(stack), lines) ==> Run(o, stack, lines).Some?
    decreases |lines|
  {
    if lines != [] {
      var r := Step(o, stack, lines[0]);
      RunUnfold(o, stack, lines);
      StepNests(o, stack, lines[0]);
      if r.Next? {
        RunNests(o, r.stack, lines[1..]);
        assert NoDodgy(lines) ==> NoDodgy(lines[1..]);
      }
    }
  }

  /** An accepted file nests; a file without split directives that nests is accepted. */
  lemma AcceptsExactly(o: Options, lines: seq<Line>)
    ensures Unifdef(o, lines).Some? ==> Nests([], lines)
    ensures NoDodgy(lines) ==> (Unifdef(o, lines).Some? <==> Nests([], lines))
  {
    RunNests(o, [OUTSIDE], lines);
  }

  // ----- a second run changes nothing

  /** The stack of a second run over the output written so far. */
  function Residual(stack: seq<Ifstate>): (rest: seq<Ifstate>)
    requires StackOk(stack)
    ensures 0 < |rest| <= |stack|
    ensures Last(rest) in {OUTSIDE, PASS_MIDDLE, PASS_ELSE} && (Last(rest) == OUTSIDE <==> |rest| == 1)
    decreases |stack|
  {
    if |stack| == 1 then stack
    else
      var below := Residual(Front(stack));
      match Last(stack)
      case PASS_MIDDLE | FALSE_MIDDLE => below + [PASS_MIDDLE]
      case TRUE_MIDDLE | PASS_ELSE => below + [PASS_ELSE]
      case _ => below
  }

  predicate RestOf(s: Ifstate, rest: Ifstate)
  {
    && rest in {OUTSIDE, PASS_MIDDLE, PASS_ELSE}
    && (s in {PASS_MIDDLE, FALSE_MIDDLE} ==> rest == PASS_MIDDLE)
    && (s in {TRUE_MIDDLE, PASS_ELSE} ==> rest == PASS_ELSE)
  }

  /** Move `n` of the second run answers the writing move `m` of the first. */
  predicate Mirrors(s: Ifstate, m: Move, n: Move)
  {
    match m
    case Stay(out) => n == Stay(out)
    case Push(s', out) => s' == PASS_MIDDLE && n == Push(PASS_MIDDLE, out)
    case Set(s', out) =>
      if !IsOpen(s) then s' == PASS_MIDDLE && n == Push(PASS_MIDDLE, out)
      else if !IsOpen(s') then n == Pop(out)
      else n == Set(if s' in {PASS_MIDDLE, FALSE_MIDDLE} then PASS_MIDDLE else PASS_ELSE, out)
    case Pop(out) => IsOpen(s) && n == Pop(out)
    case _ => false
  }

  /** A move that writes nothing does not concern the second run. */
  predicate Silent(s: Ifstate, m: Move)
  {
    match m
    case Stay(_) => true
    case Push(s', _) => !IsOpen(s')
    case Set(s', _) => IsOpen(s) == IsOpen(s') && (IsOpen(s) ==> s in {PASS_MIDDLE, FALSE_MIDDLE} && s' == FALSE_MIDDLE)
    case Pop(_) => !IsOpen(s)
    case _ => false
  }

  /** A kept opening or #elif line was of unknown type, or split and passed with -e. */
  predicate Kept(o: Options, base: Base, line: Line)
  {
    base in {IF, ELIF} || (!line.Plain? && line.dodgy && o.iocccok)
  }

  lemma KeptLines(o: Options, s: Ifstate, line: Line)
    requires line.If? || line.Ifdef? || line.Elif?
    requires var m := MoveOf(o, s, line); (m.Push? || m.Set?) && m.out != [] && m.s == PASS_MIDDLE
    ensures Kept(o, BaseOf(o, line), line) && |MoveOf(o, s, line).out| == 1
    ensures s == FALSE_PREFIX ==> BaseOf(o, line) == ELIF
  {
  }

  lemma KeptAgain(o: Options, rest: Ifstate, line: Line)
    requires Kept(o, BaseOf(o, line), line) && Prints(rest)
    ensures line.If? || line.Ifdef? ==> MoveOf(o, rest, line) == Push(PASS_MIDDLE, [line])
    ensures line.Elif? && rest == PASS_MIDDLE ==> MoveOf(o, rest, line) == Set(PASS_MIDDLE, [line])
  {
  }

  lemma EditsAgain(o: Options, rest: Ifstate, line: Line)
    ensures rest == PASS_MIDDLE && line.Else? ==> MoveOf(o, rest, line) == Set(PASS_ELSE, [line])
    ensures rest in {PASS_MIDDLE, PASS_ELSE} && line.Endif? ==> MoveOf(o, rest, line) == Pop([line])
    ensures Prints(rest) && line.Plain? ==> MoveOf(o, rest, line) == Stay([line])
    ensures line.Elif? && LineType(o, line).base == ELIF ==> BaseOf(o, AsIf(line)) == IF
  {
  }

  lemma MoveAgain(o: Options, s: Ifstate, rest: Ifstate, line: Line)
    requires RestOf(s, rest) && MoveOf(o, s, line) != Fail
    ensures var m := MoveOf(o, s, line);
            !m.Finish? && !m.Crash? &&
            if m.out == [] then Silent(s, m)
            else |m.out| == 1 && Mirrors(s, m, MoveOf(o, rest, m.out[0]))
  {
    var m := MoveOf(o, s, line);
    TableMoves(o, s, line);
    if m.out != [] {
      EditsAgain(o, rest, m.out[0]);
      EditsAgain(o, rest, line);
      if (line.If? || line.Ifdef? || line.Elif?) && m.s == PASS_MIDDLE {
        KeptLines(o, s, line);
        KeptAgain(o, rest, m.out[0]);
      }
    }
  }

  lemma ResidualPush(stack: seq<Ifstate>, s: Ifstate)
    requires StackOk(stack) && StackOk(stack + [s])
    ensures Residual(stack + [s])
         == if s in {PASS_MIDDLE, FALSE_MIDDLE} then Residual(stack) + [PASS_MIDDLE]
            else if s in {TRUE_MIDDLE, PASS_ELSE} then Residual(stack) + [PASS_ELSE]
            else Residual(stack)
  {
    assert Front(stack + [s]) == stack;
  }

  lemma PushAgain(stack: seq<Ifstate>, m: Move, n: Move)
    requires StackOk(stack) && m.Push? && |stack| < MAXDEPTH && StackOk(stack + [m.s])
    ensures Silent(Last(stack), m) ==> Residual(stack + [m.s]) == Residual(stack)
    ensures Mirrors(Last(stack), m, n) ==> Make(Residual(stack), n) == Next(Residual(stack + [m.s]), m.out)
  {
    ResidualPush(stack, m.s);
  }

  lemma SetAgain(below: seq<Ifstate>, s: Ifstate, m: Move, n: Move)
    requires StackOk(below) && StackOk(below + [s]) && m.Set? && StackOk(below + [m.s])
    ensures Silent(s, m) ==> Residual(below + [m.s]) == Residual(below + [s])
    ensures Mirrors(s, m, n) ==> Make(Residual(below + [s]), n) == Next(Residual(below + [m.s]), m.out)
  {
    ResidualPush(below, s);
    ResidualPush(below, m.s);
    BelowPushed(Residual(below));
  }

  lemma PopAgain(below: seq<Ifstate>, s: Ifstate, m: Move, n: Move)
    requires StackOk(below) && StackOk(below + [s]) && m.Pop?
    ensures Silent(s, m) ==> Residual(below) == Residual(below + [s])
    ensures Mirrors(s, m, n) ==> Make(Residual(below + [s]), n) == Next(Residual(below), m.out)
  {
    ResidualPush(below, s);
    BelowPushed(Residual(below));
  }

  lemma MakeAgain(stack: seq<Ifstate>, m: Move, n: Move)
    requires StackOk(stack) && Make(stack, m).Next? && StackOk(Make(stack, m).stack)
    requires m.Set? ==> Last(stack) != OUTSIDE
    ensures var r := Make(stack, m);
            && (Silent(Last(stack), m) ==> Residual(r.stack) == Residual(stack))
            && (Mirrors(Last(stack), m, n) ==> Make(Residual(stack), n) == Next(Residual(r.stack), r.out))
  {
    var s, below := Last(stack), Front(stack);
    assert stack == below + [s];
    if m.Push? {
      PushAgain(stack, m, n);
    } else if m.Set? || m.Pop? {
      assert |stack| > 1 && StackOk(below);
      if m.Set? {
        SetAgain(below, s, m, n);
      } else {
        PopAgain(below, s, m, n);
      }
    }
  }

  lemma StepAgain(o: Options, stack: seq<Ifstate>, line: Line)
    requires StackOk(stack) && Step(o, stack, line).Next?
    ensures var r := Step(o, stack, line);
            && StackOk(r.stack)
            && (if r.out == [] then Residual(r.stack) == Residual(stack)
                else |r.out| == 1 && Step(o, Residual(stack), r.out[0]) == Next(Residual(r.stack), r.out))
  {
    StepSafe(o, stack, line);
    var s, m, rest := Last(stack), MoveOf(o, Last(stack), line), Last(Residual(stack));
    MoveSafe(o, s, LineType(o, line), line);
    MoveAgain(o, s, rest, line);
    MakeAgain(stack, m, if m.out == [] then Fail else MoveOf(o, rest, m.out[0]));
  }

  lemma BelowPushed(stack: seq<Ifstate>)
    ensures Front(stack + [PASS_MIDDLE]) == stack && Front(stack + [PASS_ELSE]) == stack
  {
  }

  lemma {:induction false} RunAgain(o: Options, stack: seq<Ifstate>, lines: seq<Line>)
    requires StackOk(stack) && Run(o, stack, lines).Some?
    ensures Run(o, Residual(stack), Run(o, stack, lines).value) == Run(o, stack, lines)
    decreases |lines|
  {
    if lines != [] {
      var r := Step(o, stack, lines[0]);
      RunUnfold(o, stack, lines);
      StepAgain(o, stack, lines[0]);
      RunAgain(o, r.stack, lines[1..]);
      var rest := Run(o, r.stack, lines[1..]).value;
      if r.out == [] {
        assert r.out + rest == rest;
      } else {
        assert (r.out + rest)[1..] == rest;
        assert [r.out[0]] + rest == r.out + rest;
      }
    }
  }

  /** The output is a fixed point: running unifdef on it gives it back. */
  lemma Idempotent(o: Options, lines: seq<Line>)
    requires Unifdef(o, lines).Some?
    ensures Unifdef(o, Unifdef(o, lines).value) == Unifdef(o, lines)
  {
    RunAgain(o, [OUTSIDE], lines);
  }
}
