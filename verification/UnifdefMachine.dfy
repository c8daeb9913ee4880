/** The line-by-line state machine of unifdef.c: line types, the transition
    table, the stack of #if states, and the driver loop. */
module UnifdefMachine {
  import opened UnifdefExpr
  import opened UnifdefEval
  import opened Sequences
  import opened Wrappers

  const MAXDEPTH := 64

  /** An input or output line. `dodgy` marks a directive that spills over its line;
      `junk` marks text after the symbol of an #ifdef or #ifndef. */
  datatype Line =
    | Plain(text: string)
    | If(cond: seq<Token>, dodgy: bool)
    | Ifdef(negated: bool, name: string, junk: bool, dodgy: bool)
    | Elif(cond: seq<Token>, dodgy: bool)
    | Else(dodgy: bool)
    | Endif(dodgy: bool)

  datatype Base =
    | TRUEI | FALSEI | IF | TRUE | FALSE
    | ELIF | ELTRUE | ELFALSE | ELSE | ENDIF

  datatype Linetype = LT(base: Base, dodgy: bool) | LT_PLAIN | LT_EOF | LT_ABORT

  datatype Ifstate =
    | OUTSIDE
    | FALSE_PREFIX
    | TRUE_PREFIX
    | PASS_MIDDLE
    | FALSE_MIDDLE
    | TRUE_MIDDLE
    | PASS_ELSE
    | FALSE_ELSE
    | TRUE_ELSE
    | FALSE_TRAILER

  datatype Action =
    | Eelif | Eelse | Eendif | Eeof | Eioccc
    | Print | Drop | Done | Abort
    | Strue | Sfalse | Selse
    | Pelif | Pelse | Pendif
    | Dfalse | Delif | Delse | Dendif
    | Fdrop | Fpass | Ftrue | Ffalse
    | Oiffy | Oif | Oelif
    | Idrop | Itrue | Ifalse
    | Mpass | Mtrue | Melif | Melse

  // ----- line types

  function IfdefType(o: Options, negated: bool, name: string, junk: bool): Base
  {
    if name == "" || name !in o.syms || junk then IF
    else
      var holds := o.syms[name].def.Undefined? == negated;
      if o.syms[name].ignore then (if holds then TRUEI else FALSEI)
      else if holds then TRUE else FALSE
  }

  function LineType(o: Options, line: Line): (lt: Linetype)
  {
    match line
    case Plain(_) => LT_PLAIN
    case If(cond, dodgy) =>
      LT(match Classify(o, cond) case LT_TRUE => TRUE case LT_FALSE => FALSE case _ => IF, dodgy)
    case Ifdef(negated, name, junk, dodgy) => LT(IfdefType(o, negated, name, junk), dodgy)
    case Elif(cond, dodgy) =>
      LT(match Classify(o, cond) case LT_TRUE => ELTRUE case LT_FALSE => ELFALSE case _ => ELIF, dodgy)
    case Else(dodgy) => LT(ELSE, dodgy)
    case Endif(dodgy) => LT(ENDIF, dodgy)
  }

  // ----- the transition table

  /** The columns TRUEI to FALSE of the rows whose groups are printed. */
  function Opening(base: Base, dodgy: bool): Action
    requires base in {TRUEI, FALSEI, IF, TRUE, FALSE}
  {
    match base
    case TRUEI => if dodgy then Oiffy else Itrue
    case FALSEI => if dodgy then Oiffy else Ifalse
    case IF => Fpass
    case TRUE => if dodgy then Oif else Ftrue
    case _ => if dodgy then Oif else Ffalse
  }

  /** The same columns of the rows whose groups are dropped. */
  function Skipping(base: Base): Action
    requires base in {TRUEI, FALSEI, IF, TRUE, FALSE}
  {
    if base == TRUEI || base == FALSEI then Idrop else Fdrop
  }

  predicate Prints(s: Ifstate)
  {
    s !in {FALSE_PREFIX, FALSE_MIDDLE, FALSE_ELSE, FALSE_TRAILER}
  }

  function Directive(s: Ifstate, base: Base, dodgy: bool): Action
  {
    if base in {TRUEI, FALSEI, IF, TRUE, FALSE} then
      (if Prints(s) then Opening(base, dodgy) else Skipping(base))
    else
      match s
      case OUTSIDE =>
        (match base case ELSE => Eelse case ENDIF => Eendif case _ => Eelif)
      case FALSE_PREFIX =>
        if dodgy && base != ELIF then Eioccc
        else (match base
              case ELIF => Mpass
              case ELTRUE => Strue
              case ELFALSE => Sfalse
              case ELSE => Selse
              case _ => Dendif)
      case TRUE_PREFIX =>
        if dodgy then Eioccc
        else (match base case ELSE => Delse case ENDIF => Dendif case _ => Dfalse)
      case PASS_MIDDLE =>
        (match base
         case ELIF => Pelif
         case ELTRUE => if dodgy then Oelif else Mtrue
         case ELFALSE => if dodgy then Oelif else Delif
         case ELSE => Pelse
         case _ => Pendif)
      case FALSE_MIDDLE =>
        if dodgy then Eioccc
        else (match base
              case ELIF => Pelif
              case ELTRUE => Mtrue
              case ELFALSE => Delif
              case ELSE => Pelse
              case _ => Pendif)
      case TRUE_MIDDLE =>
        if base == ENDIF then Pendif
        else if dodgy then Eioccc
        else if base == ELSE then Melse else Melif
      case PASS_ELSE =>
        (match base case ELSE => Eelse case ENDIF => Pendif case _ => Eelif)
      case FALSE_ELSE | TRUE_ELSE =>
        (match base case ELSE => Eelse case ENDIF => if dodgy then Eioccc else Dendif case _ => Eelif)
      case FALSE_TRAILER =>
        (match base case ELSE => Delse case ENDIF => if dodgy then Eioccc else Dendif case _ => Dfalse)
  }

  /** trans_table[s][lt]. */
  function Transition(s: Ifstate, lt: Linetype): Action
  {
    match lt
    case LT(base, dodgy) => Directive(s, base, dodgy)
    case LT_PLAIN => if Prints(s) then Print else Drop
    case LT_EOF => if s == OUTSIDE then Done else Eeof
    case LT_ABORT => Abort
  }

  // ----- what an action does to the stack and the output

  /** The effect of an action: one change at the top of the stack and what is written. */
  datatype Move =
    | Stay(out: seq<Line>)
    | Set(s: Ifstate, out: seq<Line>)
    | Push(s: Ifstate, out: seq<Line>)
    | Pop(out: seq<Line>)
    | Finish
    | Fail
    | Crash

  /** The line after strncpy(keyword, "if  ", 4). */
  function AsIf(line: Line): Line
  {
    if line.Elif? then If(line.cond, line.dodgy) else line
  }

  function Perform(o: Options, a: Action, line: Line): Move
  {
    match a
    case Eelif | Eelse | Eendif | Eeof | Eioccc => Fail
    case Print => Stay([line])
    case Drop => Stay([])
    case Done => Finish
    case Abort => Crash
    case Strue => Set(TRUE_PREFIX, [])
    case Sfalse => Set(FALSE_PREFIX, [])
    case Selse => Set(TRUE_ELSE, [])
    case Pelif => Set(PASS_MIDDLE, [line])
    case Pelse => Set(PASS_ELSE, [line])
    case Pendif => Pop([line])
    case Dfalse => Set(FALSE_TRAILER, [])
    case Delif => Set(FALSE_MIDDLE, [])
    case Delse => Set(FALSE_ELSE, [])
    case Dendif => Pop([])
    case Fdrop | Idrop => Push(FALSE_TRAILER, [])
    case Fpass => Push(PASS_MIDDLE, [line])
    case Ftrue | Itrue => Push(TRUE_PREFIX, [])
    case Ffalse | Ifalse => Push(FALSE_PREFIX, [])
    case Oiffy | Oif => if o.iocccok then Push(PASS_MIDDLE, [line]) else Fail
    case Oelif => if o.iocccok then Set(PASS_MIDDLE, [line]) else Fail
    case Mpass => Set(PASS_MIDDLE, [AsIf(line)])
    case Mtrue => Set(TRUE_MIDDLE, [Else(false)])
    case Melif => Set(FALSE_TRAILER, [Endif(false)])
    case Melse => Set(FALSE_ELSE, [Endif(false)])
  }

  function MoveOf(o: Options, s: Ifstate, line: Line): Move
  {
    Perform(o, Transition(s, LineType(o, line)), line)
  }

  datatype Outcome =
    | Next(stack: seq<Ifstate>, out: seq<Line>)
    | Finished
    | Failed
    | Aborted

  function Make(stack: seq<Ifstate>, m: Move): Outcome
    requires stack != []
  {
    match m
    case Stay(out) => Next(stack, out)
    case Set(s, out) => Next(Front(stack) + [s], out)
    case Push(s, out) => if |stack| == MAXDEPTH then Failed else Next(stack + [s], out)
    case Pop(out) => if |stack| == 1 then Aborted else Next(Front(stack), out)
    case Finish => Finished
    case Fail => Failed
    case Crash => Aborted
  }

  function Step(o: Options, stack: seq<Ifstate>, line: Line): Outcome
    requires stack != []
  {
    Make(stack, MoveOf(o, Last(stack), line))
  }

  /** Only the bottom of the stack is outside every group. */
  predicate StackOk(stack: seq<Ifstate>)
  {
    0 < |stack| <= MAXDEPTH && forall i :: 0 <= i < |stack| ==> (stack[i] == OUTSIDE <==> i == 0)
  }

  lemma MoveSafe(o: Options, s: Ifstate, lt: Linetype, line: Line)
    requires lt.LT? || lt.LT_PLAIN?
    ensures var m := Perform(o, Transition(s, lt), line);
            && !m.Crash? && !m.Finish?
            && (m.Set? || m.Pop? ==> s != OUTSIDE)
            && (m.Set? || m.Push? ==> m.s != OUTSIDE)
  {
  }

  /** No input line reaches an abort entry, pops the bottom, or overflows the stack. */
  lemma StepSafe(o: Options, stack: seq<Ifstate>, line: Line)
    requires StackOk(stack)
    ensures var r := Step(o, stack, line);
            !r.Aborted? && !r.Finished? && (r.Next? ==> StackOk(r.stack))
  {
    MoveSafe(o, Last(stack), LineType(o, line), line);
    assert Last(stack) == OUTSIDE <==> |stack| == 1;
  }

  function Prepend(out: seq<Line>, r: Option<seq<Line>>): Option<seq<Line>>
  {
    match r
    case None => None
    case Some(rest) => Some(out + rest)
  }

  /** The output of a run that reaches the end of the file outside every group. */
  function Run(o: Options, stack: seq<Ifstate>, lines: seq<Line>): (out: Option<seq<Line>>)
    requires stack != []
    decreases |lines|
  {
    if lines == [] then (if |stack| == 1 then Some([]) else None)
    else
      var r := Step(o, stack, lines[0]);
      if r.Next? && r.stack != [] then Prepend(r.out, Run(o, r.stack, lines[1..])) else None
  }

  function Unifdef(o: Options, lines: seq<Line>): Option<seq<Line>>
  {
    Run(o, [OUTSIDE], lines)
  }

  // ----- the program

  datatype Status = Running | DoneOk | Error | Bug

  class Processor {
    const o: Options
    const ifstate: array<Ifstate>
    const evaluator: Evaluator
    var depth: int
    var output: seq<Line>
    var status: Status

    ghost predicate Valid()
      reads this, ifstate
    {
      && ifstate.Length == MAXDEPTH && 0 <= depth < MAXDEPTH
      && evaluator.syms == o.syms && evaluator.strictlogic == o.strict
    }

    ghost function Stack(): (stack: seq<Ifstate>)
      requires Valid()
      reads this, ifstate
      ensures |stack| == depth + 1
    {
      ifstate[..depth + 1]
    }

    constructor (o: Options)
      ensures Valid() && fresh(ifstate) && fresh(evaluator)
      ensures this.o == o && Stack() == [OUTSIDE] && output == [] && status == Running
    {
      this.o := o;
      ifstate := new Ifstate[MAXDEPTH](_ => OUTSIDE);
      evaluator := new Evaluator(o.syms, o.strict);
      depth, output, status := 0, [], Running;
    }

    method Emit(line: Line)
      modifies this`output
      ensures output == old(output) + [line]
    {
      output := output + [line];
    }

    method State(s: Ifstate)
      requires Valid()
      modifies ifstate
      ensures Valid() && Stack() == old(Stack()[..depth] + [s])
    {
      ifstate[depth] := s;
    }

    /** False when the program exits with "Too many levels of nesting". */
    method Nest() returns (ok: bool)
      requires Valid()
      modifies this`depth, this`status
      ensures Valid() && ok == (old(depth) < MAXDEPTH - 1)
      ensures if ok then depth == old(depth) + 1 && status == old(status)
              else depth == old(depth) && status == Error
    {
      if depth == MAXDEPTH - 1 {
        status := Error;
        return false;
      }
      depth := depth + 1;
      return true;
    }

    method Unnest()
      requires Valid()
      modifies this`depth, this`status
      ensures Valid()
      ensures if old(depth) == 0 then depth == 0 && status == Bug
              else depth == old(depth) - 1 && status == old(status)
    {
      if depth == 0 {
        status := Bug;
      } else {
        depth := depth - 1;
      }
    }

    /** The object now shows `r`, reached from `out0`. */
    ghost predicate Shows(r: Outcome, out0: seq<Line>)
      requires Valid()
      reads this, ifstate
    {
      match r
      case Next(stack, out) => status == Running && Stack() == stack && output == out0 + out
      case Finished => status == DoneOk && output == out0
      case Failed => status == Error && output == out0
      case Aborted => status == Bug
    }

    /** The F* and O* actions: nest, then treat the line as the start of a group. */
    method Group(s: Ifstate, keep: bool, line: Line)
      requires Valid() && status == Running
      modifies this, ifstate
      ensures Valid() && Shows(Make(old(Stack()), Push(s, if keep then [line] else [])), old(output))
    {
      var ok := Nest();
      if ok {
        if keep {
          Emit(line);
        }
        State(s);
      }
    }

    method Leave(keep: bool, line: Line)
      requires Valid() && status == Running
      modifies this
      ensures Valid() && Shows(Make(old(Stack()), Pop(if keep then [line] else [])), old(output))
    {
      if keep {
        Emit(line);
      }
      Unnest();
    }

    method Change(s: Ifstate, out: seq<Line>)
      requires Valid() && status == Running
      modifies this`output, ifstate
      ensures Valid() && Shows(Make(old(Stack()), Set(s, out)), old(output))
    {
      output := output + out;
      State(s);
    }

    /** The actions that start a group. */
    method Enter(a: Action, line: Line)
      requires Valid() && status == Running
      requires a in {Fdrop, Idrop, Fpass, Ftrue, Itrue, Ffalse, Ifalse, Oiffy, Oif}
      modifies this, ifstate
      ensures Valid() && Shows(Make(old(Stack()), Perform(o, a, line)), old(output))
    {
      if (a == Oiffy || a == Oif) && !o.iocccok {
        status := Error;
        return;
      }
      var s, keep := FALSE_TRAILER, false;
      match a {
        case Fpass | Oiffy | Oif => s, keep := PASS_MIDDLE, true;
        case Ftrue | Itrue => s := TRUE_PREFIX;
        case Ffalse | Ifalse => s := FALSE_PREFIX;
        case Fdrop | Idrop =>
      }
      assert Perform(o, a, line) == Push(s, if keep then [line] else []);
      Group(s, keep, line);
    }

    /** The actions that replace the state of the current group. */
    method Turn(a: Action, line: Line)
      requires Valid() && status == Running && Perform(o, a, line).Set?
      modifies this`output, ifstate
      ensures Valid() && Shows(Make(old(Stack()), Perform(o, a, line)), old(output))
    {
      hide Make, Processor.Shows, Processor.Stack, Processor.Valid;
      match a
      case Strue => Change(TRUE_PREFIX, []);
      case Sfalse => Change(FALSE_PREFIX, []);
      case Selse => Change(TRUE_ELSE, []);
      case Pelif | Oelif => Change(PASS_MIDDLE, [line]);
      case Pelse => Change(PASS_ELSE, [line]);
      case Dfalse => Change(FALSE_TRAILER, []);
      case Delif => Change(FALSE_MIDDLE, []);
      case Delse => Change(FALSE_ELSE, []);
      case Mpass => Change(PASS_MIDDLE, [AsIf(line)]);
      case Mtrue => Change(TRUE_MIDDLE, [Else(false)]);
      case Melif => Change(FALSE_TRAILER, [Endif(false)]);
      case Melse => Change(FALSE_ELSE, [Endif(false)]);
    }

    /** The actions that leave the stack alone. */
    method Remain(a: Action, line: Line)
      requires Valid() && status == Running
      requires a in {Eelif, Eelse, Eendif, Eeof, Eioccc, Print, Drop, Done, Abort}
      modifies this`output, this`status
      ensures Valid() && Shows(Make(old(Stack()), Perform(o, a, line)), old(output))
    {
      match a
      case Print => Emit(line);
      case Drop =>
      case Done => status := DoneOk;
      case Abort => status := Bug;
      case Eelif | Eelse | Eendif | Eeof | Eioccc => status := Error;
    }

    method Act(a: Action, line: Line)
      requires Valid() && status == Running
      modifies this, ifstate
      ensures Valid() && Shows(Make(old(Stack()), Perform(o, a, line)), old(output))
    {
      match a
      case Eelif | Eelse | Eendif | Eeof | Eioccc | Print | Drop | Done | Abort => Remain(a, line);
      case Pendif => Leave(true, line);
      case Dendif => Leave(false, line);
      case Fdrop | Idrop | Fpass | Ftrue | Itrue | Ffalse | Ifalse | Oiffy | Oif => Enter(a, line);
      case Oelif =>
        if o.iocccok {
          Turn(a, line);
        } else {
          status := Error;
        }
      case _ => Turn(a, line);
    }

    /** The condition of an #if or #elif, demoted when the line holds more. */
    method Condition(cond: seq<Token>) returns (lt: Verdict)
      requires Valid()
      modifies evaluator`constexpr
      ensures lt == Classify(o, cond)
    {
      var rest;
      lt, rest := evaluator.IfEval(o.killconsts, cond);
      if rest != [] {
        lt := LT_IF;
      }
    }

    method ParseLine(line: Line) returns (lt: Linetype)
      requires Valid()
      modifies evaluator`constexpr
      ensures lt == LineType(o, line)
    {
      match line
      case Plain(_) => lt := LT_PLAIN;
      case If(cond, dodgy) =>
        var v := Condition(cond);
        lt := LT(if v == LT_TRUE then TRUE else if v == LT_FALSE then FALSE else IF, dodgy);
      case Ifdef(negated, name, junk, dodgy) =>
        var base := IF;
        if name != "" && name in o.syms {
          base := if negated then FALSE else TRUE;
          if o.syms[name].def.Undefined? {
            base := if base == TRUE then FALSE else TRUE;
          }
          if o.syms[name].ignore {
            base := if base == TRUE then TRUEI else FALSEI;
          }
        }
        if junk && base != IF {
          base := IF;
        }
        lt := LT(base, dodgy);
      case Elif(cond, dodgy) =>
        var v := Condition(cond);
        lt := LT(if v == LT_TRUE then ELTRUE else if v == LT_FALSE then ELFALSE else ELIF, dodgy);
      case Else(dodgy) => lt := LT(ELSE, dodgy);
      case Endif(dodgy) => lt := LT(ENDIF, dodgy);
    }

    /** The driver loop, up to the point where the program exits. */
    method Process(input: seq<Line>)
      requires Valid() && Stack() == [OUTSIDE] && output == [] && status == Running
      modifies this, ifstate, evaluator`constexpr
      ensures match Unifdef(o, input)
              case Some(out) => status == DoneOk && output == out
              case None => status == Error
    {
      var n := 0;
      assert input[0..] == input;
      PrependNothing(Unifdef(o, input));
      while status == Running
        invariant 0 <= n <= |input| && Valid()
        invariant status == Running ==>
          StackOk(Stack()) && Unifdef(o, input) == Prepend(output, Run(o, Stack(), input[n..]))
        invariant status != Running ==>
          Unifdef(o, input) == (if status == DoneOk then Some(output) else None) && status != Bug
        decreases |input| - n, status == Running
      {
        if n == |input| {
          ProcessEof();
          assert input[n..] == [] && output + [] == output;
        } else {
          assert input[n..][1..] == input[n + 1..];
          RunUnfold(o, Stack(), input[n..]);
          PrependTwice(output, Step(o, Stack(), input[n]), input[n + 1..], o);
          ProcessLine(input[n]);
          n := n + 1;
        }
      }
    }

    /** One turn of the driver loop on a line of input. */
    method ProcessLine(line: Line)
      requires Valid() && status == Running && StackOk(Stack())
      modifies this, ifstate, evaluator`constexpr
      ensures Valid() && Shows(Step(o, old(Stack()), line), old(output))
    {
      assert ifstate[depth] == Last(Stack());
      var lineval := ParseLine(line);
      Act(Transition(ifstate[depth], lineval), line);
    }

    /** The last turn, when the input is exhausted. */
    method ProcessEof()
      requires Valid() && status == Running && StackOk(Stack())
      modifies this, ifstate
      ensures Valid() && status == (if old(depth) == 0 then DoneOk else Error) && output == old(output)
    {
      assert ifstate[depth] == Last(Stack()) && (ifstate[depth] == OUTSIDE <==> depth == 0);
      Act(Transition(ifstate[depth], LT_EOF), Plain(""));
    }
  }

  lemma PrependNothing(r: Option<seq<Line>>)
    ensures Prepend([], r) == r
  {
    if r.Some? {
      assert [] + r.value == r.value;
    }
  }

  lemma PrependTwice(out: seq<Line>, r: Outcome, lines: seq<Line>, o: Options)
    ensures r.Next? && r.stack != [] ==>
      Prepend(out, Prepend(r.out, Run(o, r.stack, lines))) == Prepend(out + r.out, Run(o, r.stack, lines))
  {
    if r.Next? && r.stack != [] && Run(o, r.stack, lines).Some? {
      var rest := Run(o, r.stack, lines).value;
      assert out + (r.out + rest) == (out + r.out) + rest;
    }
  }

  lemma RunUnfold(o: Options, stack: seq<Ifstate>, lines: seq<Line>)
    requires StackOk(stack) && lines != []
    ensures var r := Step(o, stack, lines[0]);
            if r.Next? then
              StackOk(r.stack) && Run(o, stack, lines) == Prepend(r.out, Run(o, r.stack, lines[1..]))
            else r.Failed? && Run(o, stack, lines) == None
  {
    StepSafe(o, stack, lines[0]);
  }
}
