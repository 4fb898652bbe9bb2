/**
 * The translator (src/babel.rs): `Babel` owns the label counter and the
 * file's basename, and `translate` turns one VM command into a fresh
 * `Translation` that starts with the command's Debug text as a comment.
 */
module Babel {
  import opened Options
  import opened Numeric
  import opened Asm
  import Segments
  import opened Commands
  import opened Translations
  import LattSegment
  import PointerSegment
  import StaticSegment
  import TempSegment

  /**
   * The commands `translate` handles: every index is non-negative (the
   * source casts it with `as u32`), a pointer index is 0 or 1 (otherwise
   * `panic!`), and `pop constant` reaches `todo!()`.
   */
  predicate Translatable(cmd: Command)
  {
    match cmd
    case Push(seg) => 0 <= seg.index && (seg.segment == Segments.Pointer ==> seg.index <= 1)
    case Pop(seg) =>
      seg.segment != Segments.Constant && 0 <= seg.index && (seg.segment == Segments.Pointer ==> seg.index <= 1)
    case _ => true
  }

  predicate IsComparison(cmd: Command)
  {
    cmd.Equal? || cmd.LessThan? || cmd.GreaterThan?
  }

  /** The condition a comparison jumps on; D holds top minus second when the jump examines it. */
  function ComparisonJump(cmd: Command): Jump
    requires IsComparison(cmd)
  {
    match cmd
    case Equal => JEQ
    case LessThan => JGT
    case GreaterThan => JLT
  }

  /** `push constant x`: D = x, RAM[SP] = D, SP = SP + 1. */
  function PushConstantCode(x: u32): seq<Assembly>
  {
    [Address(x), Assign(Dest.D, Comp.A)] + StoreDregToSpCode() + IncrementSpCode()
  }

  /** The counter after translating `cmd`: one more for each comparison, unchanged otherwise. */
  function NextCounter(counter: nat, cmd: Command): nat
  {
    if IsComparison(cmd) then counter + 1 else counter
  }

  /** The instructions `translate` appends after the leading comment. */
  function CommandCode(counter: nat, basename: string, cmd: Command): seq<Assembly>
    requires Translatable(cmd)
  {
    if cmd.Push? || cmd.Pop? then SegmentCode(basename, cmd) else ArithmeticCode(counter, cmd)
  }

  /** The push and pop arms of `translate`. */
  function SegmentCode(basename: string, cmd: Command): seq<Assembly>
    requires Translatable(cmd) && (cmd.Push? || cmd.Pop?)
  {
    match cmd
    case Push(Segment(Pointer, index)) => PointerSegment.PushPointerCode(index)
    case Pop(Segment(Pointer, index)) => PointerSegment.PopPointerCode(index)
    case Push(Segment(Constant, x)) => PushConstantCode(x as int as u32)
    case Push(Segment(LATT(latt), index)) => LattSegment.PushLattCode(latt, index as int as u32)
    case Pop(Segment(LATT(latt), index)) => LattSegment.PopLattCode(latt, index as int as u32)
    case Pop(Segment(Temp, index)) => TempSegment.PopTempCode(index as int as u32)
    case Push(Segment(Temp, index)) => TempSegment.PushTempCode(index as int as u32)
    case Pop(Segment(Static, index)) => StaticSegment.PopStaticCode(index as int as u32, basename)
    case Push(Segment(Static, index)) => StaticSegment.PushStaticCode(index as int as u32, basename)
  }

  /** The comment line each arithmetic arm pushes before its block. */
  function ArithmeticComment(cmd: Command): string
    requires !cmd.Push? && !cmd.Pop?
  {
    match cmd
    case Add => "addition"
    case Subtract => "subtract"
    case Equal => "equal"
    case LessThan => "less than"
    case GreaterThan => "greater than"
    case Negate => "negation"
    case Not => "not"
    case And => "and cmd"
    case Or => "or cmd"
  }

  predicate IsUnary(cmd: Command)
  {
    cmd.Negate? || cmd.Not?
  }

  /** The computation `unary_asm` applies to the top of the stack. */
  function UnaryComp(cmd: Command): Comp
    requires IsUnary(cmd)
  {
    if cmd.Negate? then NegateM else NotM
  }

  /** The computation `binary_asm` combines D (top) and M (second) with. */
  function BinaryComp(cmd: Command): Comp
    requires !cmd.Push? && !cmd.Pop? && !IsComparison(cmd) && !IsUnary(cmd)
  {
    match cmd
    case Add => DplusM
    case Subtract => MminusD
    case And => DandM
    case Or => DorM
  }

  /** The arithmetic arms of `translate`: a named comment, then the shared block. */
  function ArithmeticCode(counter: nat, cmd: Command): seq<Assembly>
    requires !cmd.Push? && !cmd.Pop?
  {
    [MkComment(ArithmeticComment(cmd))] +
    if IsComparison(cmd) then OrdCode(counter + 1, ComparisonJump(cmd))
    else if IsUnary(cmd) then UnaryCode(UnaryComp(cmd))
    else BinaryCode(BinaryComp(cmd))
  }

  /** Everything `translate` returns for `cmd` when the counter is `counter`. */
  function TranslateCode(counter: nat, basename: string, cmd: Command): seq<Assembly>
    requires Translatable(cmd)
  {
    [MkComment(DebugText(cmd))] + CommandCode(counter, basename, cmd)
  }

  predicate AllTranslatable(cmds: seq<Command>)
  {
    forall i :: 0 <= i < |cmds| ==> Translatable(cmds[i])
  }

  /** The counter after translating `cmds` one after the other. */
  function CounterAfter(counter: nat, cmds: seq<Command>): nat
    decreases |cmds|
  {
    if cmds == [] then counter else CounterAfter(NextCounter(counter, cmds[0]), cmds[1..])
  }

  /** The concatenated output of translating `cmds` in order on one translator. */
  function TranslateAll(counter: nat, basename: string, cmds: seq<Command>): seq<Assembly>
    requires AllTranslatable(cmds)
    decreases |cmds|
  {
    if cmds == [] then []
    else TranslateCode(counter, basename, cmds[0]) + TranslateAll(NextCounter(counter, cmds[0]), basename, cmds[1..])
  }

  class Babel {
    var counter: nat
    const basename: string

    /** `Babel::empty`: the counter starts at 0. */
    constructor Empty(basename: string)
      ensures counter == 0 && this.basename == basename
    {
      counter := 0;
      this.basename := basename;
    }

    /**
     * `translate`: a fresh buffer holding the command's block; the counter
     * moves only for a comparison, and by exactly one.
     */
    method Translate(cmd: Command) returns (t: Translation)
      requires Translatable(cmd)
      modifies this
      ensures fresh(t)
      ensures t.code == TranslateCode(old(counter), basename, cmd)
      ensures counter == NextCounter(old(counter), cmd)
    {
      t := new Translation();
      t.CommentOn(cmd);
      assert t.code == [MkComment(DebugText(cmd))];
      if cmd.Push? || cmd.Pop? {
        EmitSegment(t, basename, cmd);
        assert t.code == [MkComment(DebugText(cmd))] + SegmentCode(basename, cmd);
      } else {
        counter := EmitArithmetic(t, counter, cmd);
      }
    }
  }

  /** The push/pop arm of `translate`, appending to `t`. */
  method EmitSegment(t: Translation, basename: string, cmd: Command)
    requires Translatable(cmd) && (cmd.Push? || cmd.Pop?)
    modifies t
    ensures t.code == old(t.code) + SegmentCode(basename, cmd)
  {
    match cmd {
      case Push(Segment(Pointer, index)) => PointerSegment.PushPointer(t, index);
      case Pop(Segment(Pointer, index)) => PointerSegment.PopPointer(t, index);
      case Push(Segment(Constant, x)) =>
        t.WithAsm([ Address(x as int as u32), Assign(Dest.D, Comp.A),
                    Sp(), Assign(Dest.A, Comp.M), Assign(Dest.M, Comp.D),
                    Sp(), Assign(Dest.M, Mplus1) ]);
      case Push(Segment(LATT(latt), index)) => LattSegment.PushLatt(t, latt, index as int as u32);
      case Pop(Segment(LATT(latt), index)) => LattSegment.PopLatt(t, latt, index as int as u32);
      case Pop(Segment(Temp, index)) => TempSegment.PopTemp(t, index as int as u32);
      case Push(Segment(Temp, index)) => TempSegment.PushTemp(t, index as int as u32);
      case Pop(Segment(Static, index)) => StaticSegment.PopStatic(t, index as int as u32, basename);
      case Push(Segment(Static, index)) => StaticSegment.PushStatic(t, index as int as u32, basename);
    }
  }

  /** The arithmetic arms of `translate`, appending to `t`; returns the new counter. */
  method EmitArithmetic(t: Translation, counter: nat, cmd: Command) returns (next: nat)
    requires !cmd.Push? && !cmd.Pop?
    modifies t
    ensures t.code == old(t.code) + ArithmeticCode(counter, cmd)
    ensures next == NextCounter(counter, cmd)
  {
    next := counter;
    ghost var before := t.code;
    var head := MkComment(ArithmeticComment(cmd));
    t.Push(head);
    ghost var block: seq<Assembly>;
    if IsComparison(cmd) {
      next := t.OrdAsm(counter, ComparisonJump(cmd));
      block := OrdCode(counter + 1, ComparisonJump(cmd));
    } else if IsUnary(cmd) {
      t.UnaryAsm(UnaryComp(cmd));
      block := UnaryCode(UnaryComp(cmd));
    } else {
      t.BinaryAsm(BinaryComp(cmd));
      block := BinaryCode(BinaryComp(cmd));
    }
    AppendAssociates(before, [head], block);
  }

  /**
   * Translating command `i` moves the loop of `TranslateUnit` one command on:
   * the output so far, that command's block and the rest still make up the whole.
   */
  lemma TranslateAllStep(counter: nat, basename: string, cmds: seq<Command>, i: nat, program: seq<Assembly>)
    requires AllTranslatable(cmds) && i < |cmds|
    ensures program + TranslateAll(counter, basename, cmds[i..])
         == (program + TranslateCode(counter, basename, cmds[i])) + TranslateAll(NextCounter(counter, cmds[i]), basename, cmds[i + 1..])
    ensures CounterAfter(counter, cmds[i..]) == CounterAfter(NextCounter(counter, cmds[i]), cmds[i + 1..])
  {
    assert cmds[i..][0] == cmds[i] && cmds[i..][1..] == cmds[i + 1..];
    AppendAssociates(program, TranslateCode(counter, basename, cmds[i]), TranslateAll(NextCounter(counter, cmds[i]), basename, cmds[i + 1..]));
  }

  lemma AppendAssociates<T>(a: seq<T>, b: seq<T>, c: seq<T>)
    ensures a + (b + c) == (a + b) + c
  {
  }

  /**
   * The driver loop of src/main.rs without its I/O: translate each command
   * on one `Babel`, in order, and append `finish()` once at the end.
   */
  method TranslateUnit(b: Babel, cmds: seq<Command>) returns (program: seq<Assembly>)
    requires AllTranslatable(cmds)
    modifies b
    ensures program == TranslateAll(old(b.counter), b.basename, cmds) + FinishCode()
    ensures b.counter == CounterAfter(old(b.counter), cmds)
  {
    program := [];
    var i := 0;
    assert cmds[i..] == cmds;
    while i < |cmds|
      invariant 0 <= i <= |cmds|
      invariant program + TranslateAll(b.counter, b.basename, cmds[i..]) == TranslateAll(old(b.counter), b.basename, cmds)
      invariant CounterAfter(b.counter, cmds[i..]) == CounterAfter(old(b.counter), cmds)
    {
      TranslateAllStep(b.counter, b.basename, cmds, i, program);
      var asm := b.Translate(cmds[i]);
      program := program + asm.code;
      i := i + 1;
    }
    assert cmds[i..] == [];
    var end := Translation.Finish();
    program := program + end.code;
  }
}
