/**
 * A reference semantics of the VM commands the translator accepts, stated
 * directly on the Hack memory under the standard mapping of the VM onto
 * the Hack platform: RAM[0] is SP and the stack grows upward from it;
 * RAM[1..4] are the bases of local, argument, this and that; pointer 0/1
 * is RAM[3]/RAM[4]; temp i is RAM[5 + i]; static i of file F is the
 * assembler variable `F.i`; a boolean is -1 (true) or 0 (false).
 */
module Vm {
  import opened Numeric
  import opened Asm
  import opened Hack
  import Segments
  import opened Commands
  import Babel
  import StaticSegment

  /** The Hack register holding the base of a frame segment. */
  function BaseOf(l: Segments.Latt): Register
  {
    match l
    case Local => LCL
    case Argument => ARG
    case This => THIS
    case That => THAT
  }

  /** Where cell `index` of a (non-constant) segment lives. */
  function SegmentAddress(sym: Symbols, basename: string, seg: Segments.Segment, ram: Ram): Word
    requires seg.segment != Segments.Constant && 0 <= seg.index
    requires seg.segment == Segments.Pointer ==> seg.index <= 1
  {
    match seg.segment
    case LATT(l) => Offset(Read(ram, RegisterAddress(BaseOf(l))), seg.index as int)
    case Pointer => if seg.index == 0 then RegisterAddress(THIS) else RegisterAddress(THAT)
    case Temp => ToWord(5 + seg.index as int)
    case Static => Resolve(sym, StaticSegment.StaticName(basename, seg.index as int as u32))
  }

  /** The value `push seg` pushes: the constant itself, or the segment cell's content. */
  function PushedValue(sym: Symbols, basename: string, seg: Segments.Segment, ram: Ram): Word
    requires 0 <= seg.index && (seg.segment == Segments.Pointer ==> seg.index <= 1)
  {
    if seg.segment == Segments.Constant then ToWord(seg.index as int)
    else Read(ram, SegmentAddress(sym, basename, seg, ram))
  }

  /** How many stack entries a command consumes. */
  function Operands(cmd: Command): nat
  {
    match cmd
    case Push(_) => 0
    case Pop(_) => 1
    case Negate => 1
    case Not => 1
    case _ => 2
  }

  /**
   * The stack holds the command's operands, and it lies above the sixteen
   * virtual registers R0..R15 (so that pushing and popping never touches SP
   * or the scratch register R13 as a stack cell).
   */
  predicate StackReady(cmd: Command, ram: Ram)
  {
    Read(ram, SpAddress) as int >= 16 + Operands(cmd)
  }

  /** `x op y` with x the second element and y the top. */
  function BinaryOp(cmd: Command, x: Word, y: Word): Word
    requires cmd.Add? || cmd.Subtract? || cmd.And? || cmd.Or?
  {
    match cmd
    case Add => ToWord(x as int + y as int)
    case Subtract => ToWord(x as int - y as int)
    case And => BitAnd(x, y)
    case Or => BitOr(x, y)
  }

  function UnaryOp(cmd: Command, y: Word): Word
    requires cmd.Negate? || cmd.Not?
  {
    if cmd.Negate? then ToWord(-(y as int)) else BitNot(y)
  }

  /** `x op y` as integers: equality, or signed order of second and top. */
  predicate Compare(cmd: Command, x: Word, y: Word)
    requires Babel.IsComparison(cmd)
  {
    match cmd
    case Equal => x == y
    case LessThan => Signed(x) < Signed(y)
    case GreaterThan => Signed(x) > Signed(y)
  }

  /** The VM's booleans: true is -1 (all bits set), false is 0. */
  function Flag(b: bool): Word
  {
    if b then 0xFFFF else 0
  }

  /** The memory after one VM command. */
  function VmStep(sym: Symbols, basename: string, cmd: Command, ram: Ram): Ram
    requires Babel.Translatable(cmd)
  {
    var sp := Read(ram, SpAddress);
    var top := Offset(sp, -1);
    var second := Offset(sp, -2);
    match cmd
    case Push(seg) => ram[sp := PushedValue(sym, basename, seg, ram)][SpAddress := Offset(sp, 1)]
    case Pop(seg) => ram[SpAddress := top][SegmentAddress(sym, basename, seg, ram) := Read(ram, top)]
    case Negate => ram[top := UnaryOp(cmd, Read(ram, top))]
    case Not => ram[top := UnaryOp(cmd, Read(ram, top))]
    case Equal => ram[SpAddress := top][second := Flag(Compare(cmd, Read(ram, second), Read(ram, top)))]
    case LessThan => ram[SpAddress := top][second := Flag(Compare(cmd, Read(ram, second), Read(ram, top)))]
    case GreaterThan => ram[SpAddress := top][second := Flag(Compare(cmd, Read(ram, second), Read(ram, top)))]
    case _ => ram[SpAddress := top][second := BinaryOp(cmd, Read(ram, second), Read(ram, top))]
  }
}
