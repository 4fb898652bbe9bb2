/**
 * VM memory segments (src/commands/segment.rs): the four frame segments
 * LATT (local, argument, this, that), the other four segment kinds, and the
 * keyword parser. `ParseError` is declared in src/commands/mod.rs; it is
 * declared here because the segment parser returns it and the command module
 * imports this one.
 */
module Segments {
  import opened Options
  import opened Numeric
  import Asm

  datatype ParseError = InvalidCommand(line: string) | InvalidSegment(segment: string)

  /** The frame segments, each addressed through a base register. */
  datatype Latt = Local | Argument | This | That

  datatype SegmentType = LATT(latt: Latt) | Static | Constant | Pointer | Temp

  /** `Segment::new(segment, index)` is this constructor: it stores both unchanged. */
  datatype Segment = Segment(segment: SegmentType, index: i32)

  /** `LATT::as_asm`: the base register that holds the segment's base address. */
  function AsAsm(l: Latt): (r: Asm.Assembly)
    ensures r.BaseRegister? && r.reg != Asm.R13
  {
    match l
    case Local => Asm.Local()
    case Argument => Asm.Argument()
    case This => Asm.This()
    case That => Asm.That()
  }

  /** The four frame segments use four different base registers. */
  lemma AsAsmInjective(l1: Latt, l2: Latt)
    requires l1 != l2
    ensures AsAsm(l1) != AsAsm(l2)
  {
  }

  /** The VM keyword of each segment type. */
  function Keyword(t: SegmentType): string
  {
    match t
    case LATT(Argument) => "argument"
    case LATT(Local) => "local"
    case Static => "static"
    case Constant => "constant"
    case LATT(This) => "this"
    case LATT(That) => "that"
    case Pointer => "pointer"
    case Temp => "temp"
  }

  /**
   * `SegmentType::from_str`: exactly the eight keywords are accepted, each
   * giving the type it names; any other text is reported with the text itself.
   */
  function ParseSegmentType(s: string): (r: Result<SegmentType, ParseError>)
    ensures r.Ok? ==> Keyword(r.value) == s
    ensures r.Err? ==> r.error == InvalidSegment(s)
  {
    match s
    case "argument" => Ok(LATT(Argument))
    case "local" => Ok(LATT(Local))
    case "static" => Ok(Static)
    case "constant" => Ok(Constant)
    case "this" => Ok(LATT(This))
    case "that" => Ok(LATT(That))
    case "pointer" => Ok(Pointer)
    case "temp" => Ok(Temp)
    case _ => Err(InvalidSegment(s))
  }

  /** Every segment type's keyword is accepted and gives that type back. */
  lemma ParseKeyword(t: SegmentType)
    ensures ParseSegmentType(Keyword(t)) == Ok(t)
  {
  }

  /** Distinct accepted keywords give distinct segment types. */
  lemma ParseSegmentTypeInjective(s1: string, s2: string)
    requires ParseSegmentType(s1).Ok? && ParseSegmentType(s2).Ok? && s1 != s2
    ensures ParseSegmentType(s1).value != ParseSegmentType(s2).value
  {
  }
}
