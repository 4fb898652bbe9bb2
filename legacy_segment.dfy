/**
 * The older, flat segment model (src/segment.rs): eight segment kinds side
 * by side, a keyword parser and `as_asm` for the kinds it implements.
 */
module LegacySegment {
  import opened Options
  import opened Numeric
  import Asm
  import Segments

  datatype SegmentType = Argument | Local | Static | Constant | This | That | Pointer | Temp

  /** `Segment::new(segment, index)` is this constructor. */
  datatype Segment = Segment(segment: SegmentType, index: i32)

  function Keyword(t: SegmentType): string
  {
    match t
    case Argument => "argument"
    case Local => "local"
    case Static => "static"
    case Constant => "constant"
    case This => "this"
    case That => "that"
    case Pointer => "pointer"
    case Temp => "temp"
  }

  /** `SegmentType::from_str`: the eight keywords, and `InvalidSegment` carrying any other text. */
  function ParseSegmentType(s: string): (r: Result<SegmentType, Segments.ParseError>)
    ensures r.Ok? ==> Keyword(r.value) == s
    ensures r.Err? ==> r.error == Segments.InvalidSegment(s)
  {
    match s
    case "argument" => Ok(Argument)
    case "local" => Ok(Local)
    case "static" => Ok(Static)
    case "constant" => Ok(Constant)
    case "this" => Ok(This)
    case "that" => Ok(That)
    case "pointer" => Ok(Pointer)
    case "temp" => Ok(Temp)
    case _ => Err(Segments.InvalidSegment(s))
  }

  lemma ParseKeyword(t: SegmentType)
    ensures ParseSegmentType(Keyword(t)) == Ok(t)
  {
  }

  /** The flat parser accepts the same keywords as the current one. */
  lemma SameKeywordsAsSegments(s: string)
    ensures ParseSegmentType(s).Ok? <==> Segments.ParseSegmentType(s).Ok?
  {
  }

  /** The kinds `as_asm` implements; the others reach `todo!()`. */
  predicate HasAsm(seg: Segment)
  {
    seg.segment !in {Pointer, Static, Temp}
  }

  /**
   * `Segment::as_asm`: the constant itself as a literal address, or the base
   * register of a frame segment. The `as u32` cast keeps the low 32 bits, so a
   * negative constant becomes its two's-complement reading.
   */
  function AsAsm(seg: Segment): (r: Asm.Assembly)
    requires HasAsm(seg)
    ensures seg.segment == Constant ==> r.Address?
    ensures seg.segment == Constant && 0 <= seg.index ==> r.addr as int == seg.index as int
    ensures seg.segment == Constant && seg.index < 0 ==> r.addr as int == seg.index as int + 0x1_0000_0000
    ensures seg.segment != Constant ==> r.BaseRegister? && r.reg != Asm.R13
  {
    match seg.segment
    case Constant => Asm.Address((seg.index as int % 0x1_0000_0000) as u32)
    case Local => Asm.Local()
    case Argument => Asm.Argument()
    case This => Asm.This()
    case That => Asm.That()
  }

  /** The four frame kinds map to four different registers, the same ones the current model uses. */
  lemma AsAsmMatchesFrameSegments(seg: Segment)
    requires seg.segment in {Local, Argument, This, That}
    ensures AsAsm(seg) == Segments.AsAsm(
      match seg.segment
      case Local => Segments.Local
      case Argument => Segments.Argument
      case This => Segments.This
      case _ => Segments.That)
  {
  }

  lemma AsAsmInjective(s1: Segment, s2: Segment)
    requires HasAsm(s1) && HasAsm(s2) && s1.segment != s2.segment
    requires s1.segment != Constant && s2.segment != Constant
    ensures AsAsm(s1) != AsAsm(s2)
  {
  }
}
