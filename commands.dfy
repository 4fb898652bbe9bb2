/**
 * VM commands and their parser (src/commands/mod.rs). A line is split into
 * tokens on runs of ASCII whitespace; the first token names the command,
 * and `push`/`pop` read a segment keyword and an `i32` index after it.
 * Tokens after the ones a command reads are ignored.
 */
module Commands {
  import opened Options
  import opened Numeric
  import opened Segments

  datatype Command =
    | Push(seg: Segment)
    | Pop(seg: Segment)
    | Add | Subtract | Negate | Equal | GreaterThan | LessThan | And | Or | Not

  /** `char::is_ascii_whitespace`: space, tab, line feed, form feed, carriage return. */
  predicate IsAsciiWhitespace(c: char)
  {
    c == ' ' || c == '\t' || c == '\n' || c == 12 as char || c == '\r'
  }

  /** Text made of whitespace only. */
  predicate Blank(s: string)
  {
    forall i :: 0 <= i < |s| ==> IsAsciiWhitespace(s[i])
  }

  predicate NoWhitespace(s: string)
  {
    forall i :: 0 <= i < |s| ==> !IsAsciiWhitespace(s[i])
  }

  /** The length of the run of non-whitespace characters that starts `s`. */
  function WordLength(s: string): (n: nat)
    ensures n <= |s| && NoWhitespace(s[..n])
    ensures n < |s| ==> IsAsciiWhitespace(s[n])
  {
    if s == [] || IsAsciiWhitespace(s[0]) then 0
    else
      var n := 1 + WordLength(s[1..]);
      assert s[..n] == [s[0]] + s[1..][..n - 1];
      n
  }

  /** `str::split_ascii_whitespace`: the maximal non-empty whitespace-free runs, in order. */
  function Tokens(s: string): (ts: seq<string>)
    ensures forall i :: 0 <= i < |ts| ==> ts[i] != [] && NoWhitespace(ts[i])
    decreases |s|
  {
    if s == [] then []
    else if IsAsciiWhitespace(s[0]) then Tokens(s[1..])
    else
      var n := WordLength(s);
      [s[..n]] + Tokens(s[n..])
  }

  /** The derived `Debug` text of a segment, e.g. `Segment { segment: LATT(Local), index: 7 }`. */
  function SegmentDebugText(seg: Segment): string
  {
    var kind := match seg.segment
      case LATT(l) => "LATT(" + (match l case Local => "Local" case Argument => "Argument" case This => "This" case That => "That") + ")"
      case Static => "Static"
      case Constant => "Constant"
      case Pointer => "Pointer"
      case Temp => "Temp";
    "Segment { segment: " + kind + ", index: " + SignedDecimal(seg.index as int) + " }"
  }

  /** The derived `Debug` text of a command, which the translator writes as a comment. */
  function DebugText(c: Command): string
  {
    match c
    case Push(seg) => "Push(" + SegmentDebugText(seg) + ")"
    case Pop(seg) => "Pop(" + SegmentDebugText(seg) + ")"
    case Add => "Add"
    case Subtract => "Subtract"
    case Negate => "Negate"
    case Equal => "Equal"
    case GreaterThan => "GreaterThan"
    case LessThan => "LessThan"
    case And => "And"
    case Or => "Or"
    case Not => "Not"
  }

  /** The keyword of every command that takes no argument. */
  function ZeroArgKeyword(c: Command): string
    requires !c.Push? && !c.Pop?
  {
    match c
    case Add => "add"
    case Subtract => "sub"
    case Equal => "eq"
    case LessThan => "lt"
    case GreaterThan => "gt"
    case Negate => "neg"
    case Not => "not"
    case Or => "or"
    case And => "and"
  }

  const CommandKeywords: set<string> := {"push", "pop", "add", "sub", "eq", "lt", "gt", "neg", "not", "or", "and"}

  /**
   * What `from_str` demands of a line so as not to panic: after `push` or
   * `pop` a segment token must follow, and after a valid segment keyword an
   * index token that parses as an `i32` (both are read with `unwrap`).
   */
  predicate Parsable(s: string)
  {
    var ts := Tokens(s);
    |ts| >= 1 && ts[0] in {"push", "pop"} ==>
      |ts| >= 2 && (ParseSegmentType(ts[1]).Ok? ==> |ts| >= 3 && ParseI32(ts[2]).Some?)
  }

  /** `Command::from_str`. */
  function Parse(s: string): (r: Result<Command, ParseError>)
    requires Parsable(s)
    ensures r.Err? && r.error.InvalidCommand? <==> (Tokens(s) == [] || Tokens(s)[0] !in CommandKeywords)
    ensures r.Err? && r.error.InvalidCommand? ==> r.error.line == "Not valid: " + s
    ensures r.Err? && r.error.InvalidSegment? ==>
      Tokens(s)[0] in {"push", "pop"} && r.error.segment == Tokens(s)[1]
    ensures r.Ok? && (r.value.Push? || r.value.Pop?) ==>
      && Tokens(s)[0] == (if r.value.Push? then "push" else "pop")
      && Keyword(r.value.seg.segment) == Tokens(s)[1]
      && ParseI32(Tokens(s)[2]) == Some(r.value.seg.index)
    ensures r.Ok? && !r.value.Push? && !r.value.Pop? ==> Tokens(s)[0] == ZeroArgKeyword(r.value)
    ensures |Tokens(s)| >= 2 && Tokens(s)[0] in {"push", "pop"} ==>
      (r.Err? && r.error.InvalidSegment? <==> ParseSegmentType(Tokens(s)[1]).Err?)
    ensures |Tokens(s)| >= 2 && Tokens(s)[0] in {"push", "pop"} && ParseSegmentType(Tokens(s)[1]).Ok? ==>
      r.Ok? && (r.value.Push? <==> Tokens(s)[0] == "push") && (r.value.Pop? <==> Tokens(s)[0] == "pop")
  {
    var ts := Tokens(s);
    if ts == [] then Err(InvalidCommand("Not valid: " + s))
    else match ts[0]
      case "push" =>
        (match ParseSegmentType(ts[1])
         case Err(e) => Err(e)
         case Ok(segment) => Ok(Push(Segment(segment, ParseI32(ts[2]).value))))
      case "pop" =>
        (match ParseSegmentType(ts[1])
         case Err(e) => Err(e)
         case Ok(segment) => Ok(Pop(Segment(segment, ParseI32(ts[2]).value))))
      case "add" => Ok(Add)
      case "sub" => Ok(Subtract)
      case "eq" => Ok(Equal)
      case "lt" => Ok(LessThan)
      case "gt" => Ok(GreaterThan)
      case "neg" => Ok(Negate)
      case "not" => Ok(Not)
      case "or" => Ok(Or)
      case "and" => Ok(And)
      case _ => Err(InvalidCommand("Not valid: " + s))
  }

  /** The canonical text of a command: keyword, segment keyword and index separated by single spaces. */
  function Print(c: Command): string
  {
    match c
    case Push(seg) => "push" + " " + Keyword(seg.segment) + " " + SignedDecimal(seg.index as int)
    case Pop(seg) => "pop" + " " + Keyword(seg.segment) + " " + SignedDecimal(seg.index as int)
    case _ => ZeroArgKeyword(c)
  }

  lemma {:induction false} WordLengthOfWord(w: string, rest: string)
    requires NoWhitespace(w) && (rest == [] || IsAsciiWhitespace(rest[0]))
    ensures WordLength(w + rest) == |w|
    decreases |w|
  {
    if w == [] {
      assert w + rest == rest;
    } else {
      assert (w + rest)[0] == w[0];
      assert (w + rest)[1..] == w[1..] + rest;
      WordLengthOfWord(w[1..], rest);
    }
  }

  /** A whitespace-free word followed by a break is the first token. */
  lemma TokensOfWord(w: string, rest: string)
    requires w != [] && NoWhitespace(w) && (rest == [] || IsAsciiWhitespace(rest[0]))
    ensures Tokens(w + rest) == [w] + Tokens(rest)
  {
    WordLengthOfWord(w, rest);
    assert (w + rest)[..|w|] == w;
    assert (w + rest)[|w|..] == rest;
  }

  lemma TokensOfSpaced(w: string, rest: string)
    requires w != [] && NoWhitespace(w)
    ensures Tokens(w + " " + rest) == [w] + Tokens(rest)
  {
    assert w + " " + rest == w + (" " + rest);
    TokensOfWord(w, " " + rest);
    assert (" " + rest)[1..] == rest;
  }

  lemma DecimalHasNoWhitespace(x: int)
    ensures NoWhitespace(SignedDecimal(x))
  {
    var s := SignedDecimal(x);
    var d := Decimal(if x < 0 then -x else x);
    assert AllDigits(d);
    forall i | 0 <= i < |s| ensures !IsAsciiWhitespace(s[i]) {
      if x < 0 && i > 0 {
        assert s[i] == d[i - 1];
      }
    }
  }

  lemma TokensOfThree(kw: string, sk: string, num: string)
    requires kw != [] && sk != [] && num != []
    requires NoWhitespace(kw) && NoWhitespace(sk) && NoWhitespace(num)
    ensures Tokens(kw + " " + sk + " " + num) == [kw, sk, num]
  {
    assert kw + " " + sk + " " + num == kw + " " + (sk + " " + num);
    TokensOfSpaced(kw, sk + " " + num);
    TokensOfSpaced(sk, num);
    assert num == num + [];
    TokensOfWord(num, []);
  }

  lemma TokensOfSegmentCommand(kw: string, seg: Segment)
    requires kw == "push" || kw == "pop"
    ensures Tokens(kw + " " + Keyword(seg.segment) + " " + SignedDecimal(seg.index as int))
         == [kw, Keyword(seg.segment), SignedDecimal(seg.index as int)]
  {
    var sk := Keyword(seg.segment);
    assert sk != [] && NoWhitespace(sk);
    DecimalHasNoWhitespace(seg.index as int);
    TokensOfThree(kw, sk, SignedDecimal(seg.index as int));
  }

  /** A command without arguments prints as a single token, its keyword. */
  lemma TokensOfZeroArg(c: Command)
    requires !c.Push? && !c.Pop?
    ensures Tokens(Print(c)) == [ZeroArgKeyword(c)]
  {
    var kw := ZeroArgKeyword(c);
    assert kw == kw + [];
    TokensOfWord(kw, []);
  }

  /** The tokens of a printed command are its keyword, segment keyword and index text. */
  lemma TokensOfPrint(c: Command)
    ensures c.Push? ==> Tokens(Print(c)) == ["push", Keyword(c.seg.segment), SignedDecimal(c.seg.index as int)]
    ensures c.Pop? ==> Tokens(Print(c)) == ["pop", Keyword(c.seg.segment), SignedDecimal(c.seg.index as int)]
    ensures !c.Push? && !c.Pop? ==> Tokens(Print(c)) == [ZeroArgKeyword(c)]
  {
    if c.Push? {
      TokensOfSegmentCommand("push", c.seg);
    } else if c.Pop? {
      TokensOfSegmentCommand("pop", c.seg);
    } else {
      TokensOfZeroArg(c);
    }
  }

  /** Parsing the printed text of any command gives the command back. */
  lemma ParsePrint(c: Command)
    ensures Parsable(Print(c))
    ensures Parse(Print(c)) == Ok(c)
  {
    TokensOfPrint(c);
    if c.Push? || c.Pop? {
      ParseKeyword(c.seg.segment);
      ParseSignedDecimal(c.seg.index);
    }
  }

  /** The unit test in src/babel.rs: `push constant 5`, `pop local 7` and `add`. */
  lemma PrintExamples()
    ensures Print(Push(Segment(Constant, 5))) == "push constant 5"
    ensures Print(Pop(Segment(LATT(Local), 7))) == "pop local 7"
  {
    assert Decimal(5) == "5" && Decimal(7) == "7";
  }

  lemma ParsePushConstantExample()
    ensures Parsable("push constant 5") && Parse("push constant 5") == Ok(Push(Segment(Constant, 5)))
  {
    ParsePrint(Push(Segment(Constant, 5)));
    PrintExamples();
  }

  lemma ParsePopLocalExample()
    ensures Parsable("pop local 7") && Parse("pop local 7") == Ok(Pop(Segment(LATT(Local), 7)))
  {
    ParsePrint(Pop(Segment(LATT(Local), 7)));
    PrintExamples();
  }

  lemma ParseAddExample()
    ensures Parsable("add") && Parse("add") == Ok(Add)
  {
    ParsePrint(Add);
  }

  /** Tokens past the three a `push` or `pop` reads do not change the result. */
  lemma ParseSegmentIgnoresTrailingTokens(c: Command, sep: string, extra: string)
    requires c.Push? || c.Pop?
    requires sep != [] && Blank(sep)
    ensures Parsable(Print(c) + sep + extra)
    ensures Parse(Print(c) + sep + extra) == Ok(c)
  {
    TokensOfPrint(c);
    TokensAppend(Print(c), sep, extra);
    ParseKeyword(c.seg.segment);
    ParseSignedDecimal(c.seg.index);
  }

  /** Tokens past the keyword of an arithmetic command do not change the result. */
  lemma ParseZeroArgIgnoresTrailingTokens(c: Command, sep: string, extra: string)
    requires !c.Push? && !c.Pop?
    requires sep != [] && Blank(sep)
    ensures Parsable(Print(c) + sep + extra)
    ensures Parse(Print(c) + sep + extra) == Ok(c)
  {
    TokensOfZeroArg(c);
    TokensAppend(Print(c), sep, extra);
  }

  /** Tokens past the ones a command reads, after any run of whitespace, do not change the result. */
  lemma ParseIgnoresTrailingTokens(c: Command, sep: string, extra: string)
    requires sep != [] && Blank(sep)
    ensures Parsable(Print(c) + sep + extra)
    ensures Parse(Print(c) + sep + extra) == Ok(c)
  {
    if c.Push? || c.Pop? {
      ParseSegmentIgnoresTrailingTokens(c, sep, extra);
    } else {
      ParseZeroArgIgnoresTrailingTokens(c, sep, extra);
    }
  }

  /**
   * The parse depends on the line only through its tokens, except for the
   * line echoed in an `InvalidCommand` error: how much whitespace separates
   * the words, and whether it leads or trails, makes no difference.
   */
  lemma ParseSameTokens(s1: string, s2: string)
    requires Tokens(s1) == Tokens(s2) && Parsable(s1)
    ensures Parsable(s2)
    ensures Parse(s1).Err? && Parse(s1).error.InvalidCommand? <==> Parse(s2).Err? && Parse(s2).error.InvalidCommand?
    ensures !(Parse(s1).Err? && Parse(s1).error.InvalidCommand?) ==> Parse(s2) == Parse(s1)
  {
  }

  /** Leading whitespace is skipped. */
  lemma {:induction false} TokensOfBlank(w: string, s: string)
    requires Blank(w)
    ensures Tokens(w + s) == Tokens(s)
    decreases |w|
  {
    if w != [] {
      assert (w + s)[0] == w[0];
      assert (w + s)[1..] == w[1..] + s;
      TokensOfBlank(w[1..], s);
    } else {
      assert w + s == s;
    }
  }

  /** Whitespace alone has no tokens. */
  lemma TokensOfBlankOnly(w: string)
    requires Blank(w)
    ensures Tokens(w) == []
  {
    TokensOfBlank(w, []);
    assert w + [] == w;
  }

  /** A word followed by whitespace is one token. */
  lemma TokensOfTrailedWord(w: string, trail: string)
    requires w != [] && NoWhitespace(w) && Blank(trail)
    ensures Tokens(w + trail) == [w]
  {
    TokensOfWord(w, trail);
    TokensOfBlankOnly(trail);
  }

  /** Three words with whitespace of any length around and between them are three tokens. */
  lemma TokensOfSpacedThree(lead: string, a: string, s1: string, b: string, s2: string, c: string, trail: string)
    requires Blank(lead) && Blank(trail) && s1 != [] && Blank(s1) && s2 != [] && Blank(s2)
    requires a != [] && b != [] && c != [] && NoWhitespace(a) && NoWhitespace(b) && NoWhitespace(c)
    ensures Tokens(lead + (a + s1 + (b + s2 + (c + trail)))) == [a, b, c]
  {
    var z := c + trail;
    var y := b + (s2 + z);
    var x := a + (s1 + y);
    assert b + s2 + z == y && a + s1 + y == x;
    TokensOfBlank(lead, x);
    TokensOfWord(a, s1 + y);
    TokensOfBlank(s1, y);
    TokensOfWord(b, s2 + z);
    TokensOfBlank(s2, z);
    TokensOfTrailedWord(c, trail);
  }

  /** Tabs and repeated spaces only separate the words of a line. */
  lemma TokensOfSpacedLine()
    ensures Tokens("\tpush  local\t3 ") == ["push", "local", "3"]
  {
    assert "\tpush  local\t3 " == "\t" + ("push" + "  " + ("local" + "\t" + ("3" + " ")));
    TokensOfSpacedThree("\t", "push", "  ", "local", "\t", "3", " ");
  }

  /** A line with tabs and repeated spaces parses like its canonical text. */
  lemma ParseSpacingExample()
    ensures Parsable("\tpush  local\t3 ") && Parse("\tpush  local\t3 ") == Ok(Push(Segment(LATT(Local), 3)))
  {
    var c := Push(Segment(LATT(Local), 3));
    TokensOfSpacedLine();
    TokensOfPrint(c);
    ParsePrint(c);
    assert SignedDecimal(3) == "3";
    ParseSameTokens(Print(c), "\tpush  local\t3 ");
  }

  /** Text joined with any non-empty run of whitespace tokenises into the tokens of each part. */
  lemma {:induction false} TokensAppend(p: string, sep: string, q: string)
    requires sep != [] && Blank(sep)
    ensures Tokens(p + sep + q) == Tokens(p) + Tokens(q)
    decreases |p|
  {
    if p == [] {
      assert p + sep + q == sep + q;
      TokensOfBlank(sep, q);
    } else if IsAsciiWhitespace(p[0]) {
      assert (p + sep + q)[0] == p[0];
      assert (p + sep + q)[1..] == p[1..] + sep + q;
      TokensAppend(p[1..], sep, q);
    } else {
      var n := WordLength(p);
      var w := p[..n];
      var rest := p[n..];
      assert p == w + rest;
      assert p + sep + q == w + (rest + sep + q);
      assert (rest + sep + q)[0] == if rest == [] then sep[0] else rest[0];
      TokensOfWord(w, rest);
      TokensOfWord(w, rest + sep + q);
      TokensAppend(rest, sep, q);
    }
  }
}
