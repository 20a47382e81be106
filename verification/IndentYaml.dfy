/** The indentation-based YAML subset: its lines, its meaning, and the stack machine that reads it. */
module IndentYaml {
  import opened Text

  datatype Scalar = Str(s: string) | Bool(b: bool) | Null | Int(n: int) | Float(bits: int)

  datatype Yaml = Leaf(v: Scalar) | Map(m: map<string, Yaml>)

  /** A value text is a scalar, or empty and then opens a nested mapping. */
  datatype Value = Plain(v: Scalar) | Opens

  // ----- scalars

  predicate IsDigit(c: char) {
    '0' <= c <= '9'
  }

  /** Digits, with single underscores allowed between them. */
  predicate IsDigits(s: string) {
    && s != "" && IsDigit(s[0]) && IsDigit(s[|s| - 1])
    && (forall i :: 0 <= i < |s| ==> IsDigit(s[i]) || s[i] == '_')
    && (forall i :: 0 < i < |s| ==> !(s[i - 1] == '_' && s[i] == '_'))
  }

  function DigitValue(c: char): nat
    requires IsDigit(c)
  {
    c as int - '0' as int
  }

  function DigitsValue(s: string): nat
    requires forall i :: 0 <= i < |s| ==> IsDigit(s[i]) || s[i] == '_'
  {
    if s == "" then 0
    else
      var front := DigitsValue(s[..|s| - 1]);
      var c := s[|s| - 1];
      if c == '_' then front
      else
        assert IsDigit(c);
        10 * front + DigitValue(c)
  }

  function ParseInt(s: string): Option<int> {
    if s != "" && (s[0] == '-' || s[0] == '+') then
      if !IsDigits(s[1..]) then None
      else if s[0] == '-' then Some(-(DigitsValue(s[1..]) as int)) else Some(DigitsValue(s[1..]))
    else if IsDigits(s) then Some(DigitsValue(s))
    else None
  }

  predicate Quoted(text: string, quote: char) {
    text != "" && text[0] == quote && text[|text| - 1] == quote
  }

  /** `toFloat` is the conversion to a float, asked only about texts with a dot in them. */
  function CoerceText(text: string, toFloat: string -> Option<int>): Value {
    if text == "" then Opens
    else if text == ">" || text == "|" then Plain(Str(text))
    else if Quoted(text, '"') || Quoted(text, '\'') then
      Plain(Str(if |text| == 1 then "" else text[1..|text| - 1]))
    else
      var lowered := ToLower(text);
      if lowered == "true" then Plain(Bool(true))
      else if lowered == "false" then Plain(Bool(false))
      else if lowered == "null" then Plain(Null)
      else if '.' in text then
        match toFloat(text)
        case Some(bits) => Plain(Float(bits))
        case None => Plain(Str(text))
      else
        match ParseInt(text)
        case Some(n) => Plain(Int(n))
        case None => Plain(Str(text))
  }

  function CoerceScalar(value: string, toFloat: string -> Option<int>): Value {
    CoerceText(Strip(value), toFloat)
  }

  // ----- lines

  datatype Line = Line(indent: nat, key: string, value: Value)

  function LeadingSpaces(s: string): nat {
    if s != "" && s[0] == ' ' then 1 + LeadingSpaces(s[1..]) else 0
  }

  /** The text before the first colon. */
  function BeforeColon(s: string): string {
    if s == "" || s[0] == ':' then "" else [s[0]] + BeforeColon(s[1..])
  }

  lemma {:induction false} BeforeColonCut(s: string)
    ensures BeforeColon(s) <= s && ':' !in BeforeColon(s)
    ensures ':' in s ==> |BeforeColon(s)| < |s| && s[|BeforeColon(s)|] == ':'
  {
    if s != "" && s[0] != ':' {
      BeforeColonCut(s[1..]);
    }
  }

  /** Blank lines, comments, list items and lines without a colon are skipped. */
  function ParseLine(raw: string, toFloat: string -> Option<int>): Option<Line> {
    var line := Strip(raw);
    var left := LStrip(raw);
    if line == "" || "#" <= left || "- " <= left || ':' !in line then None
    else
      var key := BeforeColon(line);
      BeforeColonCut(line);
      Some(Line(LeadingSpaces(raw), Strip(key), CoerceScalar(line[|key| + 1..], toFloat)))
  }

  function Lines(raws: seq<string>, toFloat: string -> Option<int>): seq<Line> {
    if raws == [] then []
    else
      var first := ParseLine(raws[0], toFloat);
      (if first.Some? then [first.value] else []) + Lines(raws[1..], toFloat)
  }

  // ----- the meaning: children are the deeper-indented lines

  /** How many of the first lines are indented more than `indent`. */
  function DeeperRun(lines: seq<Line>, indent: int): (n: nat)
    ensures n <= |lines|
  {
    if lines == [] || lines[0].indent <= indent then 0 else 1 + DeeperRun(lines[1..], indent)
  }

  /** `lines` read into the mapping `acc`: an opening key owns the deeper lines that follow it. */
  function Build(acc: map<string, Yaml>, lines: seq<Line>): map<string, Yaml>
    decreases |lines|
  {
    if lines == [] then acc
    else
      var l := lines[0];
      match l.value
      case Plain(v) => Build(acc[l.key := Leaf(v)], lines[1..])
      case Opens =>
        var n := DeeperRun(lines[1..], l.indent);
        Build(acc[l.key := Map(Build(map[], lines[1..1 + n]))], lines[1 + n..])
  }

  function Load(raws: seq<string>, toFloat: string -> Option<int>): map<string, Yaml> {
    Build(map[], Lines(raws, toFloat))
  }

  // ----- the stack machine on values

  /** An open mapping: its line's indent, its key in the mapping below, and its entries so far. */
  datatype Frame = Frame(indent: int, key: string, m: map<string, Yaml>)

  const ROOT_FRAME := Frame(-1, "", map[])

  /** Indents grow from the root's -1, and every open mapping is an entry of the one below. */
  predicate IsStack(frames: seq<Frame>) {
    && |frames| > 0 && frames[0].indent == -1
    && (forall i, j :: 0 <= i < j < |frames| ==> frames[i].indent < frames[j].indent)
    && (forall i :: 0 < i < |frames| ==> frames[i].key in frames[i - 1].m)
  }

  /** The top mapping is complete: it becomes the value of its key in the mapping below. */
  function Close(frames: seq<Frame>): seq<Frame>
    requires |frames| > 1
  {
    var top := frames[|frames| - 1];
    var below := frames[|frames| - 2];
    frames[..|frames| - 2] + [below.(m := below.m[top.key := Map(top.m)])]
  }

  function PopTo(frames: seq<Frame>, indent: nat): (r: seq<Frame>)
    requires |frames| > 0
    ensures |r| > 0
    decreases |frames|
  {
    if |frames| > 1 && indent <= frames[|frames| - 1].indent then PopTo(Close(frames), indent) else frames
  }

  function Put(frames: seq<Frame>, l: Line): seq<Frame>
    requires |frames| > 0
  {
    var top := frames[|frames| - 1];
    match l.value
    case Plain(v) => frames[..|frames| - 1] + [top.(m := top.m[l.key := Leaf(v)])]
    case Opens => frames[..|frames| - 1] + [top.(m := top.m[l.key := Map(map[])]), Frame(l.indent, l.key, map[])]
  }

  /** What one accepted line does to the stack. */
  function StackStep(frames: seq<Frame>, l: Line): seq<Frame>
    requires |frames| > 0
  {
    Put(PopTo(frames, l.indent), l)
  }

  function Collapse(frames: seq<Frame>): map<string, Yaml>
    requires |frames| > 0
    decreases |frames|
  {
    if |frames| == 1 then frames[0].m else Collapse(Close(frames))
  }

  /** The mapping that results when `lines` are still to be read into the open mappings `frames`. */
  function Meaning(frames: seq<Frame>, lines: seq<Line>): map<string, Yaml>
    requires |frames| > 0
    decreases |frames|
  {
    var top := frames[|frames| - 1];
    if |frames| == 1 then Build(top.m, lines)
    else
      var n := DeeperRun(lines, top.indent);
      var full := frames[..|frames| - 1] + [top.(m := Build(top.m, lines[..n]))];
      Meaning(Close(full), lines[n..])
  }

  lemma CloseIsStack(frames: seq<Frame>)
    requires IsStack(frames) && |frames| > 1
    ensures IsStack(Close(frames)) && |Close(frames)| == |frames| - 1
    ensures forall i :: 0 <= i < |frames| - 1 ==>
            Close(frames)[i].indent == frames[i].indent && Close(frames)[i].key == frames[i].key
    ensures forall i :: 0 <= i < |frames| - 2 ==> Close(frames)[i] == frames[i]
  {}

  lemma {:induction false} PopToIsStack(frames: seq<Frame>, indent: nat)
    requires IsStack(frames)
    ensures IsStack(PopTo(frames, indent))
    ensures var r := PopTo(frames, indent); r[|r| - 1].indent < indent
    decreases |frames|
  {
    if |frames| > 1 && indent <= frames[|frames| - 1].indent {
      CloseIsStack(frames);
      PopToIsStack(Close(frames), indent);
    }
  }

  /** The root is never popped and the stack stays a path of nested open mappings. */
  lemma StackStepIsStack(frames: seq<Frame>, l: Line)
    requires IsStack(frames)
    ensures IsStack(StackStep(frames, l))
  {
    PopToIsStack(frames, l.indent);
  }

  /** A deeper run inside a run stops where the run stops at the latest. */
  lemma {:induction false} DeeperRunInside(lines: seq<Line>, outer: int, inner: int)
    requires outer < inner
    ensures var n := DeeperRun(lines, outer);
            DeeperRun(lines[..n], inner) == DeeperRun(lines, inner) <= n
  {
    if lines != [] && lines[0].indent > outer {
      var n := DeeperRun(lines, outer);
      assert lines[..n][1..] == lines[1..][..n - 1];
      DeeperRunInside(lines[1..], outer, inner);
    }
  }

  lemma {:induction false} DeeperRunDrop(lines: seq<Line>, outer: int, k: nat)
    requires k <= DeeperRun(lines, outer)
    ensures DeeperRun(lines[k..], outer) == DeeperRun(lines, outer) - k
  {
    if k > 0 {
      assert lines[k..] == lines[1..][k - 1..];
      DeeperRunDrop(lines[1..], outer, k - 1);
    } else {
      assert lines[0..] == lines;
    }
  }

  lemma MeaningPop(frames: seq<Frame>, lines: seq<Line>)
    requires |frames| > 1 && lines != [] && lines[0].indent <= frames[|frames| - 1].indent
    ensures Meaning(frames, lines) == Meaning(Close(frames), lines)
  {
    var top := frames[|frames| - 1];
    assert frames[..|frames| - 1] + [top] == frames;
  }

  lemma {:induction false} MeaningPopTo(frames: seq<Frame>, lines: seq<Line>)
    requires |frames| > 0 && lines != []
    ensures Meaning(PopTo(frames, lines[0].indent), lines) == Meaning(frames, lines)
    decreases |frames|
  {
    if |frames| > 1 && lines[0].indent <= frames[|frames| - 1].indent {
      MeaningPop(frames, lines);
      MeaningPopTo(Close(frames), lines);
    }
  }

  lemma MeaningPlain(frames: seq<Frame>, l: Line, rest: seq<Line>)
    requires |frames| > 0 && l.value.Plain? && frames[|frames| - 1].indent < l.indent
    ensures Meaning(Put(frames, l), rest) == Meaning(frames, [l] + rest)
  {
    var top := frames[|frames| - 1];
    var lines := [l] + rest;
    assert lines[1..] == rest;
    if |frames| > 1 {
      var n := DeeperRun(lines, top.indent);
      assert lines[..n][1..] == rest[..n - 1];
      assert lines[n..] == rest[n - 1..];
      var put := Put(frames, l);
      assert put[..|put| - 1] == frames[..|frames| - 1];
    }
  }

  /** Reading on after an opening line is reading its block, then the rest of the mapping it is in. */
  lemma BuildOpens(m: map<string, Yaml>, l: Line, rest: seq<Line>)
    requires l.value.Opens?
    ensures var q := DeeperRun(rest, l.indent);
            Build(m, [l] + rest) == Build(m[l.key := Map(Build(map[], rest[..q]))], rest[q..])
  {
    var lines := [l] + rest;
    var q := DeeperRun(rest, l.indent);
    assert lines[1..] == rest && lines[1..1 + q] == rest[..q] && lines[1 + q..] == rest[q..];
  }

  /** A freshly opened mapping takes its block and is closed again. */
  lemma MeaningFresh(frames: seq<Frame>, l: Line, rest: seq<Line>)
    requires |frames| > 0 && l.value.Opens?
    ensures var top := frames[|frames| - 1];
            var q := DeeperRun(rest, l.indent);
            var filled := top.(m := top.m[l.key := Map(Build(map[], rest[..q]))]);
            Meaning(Put(frames, l), rest) == Meaning(frames[..|frames| - 1] + [filled], rest[q..])
  {
    var top := frames[|frames| - 1];
    var q := DeeperRun(rest, l.indent);
    var block := Build(map[], rest[..q]);
    var put := Put(frames, l);
    var full := put[..|put| - 1] + [Frame(l.indent, l.key, block)];
    assert put[|put| - 1].(m := block) == Frame(l.indent, l.key, block);
    assert top.m[l.key := Map(map[])][l.key := Map(block)] == top.m[l.key := Map(block)];
    assert Close(full) == frames[..|frames| - 1] + [top.(m := top.m[l.key := Map(block)])];
  }

  /** The stack with `m` as the contents of its top mapping. */
  function WithTop(frames: seq<Frame>, m: map<string, Yaml>): (r: seq<Frame>)
    requires |frames| > 0
    ensures |r| == |frames|
  {
    frames[..|frames| - 1] + [frames[|frames| - 1].(m := m)]
  }

  lemma MeaningTop(frames: seq<Frame>, m: map<string, Yaml>, lines: seq<Line>)
    requires |frames| > 1
    ensures var n := DeeperRun(lines, frames[|frames| - 1].indent);
            Meaning(WithTop(frames, m), lines) == Meaning(Close(WithTop(frames, Build(m, lines[..n]))), lines[n..])
  {
    var a := WithTop(frames, m);
    var n := DeeperRun(lines, frames[|frames| - 1].indent);
    assert a[..|a| - 1] + [a[|a| - 1].(m := Build(m, lines[..n]))] == WithTop(frames, Build(m, lines[..n]));
  }

  /** The run an open mapping owns, seen before and after a nested block at its front. */
  lemma BuildNested(m: map<string, Yaml>, l: Line, rest: seq<Line>, indent: int)
    requires l.value.Opens? && indent < l.indent
    ensures var lines := [l] + rest;
            var n := DeeperRun(rest, indent);
            var q := DeeperRun(rest, l.indent);
            && DeeperRun(lines, indent) == 1 + n
            && DeeperRun(rest[q..], indent) == n - q
            && Build(m, lines[..1 + n]) == Build(m[l.key := Map(Build(map[], rest[..q]))], rest[q..][..n - q])
            && lines[1 + n..] == rest[q..][n - q..]
  {
    var lines := [l] + rest;
    var n := DeeperRun(rest, indent);
    var q := DeeperRun(rest, l.indent);
    assert lines[1..] == rest;
    DeeperRunInside(rest, indent, l.indent);
    DeeperRunDrop(rest, indent, q);
    hide Build;
    BuildOpens(m, l, rest[..n]);
    assert lines[..1 + n] == [l] + rest[..n];
    assert rest[..n][..q] == rest[..q] && rest[..n][q..] == rest[q..][..n - q];
  }

  lemma MeaningOpensNested(frames: seq<Frame>, l: Line, rest: seq<Line>)
    requires |frames| > 1 && l.value.Opens? && frames[|frames| - 1].indent < l.indent
    ensures var q := DeeperRun(rest, l.indent);
            var m := frames[|frames| - 1].m[l.key := Map(Build(map[], rest[..q]))];
            Meaning(WithTop(frames, m), rest[q..]) == Meaning(frames, [l] + rest)
  {
    var top := frames[|frames| - 1];
    var q := DeeperRun(rest, l.indent);
    var m := top.m[l.key := Map(Build(map[], rest[..q]))];
    assert WithTop(frames, top.m) == frames;
    hide Meaning, Build, Close, WithTop, DeeperRun;
    BuildNested(top.m, l, rest, top.indent);
    MeaningTop(frames, m, rest[q..]);
    MeaningTop(frames, top.m, [l] + rest);
  }

  lemma MeaningOpens(frames: seq<Frame>, l: Line, rest: seq<Line>)
    requires |frames| > 0 && l.value.Opens? && frames[|frames| - 1].indent < l.indent
    ensures Meaning(Put(frames, l), rest) == Meaning(frames, [l] + rest)
  {
    MeaningFresh(frames, l, rest);
    if |frames| == 1 {
      BuildOpens(frames[0].m, l, rest);
    } else {
      hide Meaning, Build, Put, DeeperRun;
      MeaningOpensNested(frames, l, rest);
    }
  }

  /** Reading one line into the stack leaves the meaning of the whole text as it was. */
  lemma StepKeepsMeaning(frames: seq<Frame>, lines: seq<Line>)
    requires IsStack(frames) && lines != []
    ensures Meaning(StackStep(frames, lines[0]), lines[1..]) == Meaning(frames, lines)
  {
    hide Meaning, Put, PopTo;
    var l := lines[0];
    var popped := PopTo(frames, l.indent);
    MeaningPopTo(frames, lines);
    PopToIsStack(frames, l.indent);
    assert [l] + lines[1..] == lines;
    if l.value.Plain? {
      MeaningPlain(popped, l, lines[1..]);
    } else {
      MeaningOpens(popped, l, lines[1..]);
    }
  }

  /** At the end of the text the stack means what closing all its mappings yields. */
  lemma {:induction false} MeaningAtEnd(frames: seq<Frame>)
    requires |frames| > 0
    ensures Meaning(frames, []) == Collapse(frames)
    decreases |frames|
  {
    if |frames| > 1 {
      var top := frames[|frames| - 1];
      assert frames[..|frames| - 1] + [top] == frames;
      MeaningAtEnd(Close(frames));
    }
  }

  function StackRun(frames: seq<Frame>, lines: seq<Line>): (r: seq<Frame>)
    requires |frames| > 0
    ensures |r| > 0
    decreases |lines|
  {
    if lines == [] then frames else StackRun(StackStep(frames, lines[0]), lines[1..])
  }

  /** The stack machine refines the recursive meaning, for every list of lines. */
  lemma {:induction false} StackRefinesMeaning(frames: seq<Frame>, lines: seq<Line>)
    requires IsStack(frames)
    ensures Collapse(StackRun(frames, lines)) == Meaning(frames, lines)
    ensures IsStack(StackRun(frames, lines))
    decreases |lines|
  {
    if lines == [] {
      MeaningAtEnd(frames);
    } else {
      StackStepIsStack(frames, lines[0]);
      StepKeepsMeaning(frames, lines);
      StackRefinesMeaning(StackStep(frames, lines[0]), lines[1..]);
    }
  }
}
