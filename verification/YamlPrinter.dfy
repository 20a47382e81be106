/** Printing nested mappings in the YAML subset, and reading them back. */
module YamlPrinter {
  import opened Text
  import opened IndentYaml

  /** A nested mapping in the order in which its entries are printed. */
  datatype Doc = Nil | Entry(key: string, v: Scalar, rest: Doc) | Nested(key: string, children: Doc, rest: Doc)

  function ToMap(doc: Doc, acc: map<string, Yaml>): map<string, Yaml> {
    match doc
    case Nil => acc
    case Entry(key, v, rest) => ToMap(rest, acc[key := Leaf(v)])
    case Nested(key, children, rest) => ToMap(rest, acc[key := Map(ToMap(children, map[]))])
  }

  /** The keys that survive a line: trimmed, without a colon, and not taken for a comment or a list item. */
  predicate KeyOk(key: string) {
    Trimmed(key) && ':' !in key && !("#" <= key) && !("- " <= key)
  }

  predicate Printable(doc: Doc) {
    match doc
    case Nil => true
    case Entry(key, v, rest) => KeyOk(key) && !v.Float? && Printable(rest)
    case Nested(key, children, rest) => KeyOk(key) && Printable(children) && Printable(rest)
  }

  // ----- scalars

  function DigitChar(d: nat): char
    requires d < 10
  {
    (d + '0' as int) as char
  }

  function Decimal(n: nat): string {
    if n < 10 then [DigitChar(n)] else Decimal(n / 10) + [DigitChar(n % 10)]
  }

  function PrintInt(n: int): string {
    if n < 0 then "-" + Decimal(-n) else Decimal(n)
  }

  /** A text that reads back as itself is printed as it is, any other is quoted. */
  function PrintScalar(v: Scalar, toFloat: string -> Option<int>): string
    requires !v.Float?
  {
    match v
    case Str(s) => if Trimmed(s) && CoerceText(s, toFloat) == Plain(v) then s else "\"" + s + "\""
    case Bool(b) => if b then "true" else "false"
    case Null => "null"
    case Int(n) => PrintInt(n)
  }

  lemma {:induction false} DecimalDigits(n: nat)
    ensures Decimal(n) != "" && forall i :: 0 <= i < |Decimal(n)| ==> IsDigit(Decimal(n)[i])
    ensures IsDigits(Decimal(n)) && DigitsValue(Decimal(n)) == n
  {
    var s := Decimal(n);
    if n < 10 {
      assert s[..0] == "";
    } else {
      DecimalDigits(n / 10);
      assert s[..|s| - 1] == Decimal(n / 10);
    }
  }

  predicate IsNumberChar(c: char) {
    c == '-' || IsDigit(c)
  }

  /** A text of digits and minus signs is none of the special words. */
  lemma NumberTextCoerces(s: string, toFloat: string -> Option<int>)
    requires s != "" && forall i :: 0 <= i < |s| ==> IsNumberChar(s[i])
    ensures ParseInt(s).Some? ==> CoerceText(s, toFloat) == Plain(Int(ParseInt(s).value))
  {
    hide ParseInt;
    assert IsNumberChar(s[0]);
    assert ToLower(s)[0] == s[0];
    assert '.' !in s by {
      assert forall i :: 0 <= i < |s| ==> s[i] != '.';
    }
  }

  lemma IntParses(n: int)
    ensures ParseInt(PrintInt(n)) == Some(n)
    ensures PrintInt(n) != "" && forall i :: 0 <= i < |PrintInt(n)| ==> IsNumberChar(PrintInt(n)[i])
  {
    var s := PrintInt(n);
    var digits := Decimal(if n < 0 then -n else n);
    DecimalDigits(if n < 0 then -n else n);
    hide DigitsValue, Decimal;
    if n < 0 {
      assert s[1..] == digits;
    }
  }

  lemma IntReadsBack(n: int, toFloat: string -> Option<int>)
    ensures CoerceText(PrintInt(n), toFloat) == Plain(Int(n))
    ensures PrintInt(n) != "" && Trimmed(PrintInt(n))
  {
    hide PrintInt, ParseInt, CoerceText;
    IntParses(n);
    NumberTextCoerces(PrintInt(n), toFloat);
    assert IsNumberChar(PrintInt(n)[0]) && IsNumberChar(PrintInt(n)[|PrintInt(n)| - 1]);
  }

  lemma WordsReadBack(b: bool, toFloat: string -> Option<int>)
    ensures CoerceText(if b then "true" else "false", toFloat) == Plain(Bool(b))
    ensures CoerceText("null", toFloat) == Plain(Null)
  {
    assert ToLower("true") == "true";
    assert ToLower("false") == "false";
    assert ToLower("null") == "null";
  }

  lemma QuotedReadsBack(s: string, toFloat: string -> Option<int>)
    ensures CoerceText("\"" + s + "\"", toFloat) == Plain(Str(s))
  {
    var text := "\"" + s + "\"";
    assert text[1..|text| - 1] == s;
    assert text != ">" && text != "|" by { assert text[0] == '"'; }
  }

  /** Every printed scalar is a visible text that coerces back to the scalar. */
  lemma ScalarReadsBack(v: Scalar, toFloat: string -> Option<int>)
    requires !v.Float?
    ensures var text := PrintScalar(v, toFloat);
            text != "" && Trimmed(text) && CoerceText(text, toFloat) == Plain(v)
  {
    match v
    case Str(s) => QuotedReadsBack(s, toFloat);
    case Bool(b) => WordsReadBack(b, toFloat);
    case Null => WordsReadBack(true, toFloat);
    case Int(n) => IntReadsBack(n, toFloat);
  }

  // ----- lines

  /** `tail` is what follows the key's colon: nothing, or a blank and a visible text. */
  predicate IsTail(tail: string) {
    tail == "" || (|tail| > 1 && tail[0] == ' ' && Trimmed(tail[1..]))
  }

  function PrintLine(indent: nat, key: string, tail: string): string {
    Repeat(' ', indent) + (key + [':'] + tail)
  }

  lemma {:induction false} LeadingSpacesPrinted(n: nat, body: string)
    requires body == "" || body[0] != ' '
    ensures LeadingSpaces(Repeat(' ', n) + body) == n
  {
    if n == 0 {
      assert Repeat(' ', 0) + body == body;
    } else {
      assert (Repeat(' ', n) + body)[1..] == Repeat(' ', n - 1) + body;
      LeadingSpacesPrinted(n - 1, body);
    }
  }

  lemma {:induction false} BeforeColonPrinted(key: string, tail: string)
    requires ':' !in key
    ensures BeforeColon(key + [':'] + tail) == key
  {
    var s := key + [':'] + tail;
    if key != "" {
      assert s[1..] == key[1..] + [':'] + tail;
      BeforeColonPrinted(key[1..], tail);
      assert [key[0]] + key[1..] == key;
    }
  }

  lemma BodyStrips(indent: nat, key: string, tail: string)
    requires Trimmed(key) && IsTail(tail)
    ensures var body := key + [':'] + tail;
            LStrip(PrintLine(indent, key, tail)) == body && Strip(PrintLine(indent, key, tail)) == body
  {
    var body := key + [':'] + tail;
    assert body[0] == if key == "" then ':' else key[0];
    LStripPadding(Repeat(' ', indent), body);
    assert body[|body| - 1] == if tail == "" then ':' else tail[1..][|tail| - 2];
    RStripPadding(body, "");
    assert body + "" == body;
  }

  lemma TailCoerces(tail: string, toFloat: string -> Option<int>)
    requires IsTail(tail)
    ensures CoerceScalar(tail, toFloat) == CoerceText(if tail == "" then "" else tail[1..], toFloat)
  {
    if tail != "" {
      assert tail == " " + tail[1..];
      LStripPadding(" ", tail[1..]);
      RStripPadding(tail[1..], "");
      assert tail[1..] + "" == tail[1..];
    }
  }

  /** A printed line is read back as its indent, key and value exactly when the key survives a line. */
  lemma PrintedLineReadsBack(indent: nat, key: string, tail: string, toFloat: string -> Option<int>)
    requires IsTail(tail)
    ensures ParseLine(PrintLine(indent, key, tail), toFloat)
              == Some(Line(indent, key, CoerceText(if tail == "" then "" else tail[1..], toFloat)))
            <==> KeyOk(key)
  {
    var raw := PrintLine(indent, key, tail);
    var body := key + [':'] + tail;
    if Trimmed(key) && ':' !in key {
      BodyStrips(indent, key, tail);
      BeforeColonPrinted(key, tail);
      LeadingSpacesPrinted(indent, body);
      StripOfTrimmed(key);
      TailCoerces(tail, toFloat);
      assert body[|key| + 1..] == tail;
      assert body[|key|] == ':';
      assert "#" <= body <==> "#" <= key;
      assert "- " <= body <==> "- " <= key;
    } else {
      ParsedKeyIsClean(raw, toFloat);
    }
  }

  lemma ParsedKeyIsClean(raw: string, toFloat: string -> Option<int>)
    ensures var l := ParseLine(raw, toFloat); l.Some? ==> Trimmed(l.value.key) && ':' !in l.value.key
  {
    var line := Strip(raw);
    BeforeColonCut(line);
    StripTrims(BeforeColon(line));
  }

  // ----- documents

  function Print(doc: Doc, indent: nat, step: nat, toFloat: string -> Option<int>): seq<string>
    requires Printable(doc)
  {
    match doc
    case Nil => []
    case Entry(key, v, rest) =>
      [PrintLine(indent, key, " " + PrintScalar(v, toFloat))] + Print(rest, indent, step, toFloat)
    case Nested(key, children, rest) =>
      [PrintLine(indent, key, "")] + Print(children, indent + step, step, toFloat) + Print(rest, indent, step, toFloat)
  }

  /** The lines a document is made of. */
  function DocLines(doc: Doc, indent: nat, step: nat): seq<Line> {
    match doc
    case Nil => []
    case Entry(key, v, rest) => [Line(indent, key, Plain(v))] + DocLines(rest, indent, step)
    case Nested(key, children, rest) =>
      [Line(indent, key, Opens)] + DocLines(children, indent + step, step) + DocLines(rest, indent, step)
  }

  lemma {:induction false} LinesConcat(a: seq<string>, b: seq<string>, toFloat: string -> Option<int>)
    ensures Lines(a + b, toFloat) == Lines(a, toFloat) + Lines(b, toFloat)
  {
    hide ParseLine;
    if a == [] {
      assert a + b == b;
    } else {
      assert (a + b)[1..] == a[1..] + b;
      LinesConcat(a[1..], b, toFloat);
    }
  }

  lemma OneLine(raw: string, l: Line, toFloat: string -> Option<int>)
    requires ParseLine(raw, toFloat) == Some(l)
    ensures Lines([raw], toFloat) == [l]
  {
    hide ParseLine;
    assert [raw][1..] == [];
  }

  lemma EntryLine(indent: nat, key: string, v: Scalar, toFloat: string -> Option<int>)
    requires KeyOk(key) && !v.Float?
    ensures Lines([PrintLine(indent, key, " " + PrintScalar(v, toFloat))], toFloat) == [Line(indent, key, Plain(v))]
  {
    hide ParseLine, PrintScalar, CoerceText, PrintLine, Lines, KeyOk;
    ScalarReadsBack(v, toFloat);
    var tail := " " + PrintScalar(v, toFloat);
    assert tail[1..] == PrintScalar(v, toFloat);
    PrintedLineReadsBack(indent, key, tail, toFloat);
    OneLine(PrintLine(indent, key, tail), Line(indent, key, Plain(v)), toFloat);
  }

  lemma NestedLine(indent: nat, key: string, toFloat: string -> Option<int>)
    requires KeyOk(key)
    ensures Lines([PrintLine(indent, key, "")], toFloat) == [Line(indent, key, Opens)]
  {
    PrintedLineReadsBack(indent, key, "", toFloat);
    OneLine(PrintLine(indent, key, ""), Line(indent, key, Opens), toFloat);
  }

  lemma {:induction false} PrintedLines(doc: Doc, indent: nat, step: nat, toFloat: string -> Option<int>)
    requires Printable(doc)
    ensures Lines(Print(doc, indent, step, toFloat), toFloat) == DocLines(doc, indent, step)
  {
    hide PrintLine, Lines, KeyOk, PrintScalar;
    match doc
    case Nil => NoLines(toFloat);
    case Entry(key, v, rest) =>
      EntryLine(indent, key, v, toFloat);
      PrintedLines(rest, indent, step, toFloat);
      LinesConcat([PrintLine(indent, key, " " + PrintScalar(v, toFloat))], Print(rest, indent, step, toFloat), toFloat);
    case Nested(key, children, rest) =>
      NestedLine(indent, key, toFloat);
      PrintedLines(children, indent + step, step, toFloat);
      PrintedLines(rest, indent, step, toFloat);
      var head := [PrintLine(indent, key, "")];
      LinesConcat(head, Print(children, indent + step, step, toFloat), toFloat);
      LinesConcat(head + Print(children, indent + step, step, toFloat), Print(rest, indent, step, toFloat), toFloat);
  }

  lemma NoLines(toFloat: string -> Option<int>)
    ensures Lines([], toFloat) == []
  {}

  lemma {:induction false} DocLinesIndent(doc: Doc, indent: nat, step: nat)
    ensures forall i :: 0 <= i < |DocLines(doc, indent, step)| ==> DocLines(doc, indent, step)[i].indent >= indent
    ensures DocLines(doc, indent, step) != [] ==> DocLines(doc, indent, step)[0].indent == indent
  {
    match doc
    case Nil =>
    case Entry(key, v, rest) => DocLinesIndent(rest, indent, step);
    case Nested(key, children, rest) =>
      DocLinesIndent(children, indent + step, step);
      DocLinesIndent(rest, indent, step);
  }

  lemma {:induction false} RunOf(block: seq<Line>, after: seq<Line>, indent: int)
    requires forall i :: 0 <= i < |block| ==> block[i].indent > indent
    requires after == [] || after[0].indent <= indent
    ensures DeeperRun(block + after, indent) == |block|
  {
    if block == [] {
      assert block + after == after;
    } else {
      assert (block + after)[1..] == block[1..] + after;
      RunOf(block[1..], after, indent);
    }
  }

  /** An opening line takes exactly the deeper block that follows it. */
  lemma BuildBlock(acc: map<string, Yaml>, indent: nat, key: string, block: seq<Line>, after: seq<Line>)
    requires forall i :: 0 <= i < |block| ==> block[i].indent > indent
    requires after == [] || after[0].indent <= indent
    ensures Build(acc, [Line(indent, key, Opens)] + block + after) == Build(acc[key := Map(Build(map[], block))], after)
  {
    hide DeeperRun, Build;
    var head, rest := [Line(indent, key, Opens)], block + after;
    RunOf(block, after, indent);
    assert rest[..|block|] == block && rest[|block|..] == after;
    BuildOpens(acc, Line(indent, key, Opens), rest);
    assert head + rest == head + block + after;
  }

  lemma {:induction false} BuildDoc(acc: map<string, Yaml>, doc: Doc, indent: nat, step: nat)
    requires step > 0
    ensures Build(acc, DocLines(doc, indent, step)) == ToMap(doc, acc)
    decreases doc
  {
    match doc
    case Nil =>
    case Entry(key, v, rest) =>
      assert DocLines(doc, indent, step)[1..] == DocLines(rest, indent, step);
      BuildDoc(acc[key := Leaf(v)], rest, indent, step);
    case Nested(key, children, rest) =>
      hide Build;
      DocLinesIndent(children, indent + step, step);
      DocLinesIndent(rest, indent, step);
      BuildBlock(acc, indent, key, DocLines(children, indent + step, step), DocLines(rest, indent, step));
      BuildDoc(map[], children, indent + step, step);
      BuildDoc(acc[key := Map(ToMap(children, map[]))], rest, indent, step);
  }

  /** Printing any nested mapping, with any indentation, and loading it gives the mapping back. */
  lemma PrintThenLoad(doc: Doc, indent: nat, step: nat, toFloat: string -> Option<int>)
    requires Printable(doc) && step > 0
    ensures Load(Print(doc, indent, step, toFloat), toFloat) == ToMap(doc, map[])
  {
    PrintedLines(doc, indent, step, toFloat);
    BuildDoc(map[], doc, indent, step);
  }

  // ----- whole texts

  /** The loader applied to a text whose lines end in line feeds. */
  function LoadText(text: string, toFloat: string -> Option<int>): map<string, Yaml> {
    Load(Split(text, '\n'), toFloat)
  }

  /** No key and no string of the document contains a line feed. */
  predicate OneLiners(doc: Doc) {
    match doc
    case Nil => true
    case Entry(key, v, rest) => '\n' !in key && (v.Str? ==> '\n' !in v.s) && OneLiners(rest)
    case Nested(key, children, rest) => '\n' !in key && OneLiners(children) && OneLiners(rest)
  }

  lemma ScalarOneLine(v: Scalar, toFloat: string -> Option<int>)
    requires !v.Float? && (v.Str? ==> '\n' !in v.s)
    ensures '\n' !in PrintScalar(v, toFloat)
  {
    if v.Int? {
      IntParses(v.n);
      assert forall c :: c in PrintInt(v.n) ==> IsNumberChar(c);
    }
  }

  lemma {:induction false} PrintedOneLiners(doc: Doc, indent: nat, step: nat, toFloat: string -> Option<int>)
    requires Printable(doc) && OneLiners(doc)
    ensures forall p :: p in Print(doc, indent, step, toFloat) ==> '\n' !in p
  {
    hide PrintScalar, KeyOk;
    match doc
    case Nil =>
    case Entry(key, v, rest) =>
      ScalarOneLine(v, toFloat);
      PrintedOneLiners(rest, indent, step, toFloat);
    case Nested(key, children, rest) =>
      PrintedOneLiners(children, indent + step, step, toFloat);
      PrintedOneLiners(rest, indent, step, toFloat);
  }

  /** The same round trip for the text made of the printed lines. */
  lemma PrintThenLoadText(doc: Doc, indent: nat, step: nat, toFloat: string -> Option<int>)
    requires Printable(doc) && OneLiners(doc) && step > 0
    ensures LoadText(Join(Print(doc, indent, step, toFloat), '\n'), toFloat) == ToMap(doc, map[])
  {
    var lines := Print(doc, indent, step, toFloat);
    PrintThenLoad(doc, indent, step, toFloat);
    if lines == [] {
      assert Split("", '\n')[1..] == [];
      assert Lines([""], toFloat) == Lines([], toFloat);
    } else {
      PrintedOneLiners(doc, indent, step, toFloat);
      SplitOfJoin(lines, '\n');
    }
  }
}
