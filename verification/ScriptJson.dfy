/** Embedding a JSON text in an HTML script element. */
module ScriptJson {
  import opened Text

  /** `str.replace` for a pattern of one character. */
  function Replace(s: string, c: char, patch: string): string {
    if s == "" then "" else (if s[0] == c then patch else [s[0]]) + Replace(s[1..], c, patch)
  }

  function Escape(text: string): string {
    Replace(Replace(Replace(text, '<', "\\u003c"), '>', "\\u003e"), '&', "\\u0026")
  }

  predicate Special(c: char) {
    c == '<' || c == '>' || c == '&'
  }

  /** The replacement of one character. */
  function EscapeChar(c: char): string {
    if c == '<' then "\\u003c" else if c == '>' then "\\u003e" else if c == '&' then "\\u0026" else [c]
  }

  function EscapeEach(text: string): string {
    if text == "" then "" else EscapeChar(text[0]) + EscapeEach(text[1..])
  }

  lemma {:induction false} ReplaceConcat(a: string, b: string, c: char, patch: string)
    ensures Replace(a + b, c, patch) == Replace(a, c, patch) + Replace(b, c, patch)
  {
    if a == "" {
      assert a + b == b;
    } else {
      assert (a + b)[1..] == a[1..] + b;
      ReplaceConcat(a[1..], b, c, patch);
    }
  }

  lemma {:induction false} ReplaceAbsent(s: string, c: char, patch: string)
    requires c !in s
    ensures Replace(s, c, patch) == s
  {
    if s != "" {
      ReplaceAbsent(s[1..], c, patch);
    }
  }

  lemma {:induction false} ReplaceOne(c: char, d: char, patch: string)
    ensures Replace([c], d, patch) == if c == d then patch else [c]
  {
    assert [c][1..] == "";
  }

  lemma EscapeOne(c: char)
    ensures Escape([c]) == EscapeChar(c)
  {
    var lt, gt, amp := "\\u003c", "\\u003e", "\\u0026";
    ReplaceOne(c, '<', lt);
    if c == '<' {
      ReplaceAbsent(lt, '>', gt);
      ReplaceAbsent(lt, '&', amp);
    } else {
      ReplaceOne(c, '>', gt);
      if c == '>' {
        ReplaceAbsent(gt, '&', amp);
      } else {
        ReplaceOne(c, '&', amp);
      }
    }
  }

  lemma EscapeConcat(a: string, b: string)
    ensures Escape(a + b) == Escape(a) + Escape(b)
  {
    hide Replace;
    var lt, gt, amp := "\\u003c", "\\u003e", "\\u0026";
    ReplaceConcat(a, b, '<', lt);
    ReplaceConcat(Replace(a, '<', lt), Replace(b, '<', lt), '>', gt);
    ReplaceConcat(Replace(Replace(a, '<', lt), '>', gt), Replace(Replace(b, '<', lt), '>', gt), '&', amp);
  }

  /** The three replacements do not disturb each other. */
  lemma {:induction false} EscapeIsPerCharacter(text: string)
    ensures Escape(text) == EscapeEach(text)
  {
    if text != "" {
      assert [text[0]] + text[1..] == text;
      EscapeConcat([text[0]], text[1..]);
      EscapeOne(text[0]);
      hide Escape, EscapeChar;
      EscapeIsPerCharacter(text[1..]);
    }
  }

  /** No character that could open or close an element or an entity is left. */
  lemma {:induction false} EscapedIsInert(text: string)
    ensures forall c :: c in Escape(text) ==> !Special(c)
  {
    EscapeIsPerCharacter(text);
    hide Escape;
    if text != "" {
      EscapedIsInert(text[1..]);
      EscapeIsPerCharacter(text[1..]);
      CharInert(text[0]);
      hide EscapeChar, Special;
      assert EscapeEach(text) == EscapeChar(text[0]) + EscapeEach(text[1..]);
    }
  }

  lemma CharInert(c: char)
    ensures forall d :: d in EscapeChar(c) ==> !Special(d)
  {
    var lt, gt, amp := "\\u003c", "\\u003e", "\\u0026";
    assert forall i :: 0 <= i < 6 ==> !Special(lt[i]) && !Special(gt[i]) && !Special(amp[i]);
  }

  // ----- string literals, section 7 of RFC 8259

  /** A character outside string literals, or a literal with the UTF-16 code units it stands for. */
  datatype Token = Outside(c: char) | Literal(units: seq<int>)

  function HexValue(c: char): int {
    if '0' <= c <= '9' then c as int - '0' as int
    else if 'a' <= c <= 'f' then c as int - 'a' as int + 10
    else if 'A' <= c <= 'F' then c as int - 'A' as int + 10
    else -1
  }

  /** The code unit of a two-character escape, by the character after the backslash. */
  function SimpleEscape(c: char): int {
    match c
    case '\"' => 0x22
    case '\\' => 0x5c
    case '/' => 0x2f
    case 'b' => 0x08
    case 'f' => 0x0c
    case 'n' => 0x0a
    case 'r' => 0x0d
    case 't' => 0x09
    case _ => -1
  }

  predicate IsHex(s: string) {
    forall i :: 0 <= i < |s| ==> HexValue(s[i]) >= 0
  }

  /** The code unit that a literal's text starts with and how many characters it takes, or none. */
  function Unit(s: string): Option<(int, nat)>
    ensures Unit(s).Some? ==> 0 < Unit(s).value.1 <= |s|
  {
    if s == "" || s[0] == '\"' || s[0] < ' ' then None
    else if s[0] != '\\' then Some((s[0] as int, 1))
    else if |s| >= 2 && SimpleEscape(s[1]) >= 0 then Some((SimpleEscape(s[1]), 2))
    else if |s| >= 6 && s[1] == 'u' && IsHex(s[2..6]) then
      Some((((HexValue(s[2]) * 16 + HexValue(s[3])) * 16 + HexValue(s[4])) * 16 + HexValue(s[5]), 6))
    else None
  }

  /** The tokens of a JSON text; inside a literal, `open` holds the units read so far. */
  function Lex(s: string, open: Option<seq<int>>): Option<seq<Token>>
    decreases |s|
  {
    match open
    case None =>
      if s == "" then Some([])
      else if s[0] == '\"' then Lex(s[1..], Some([]))
      else
        var rest := Lex(s[1..], None);
        if rest.None? then None else Some([Outside(s[0])] + rest.value)
    case Some(units) =>
      if s == "" then None
      else if s[0] == '\"' then
        var rest := Lex(s[1..], None);
        if rest.None? then None else Some([Literal(units)] + rest.value)
      else
        var u := Unit(s);
        if u.None? then None else Lex(s[u.value.1..], Some(units + [u.value.0]))
  }

  /** JSON has no use for the special characters outside string literals. */
  predicate SpecialsInLiterals(tokens: seq<Token>) {
    forall t :: t in tokens && t.Outside? ==> !Special(t.c)
  }

  lemma {:induction false} EscapeEachConcat(a: string, b: string)
    ensures EscapeEach(a + b) == EscapeEach(a) + EscapeEach(b)
  {
    hide EscapeChar;
    if a == "" {
      assert a + b == b;
    } else {
      assert (a + b)[1..] == a[1..] + b;
      EscapeEachConcat(a[1..], b);
    }
  }

  lemma {:induction false} EscapeEachPlain(s: string)
    requires forall c :: c in s ==> !Special(c)
    ensures EscapeEach(s) == s
  {
    if s != "" {
      assert s[0] in s;
      EscapeEachPlain(s[1..]);
    }
  }

  lemma SpecialUnit(c: char, rest: string)
    requires Special(c)
    ensures Unit(EscapeChar(c) + rest) == Some((c as int, 6))
  {
    var e := EscapeChar(c);
    var s := e + rest;
    assert s[..6] == e;
    assert s[0] == '\\' && s[1] == 'u' && s[2] == '0' && s[3] == '0';
    assert s[4] == e[4] && s[5] == e[5];
    assert IsHex(s[2..6]);
  }

  /** What a unit is depends on the characters it takes only. */
  lemma UnitLocal(s: string, rest: string)
    requires Unit(s).Some?
    ensures Unit(s[..Unit(s).value.1] + rest) == Unit(s)
  {
    var n := Unit(s).value.1;
    var s' := s[..n] + rest;
    assert forall i :: 0 <= i < n ==> s'[i] == s[i];
    if n == 6 {
      assert s'[2..6] == s[2..6];
    }
  }

  lemma EscapePlain(s: string)
    requires Unit(s).Some? && s[0] == '\\'
    ensures forall c :: c in s[..Unit(s).value.1] ==> !Special(c)
  {
    var n := Unit(s).value.1;
    if n == 6 {
      assert forall i :: 2 <= i < 6 ==> s[i] == s[2..6][i - 2] && HexValue(s[i]) >= 0;
    }
  }

  /** Escaping turns the first unit of a literal's text into one for the same code unit. */
  lemma UnitKept(s: string)
    requires Unit(s).Some?
    ensures var n := Unit(s).value.1;
            var e := EscapeEach(s[..n]);
            && EscapeEach(s) == e + EscapeEach(s[n..])
            && Unit(e + EscapeEach(s[n..])) == Some((Unit(s).value.0, |e|))
            && 0 < |e| && e[0] != '\"'
  {
    var n := Unit(s).value.1;
    var rest := EscapeEach(s[n..]);
    assert s[..n] + s[n..] == s;
    EscapeEachConcat(s[..n], s[n..]);
    if Special(s[0]) {
      assert s[..1][1..] == "";
      assert EscapeEach(s[..1]) == EscapeChar(s[0]);
      SpecialUnit(s[0], rest);
    } else {
      if s[0] == '\\' {
        EscapePlain(s);
      }
      EscapeEachPlain(s[..n]);
      UnitLocal(s, rest);
    }
  }

  /** Every string literal decodes to the same characters after escaping, and nothing else changes. */
  lemma {:induction false} EscapeKeepsTokens(s: string, open: Option<seq<int>>)
    requires Lex(s, open).Some? && SpecialsInLiterals(Lex(s, open).value)
    ensures Lex(EscapeEach(s), open) == Lex(s, open)
    decreases |s|
  {
    assert !Special('\"');
    hide Unit, EscapeChar, Special;
    if s != "" {
      var e := EscapeEach(s);
      if s[0] == '\"' {
        PlainStart(s);
        EscapeKeepsTokens(s[1..], if open.None? then Some([]) else None);
      } else if open.None? {
        assert Outside(s[0]) in Lex(s, open).value;
        PlainStart(s);
        EscapeKeepsTokens(s[1..], None);
      } else {
        var u := Unit(s).value;
        UnitKept(s);
        var first := EscapeEach(s[..u.1]);
        assert e[|first|..] == EscapeEach(s[u.1..]);
        EscapeKeepsTokens(s[u.1..], Some(open.value + [u.0]));
      }
    }
  }

  lemma PlainStart(s: string)
    requires s != "" && !Special(s[0])
    ensures var e := EscapeEach(s); e != "" && e[0] == s[0] && e[1..] == EscapeEach(s[1..])
  {}

  /** For every JSON text, the escaped text reads as the same tokens. */
  lemma EscapedReadsTheSame(text: string)
    requires Lex(text, None).Some? && SpecialsInLiterals(Lex(text, None).value)
    ensures Lex(Escape(text), None) == Lex(text, None)
  {
    EscapeIsPerCharacter(text);
    EscapeKeepsTokens(text, None);
  }

  // ----- printed string literals read back

  type CodeUnit = u: int | 0 <= u < 0x1_0000

  const HEX: string := "0123456789abcdef"

  /** Each hexadecimal digit, small or capital, stands for its place; no other character is one. */
  lemma HexExactly(c: char, v: nat)
    requires v < 16
    ensures HexValue(c) == v <==> c == HEX[v] || c == "0123456789ABCDEF"[v]
    ensures HexValue(c) < 16
  {}

  /** The two-character escapes and what they stand for. */
  lemma SimpleExactly(c: char, u: nat)
    ensures SimpleEscape(c) == u <==>
            || (c == '\"' && u == '\"' as int) || (c == '\\' && u == '\\' as int) || (c == '/' && u == '/' as int)
            || (c == 'b' && u == 8) || (c == 't' && u == 9) || (c == 'n' && u == 10)
            || (c == 'f' && u == 12) || (c == 'r' && u == 13)
  {}

  function HexChar(v: nat): char
    requires v < 16
  {
    HEX[v]
  }

  function Hex4(u: CodeUnit): string {
    [HexChar(u / 0x1000), HexChar(u / 0x100 % 16), HexChar(u / 16 % 16), HexChar(u % 16)]
  }

  /** How the JSON printer writes a code unit inside a literal: everything beyond printable ASCII is escaped. */
  function PrintUnit(u: CodeUnit): string {
    if u == 0x22 then "\\\""
    else if u == 0x5c then "\\\\"
    else if u == 0x0a then "\\n"
    else if u == 0x0d then "\\r"
    else if u == 0x09 then "\\t"
    else if u == 0x0c then "\\f"
    else if u == 0x08 then "\\b"
    else if 0x20 <= u < 0x7f then [u as char]
    else "\\u" + Hex4(u)
  }

  function PrintUnits(units: seq<CodeUnit>): string {
    if units == [] then "" else PrintUnit(units[0]) + PrintUnits(units[1..])
  }

  function PrintLiteral(units: seq<CodeUnit>): string {
    "\"" + PrintUnits(units) + "\""
  }

  lemma HexSum(u: CodeUnit)
    ensures u == ((u / 0x1000 * 16 + u / 0x100 % 16) * 16 + u / 16 % 16) * 16 + u % 16
  {
    assert u / 16 == u / 0x100 * 16 + u / 16 % 16;
    assert u / 0x100 == u / 0x1000 * 16 + u / 0x100 % 16;
  }

  lemma HexCharReads(v: nat)
    requires v < 16
    ensures HexValue(HexChar(v)) == v
  {
    HexExactly(HexChar(v), v);
  }

  /** An escape by its four digits. */
  lemma HexReadsBack(a: nat, b: nat, c: nat, d: nat, rest: string)
    requires a < 16 && b < 16 && c < 16 && d < 16
    ensures Unit("\\u" + [HexChar(a), HexChar(b), HexChar(c), HexChar(d)] + rest)
            == Some((((a * 16 + b) * 16 + c) * 16 + d, 6))
  {
    hide HexValue, HexChar;
    HexCharReads(a);
    HexCharReads(b);
    HexCharReads(c);
    HexCharReads(d);
    var h := [HexChar(a), HexChar(b), HexChar(c), HexChar(d)];
    var s := "\\u" + h + rest;
    assert s[2..6] == h;
    assert s[0] == '\\' && s[1] == 'u' && SimpleEscape('u') == -1;
  }

  lemma SimpleReadsBack(c: char, rest: string)
    requires SimpleEscape(c) >= 0
    ensures Unit("\\" + [c] + rest) == Some((SimpleEscape(c), 2))
  {
    hide HexValue, SimpleEscape;
    var s := "\\" + [c] + rest;
    assert s[0] == '\\' && s[1] == c;
  }

  lemma PlainReadsBack(c: char, rest: string)
    requires c >= ' ' && c != '\\' && c != '\"'
    ensures Unit([c] + rest) == Some((c as int, 1))
  {}

  lemma UnitReadsBack(u: CodeUnit, rest: string)
    ensures Unit(PrintUnit(u) + rest) == Some((u, |PrintUnit(u)|))
    ensures PrintUnit(u) != "" && PrintUnit(u)[0] != '\"'
  {
    hide Unit, HexChar, SimpleEscape;
    if u in {0x22, 0x5c, 0x0a, 0x0d, 0x09, 0x0c, 0x08} {
      assert PrintUnit(u) == "\\" + [PrintUnit(u)[1]];
      SimpleExactly(PrintUnit(u)[1], u);
      SimpleReadsBack(PrintUnit(u)[1], rest);
    } else if 0x20 <= u < 0x7f {
      PlainReadsBack(u as char, rest);
    } else {
      HexSum(u);
      HexReadsBack(u / 0x1000, u / 0x100 % 16, u / 16 % 16, u % 16, rest);
    }
  }

  lemma {:induction false} LiteralLexes(units: seq<CodeUnit>, read: seq<int>, rest: string)
    ensures Lex(PrintUnits(units) + "\"" + rest, Some(read))
            == match Lex(rest, None)
               case None => None
               case Some(tokens) => Some([Literal(read + units)] + tokens)
  {
    hide Unit, PrintUnit;
    var s := PrintUnits(units) + "\"" + rest;
    if units == [] {
      assert s[0] == '\"' && s[1..] == rest && read + units == read;
    } else {
      var first, later := PrintUnit(units[0]), PrintUnits(units[1..]) + "\"" + rest;
      assert s == first + later;
      UnitReadsBack(units[0], later);
      assert s[0] == first[0] && s[|first|..] == later;
      LiteralLexes(units[1..], read + [units[0]], rest);
      assert read + [units[0]] + units[1..] == read + units;
    }
  }

  /** A printed literal reads as the code units it was printed from, whatever follows it. */
  lemma PrintedReadsBack(units: seq<CodeUnit>, rest: string)
    ensures Lex(PrintLiteral(units) + rest, None)
            == match Lex(rest, None)
               case None => None
               case Some(tokens) => Some([Literal(units)] + tokens)
  {
    var s := PrintLiteral(units) + rest;
    assert s[0] == '\"' && s[1..] == PrintUnits(units) + "\"" + rest;
    LiteralLexes(units, [], rest);
    assert [] + units == units;
  }

  /** A literal that is not closed cannot be read. */
  lemma {:induction false} UnclosedFails(units: seq<CodeUnit>, read: seq<int>)
    ensures Lex(PrintUnits(units), Some(read)) == None
  {
    hide Unit, PrintUnit;
    if units != [] {
      var s, first, later := PrintUnits(units), PrintUnit(units[0]), PrintUnits(units[1..]);
      UnitReadsBack(units[0], later);
      assert s[0] == first[0] && s[|first|..] == later;
      UnclosedFails(units[1..], read + [units[0]]);
    }
  }

  /** Raw control characters cannot stand in a literal. */
  lemma ControlFails(c: char, rest: string)
    ensures Unit([c] + rest) == None <== c < ' '
    ensures Lex("\"" + [c] + rest, None) == None <== c < ' '
  {
    var s := "\"" + [c] + rest;
    assert s[1..] == [c] + rest && s[0] == '\"';
    hide HexValue, SimpleEscape;
    assert ([c] + rest)[0] == c;
  }

  /** Outside literals every character is a token of its own. */
  lemma {:induction false} OutsideReads(s: string)
    requires '\"' !in s
    ensures var tokens := Lex(s, None);
            tokens.Some? && |tokens.value| == |s| && forall i :: 0 <= i < |s| ==> tokens.value[i] == Outside(s[i])
  {
    if s != "" {
      assert s[0] in s && forall c :: c in s[1..] ==> c in s;
      OutsideReads(s[1..]);
      assert Lex(s, None).value == [Outside(s[0])] + Lex(s[1..], None).value;
    }
  }

  /** Any text put into the script as a JSON string is read by the browser as it was. */
  lemma EmbeddedReadsBack(units: seq<CodeUnit>)
    ensures Lex(Escape(PrintLiteral(units)), None) == Some([Literal(units)])
    ensures forall c :: c in Escape(PrintLiteral(units)) ==> !Special(c)
  {
    hide Escape;
    OutsideReads("");
    PrintedReadsBack(units, "");
    assert [Literal(units)] + [] == [Literal(units)];
    assert PrintLiteral(units) + "" == PrintLiteral(units);
    EscapedReadsTheSame(PrintLiteral(units));
    EscapedIsInert(PrintLiteral(units));
  }
}
