/** What each line and each value text of the YAML subset stands for, told from the text alone. */
module YamlTexts {
  import opened Text
  import opened IndentYaml
  import opened YamlPrinter

  /** `s` is the word in any mixture of small and capital letters. */
  predicate Spells(s: string, small: string, capital: string)
    requires |small| == |capital|
  {
    |s| == |small| && forall i :: 0 <= i < |s| ==> s[i] == small[i] || s[i] == capital[i]
  }

  /** The text begins and ends with the same kind of quotation mark, which may be one and the same. */
  predicate InQuotes(t: string) {
    t != "" && t[0] == t[|t| - 1] && t[0] in ['"', '\'']
  }

  /** What stands between the quotation marks. */
  function Inner(t: string): string
    requires InQuotes(t)
  {
    if |t| == 1 then "" else t[1..|t| - 1]
  }

  const DIGITS: string := "0123456789"

  /** A run of digits that may be empty. */
  predicate AllDigits(run: string) {
    forall c :: c in run ==> c in DIGITS
  }

  /** A run of digits, or several separated by single underscores. */
  predicate DigitRuns(s: string) {
    forall run :: run in Split(s, '_') ==> run != "" && AllDigits(run)
  }

  /** The text after its sign, if it has one. */
  function Unsigned(t: string): string {
    if t != "" && t[0] in ['+', '-'] then t[1..] else t
  }

  /** The number that digits stand for, read from the left after `acc`; underscores do not count. */
  function Number(s: string, acc: int): int {
    if s == "" then acc
    else if s[0] in DIGITS then Number(s[1..], 10 * acc + Place(s[0], DIGITS))
    else Number(s[1..], acc)
  }

  /** Where a character first stands in a text. */
  function Place(c: char, s: string): nat
    requires c in s
  {
    if s[0] == c then 0 else 1 + Place(c, s[1..])
  }

  function Signed(t: string): int {
    if t != "" && t[0] == '-' then -Number(t[1..], 0) else Number(Unsigned(t), 0)
  }

  // ----- words

  lemma LetterSpells(c: char, small: char, capital: char)
    requires 'a' <= small <= 'z' && capital == UpperChar(small)
    ensures LowerChar(c) == small <==> c == small || c == capital
  {}

  lemma SpellsExactly(s: string, small: string, capital: string)
    requires |small| == |capital|
    requires forall i :: 0 <= i < |small| ==> 'a' <= small[i] <= 'z' && capital[i] == UpperChar(small[i])
    ensures ToLower(s) == small <==> Spells(s, small, capital)
  {
    if |s| == |small| {
      forall i | 0 <= i < |s| ensures LowerChar(s[i]) == small[i] <==> s[i] == small[i] || s[i] == capital[i] {
        LetterSpells(s[i], small[i], capital[i]);
      }
      if Spells(s, small, capital) {
        assert ToLower(s) == small;
      }
    }
  }

  // ----- numbers

  lemma DigitAt(j: nat)
    requires j < 10
    ensures DIGITS[j] as int == j + '0' as int
  {}

  lemma DigitPlace(c: char)
    ensures IsDigit(c) <==> c in DIGITS
    ensures IsDigit(c) ==> DigitValue(c) == Place(c, DIGITS)
  {
    var i := if IsDigit(c) then c as int - '0' as int else 10;
    forall j: nat | j < i ensures DIGITS[j] != c {
      DigitAt(j);
    }
    if IsDigit(c) {
      DigitAt(i);
      PlaceOf(c, DIGITS, i);
    }
  }

  lemma {:induction false} PlaceOf(c: char, s: string, i: nat)
    requires i < |s| && (forall j :: 0 <= j < i ==> s[j] != c)
    ensures s[i] == c ==> Place(c, s) == i
  {
    if i > 0 && s[i] == c {
      PlaceOf(c, s[1..], i - 1);
    }
  }

  lemma {:induction false} NumberSnoc(s: string, c: char, acc: int)
    ensures Number(s + [c], acc)
            == if c in DIGITS then 10 * Number(s, acc) + Place(c, DIGITS) else Number(s, acc)
  {
    hide Place;
    if s == "" {
      assert s + [c] == [c] && [c][1..] == "";
    } else {
      assert (s + [c])[1..] == s[1..] + [c];
      NumberSnoc(s[1..], c, if s[0] in DIGITS then 10 * acc + Place(s[0], DIGITS) else acc);
    }
  }

  lemma {:induction false} DigitsValueIsNumber(s: string)
    requires forall i :: 0 <= i < |s| ==> IsDigit(s[i]) || s[i] == '_'
    ensures DigitsValue(s) == Number(s, 0)
  {
    hide Place, DigitValue;
    if s != "" {
      var front, c := s[..|s| - 1], s[|s| - 1];
      DigitsValueIsNumber(front);
      NumberSnoc(front, c, 0);
      DigitPlace(c);
      assert front + [c] == s;
    }
  }

  lemma SplitCons(c: char, s: string)
    ensures c == '_' ==> Split([c] + s, '_') == [""] + Split(s, '_')
    ensures c != '_' ==> Split([c] + s, '_') == [[c] + Split(s, '_')[0]] + Split(s, '_')[1..]
  {
    assert ([c] + s)[1..] == s;
  }

  lemma RunCons(c: char, run: string)
    ensures AllDigits([c] + run) <==> c in DIGITS && AllDigits(run)
    ensures AllDigits("")
  {
    assert c in [c] + run;
    assert forall x :: x in [c] + run <==> x == c || x in run;
  }

  /** All runs are digits; the first may be empty. */
  predicate LooseRuns(s: string) {
    s == "" || DigitRuns(if s[0] == '_' then s[1..] else s)
  }

  predicate RunsAre(runs: seq<string>) {
    forall run :: run in runs ==> run != "" && AllDigits(run)
  }

  lemma RunsSplit(first: string, rest: seq<string>)
    ensures RunsAre([first] + rest) <==> first != "" && AllDigits(first) && RunsAre(rest)
  {
    hide AllDigits;
    var all := [first] + rest;
    assert first in all && forall run :: run in rest ==> run in all;
    assert forall run :: run in all ==> run == first || run in rest;
  }

  lemma DigitRunsAre(s: string)
    ensures DigitRuns(s) <==> RunsAre(Split(s, '_'))
  {}

  lemma ConsRuns(c: char, s: string)
    ensures DigitRuns([c] + s) <==> c in DIGITS && LooseRuns(s)
  {
    DigitRunsAre([c] + s);
    DigitRunsAre(s);
    SplitCons(c, s);
    var parts := Split(s, '_');
    assert parts == [parts[0]] + parts[1..];
    hide RunsAre;
    RunsSplit("", parts);
    RunsSplit([c] + parts[0], parts[1..]);
    RunsSplit(parts[0], parts[1..]);
    RunCons(c, parts[0]);
    if s == "" {
      assert parts == [""] && RunsAre([]) by { NoRuns(); }
    } else {
      DigitRunsAre(s[1..]);
      SplitCons(s[0], s[1..]);
      assert s == [s[0]] + s[1..];
      hide DigitRuns, AllDigits;
      assert s[0] == '_' ==> parts[0] == "" && parts[1..] == Split(s[1..], '_');
      assert s[0] != '_' ==> parts[0] != "";
    }
  }

  lemma NoRuns()
    ensures RunsAre([])
  {}

  lemma {:induction false} DigitRunsExactly(s: string)
    ensures IsDigits(s) <==> DigitRuns(s)
  {
    if s == "" {
      assert "" in Split(s, '_');
    } else {
      var c, rest := s[0], s[1..];
      assert s == [c] + rest;
      DigitPlace(c);
      ConsRuns(c, rest);
      hide DigitRuns;
      if rest != "" {
        if rest[0] == '_' {
          DigitRunsExactly(rest[1..]);
          AfterUnderscore(s);
        } else {
          DigitRunsExactly(rest);
          AfterDigit(s);
        }
      }
    }
  }

  lemma AfterUnderscore(s: string)
    requires |s| > 1 && s[1] == '_'
    ensures IsDigits(s) <==> IsDigit(s[0]) && IsDigits(s[1..][1..])
  {
    var t := s[1..][1..];
    assert forall i :: 0 <= i < |t| ==> t[i] == s[i + 2];
    assert forall i :: 2 <= i < |s| ==> s[i] == t[i - 2];
  }

  lemma AfterDigit(s: string)
    requires |s| > 1 && s[1] != '_'
    ensures IsDigits(s) <==> IsDigit(s[0]) && IsDigits(s[1..])
  {
    var t := s[1..];
    assert forall i :: 0 <= i < |t| ==> t[i] == s[i + 1];
    assert forall i :: 1 <= i < |s| ==> s[i] == t[i - 1];
  }

  lemma IntegerExactly(t: string)
    ensures ParseInt(t) == if DigitRuns(Unsigned(t)) then Some(Signed(t)) else None
  {
    hide DigitRuns, DigitsValue, Number;
    DigitRunsExactly(Unsigned(t));
    if IsDigits(Unsigned(t)) {
      DigitsValueIsNumber(Unsigned(t));
    }
  }

  // ----- the classification

  predicate TrueWord(t: string) { Spells(t, "true", "TRUE") }

  predicate FalseWord(t: string) { Spells(t, "false", "FALSE") }

  predicate NullWord(t: string) { Spells(t, "null", "NULL") }

  /** The text of an integer contains no dot and is neither in quotes nor one of the words. */
  lemma IntegerShape(t: string)
    requires DigitRuns(Unsigned(t))
    ensures t != "" && t != ">" && t != "|" && '.' !in t && !InQuotes(t)
    ensures !TrueWord(t) && !FalseWord(t) && !NullWord(t)
  {
    hide DigitRuns;
    DigitRunsExactly(Unsigned(t));
    var u := Unsigned(t);
    assert forall i :: 0 <= i < |u| ==> u[i] != '.';
    assert t == u || t == [t[0]] + u;
    assert IsDigit(u[|u| - 1]) && u[|u| - 1] == t[|t| - 1];
  }

  lemma WordShape(t: string)
    ensures TrueWord(t) || FalseWord(t) || NullWord(t) ==>
              t != "" && t != ">" && t != "|" && '.' !in t && !InQuotes(t)
    ensures TrueWord(t) ==> !FalseWord(t) && !NullWord(t)
    ensures FalseWord(t) ==> !NullWord(t)
  {}

  lemma WordsCoerce(t: string)
    ensures ToLower(t) == "true" <==> TrueWord(t)
    ensures ToLower(t) == "false" <==> FalseWord(t)
    ensures ToLower(t) == "null" <==> NullWord(t)
  {
    SpellsExactly(t, "true", "TRUE");
    SpellsExactly(t, "false", "FALSE");
    SpellsExactly(t, "null", "NULL");
  }

  /** The text as it stands, when it is nothing else. */
  predicate PlainText(t: string, toFloat: string -> Option<int>) {
    && t != "" && !InQuotes(t) && !TrueWord(t) && !FalseWord(t) && !NullWord(t)
    && !DigitRuns(Unsigned(t)) && ('.' in t ==> toFloat(t).None?)
  }

  lemma TextExactly(t: string, toFloat: string -> Option<int>)
    ensures var v := CoerceText(t, toFloat);
            && (v == Opens <==> t == "")
            && (forall b :: v == Plain(Bool(b)) <==> if b then TrueWord(t) else FalseWord(t))
            && (v == Plain(Null) <==> NullWord(t))
            && (forall n :: v == Plain(Int(n)) <==> DigitRuns(Unsigned(t)) && n == Signed(t))
            && (forall x :: v == Plain(Float(x)) <==> !InQuotes(t) && '.' in t && toFloat(t) == Some(x))
            && (forall s :: v == Plain(Str(s)) <==>
                              (InQuotes(t) && s == Inner(t)) || (PlainText(t, toFloat) && s == t))
  {
    hide DigitRuns, Signed, TrueWord, FalseWord, NullWord, ParseInt, Unsigned;
    WordsCoerce(t);
    WordShape(t);
    IntegerExactly(t);
    if DigitRuns(Unsigned(t)) {
      IntegerShape(t);
    }
  }

  /**
   What a value text stands for, white space around it aside. Nothing opens a mapping. The words are taken
   in any case. Digits with a sign or not, and single underscores between them, are a number; a text with a
   dot is what the conversion to a float makes of it. A text in quotation marks is what is between them,
   and any other text, a dotted one that the conversion rejects among them, is itself.
   */
  lemma ScalarExactly(before: string, t: string, after: string, toFloat: string -> Option<int>)
    requires (forall c :: c in before ==> IsSpace(c)) && (forall c :: c in after ==> IsSpace(c)) && Trimmed(t)
    ensures var v := CoerceScalar(before + t + after, toFloat);
            && (v == Opens <==> t == "")
            && (forall b :: v == Plain(Bool(b)) <==> if b then TrueWord(t) else FalseWord(t))
            && (v == Plain(Null) <==> NullWord(t))
            && (forall n :: v == Plain(Int(n)) <==> DigitRuns(Unsigned(t)) && n == Signed(t))
            && (forall x :: v == Plain(Float(x)) <==> !InQuotes(t) && '.' in t && toFloat(t) == Some(x))
            && (forall s :: v == Plain(Str(s)) <==>
                              (InQuotes(t) && s == Inner(t)) || (PlainText(t, toFloat) && s == t))
  {
    hide Strip, CoerceText, DigitRuns, Signed, TrueWord, FalseWord, NullWord, PlainText;
    StripPadded(before, t, after);
    TextExactly(t, toFloat);
  }

  // ----- lines

  predicate AllSpace(s: string) {
    forall c :: c in s ==> IsSpace(c)
  }

  lemma PaddedEnds(before: string, t: string, after: string)
    requires AllSpace(before) && AllSpace(after) && Trimmed(t)
    ensures Strip(before + t + after) == t
    ensures t != "" ==> LStrip(before + t + after) == t + after
  {
    StripPadded(before, t, after);
    if t != "" {
      assert before + t + after == before + (t + after);
      LStripPadding(before, t + after);
    }
  }

  /** The lines that are skipped: blank ones, comments, list items, and those without a colon. */
  lemma SkippedExactly(before: string, t: string, after: string, toFloat: string -> Option<int>)
    requires AllSpace(before) && AllSpace(after) && Trimmed(t)
    ensures ParseLine(before + t + after, toFloat).None? <==> t == "" || "#" <= t || "- " <= t || ':' !in t
  {
    hide CoerceScalar;
    PaddedEnds(before, t, after);
    assert ':' in t && t[0] != ':' ==> |t| > 1;
    assert t != "" ==> (t + after)[0] == t[0];
    assert |t| > 1 ==> (t + after)[..2] == t[..2];
  }

  /**
   Any other line is an entry: its indent is the number of blanks it begins with, not counting tabs, its key
   and its value are what stands before and after the first colon.
   */
  lemma EntryExactly(indent: nat, more: string, key: string, value: string, after: string,
                     toFloat: string -> Option<int>)
    requires AllSpace(more) && AllSpace(after) && (more != "" ==> more[0] != ' ')
    requires ':' !in key && Trimmed(key + [':'] + value)
    requires var t := key + [':'] + value; !("#" <= t) && !("- " <= t)
    ensures ParseLine(Repeat(' ', indent) + more + (key + [':'] + value) + after, toFloat)
            == Some(Line(indent, Strip(key), CoerceScalar(value, toFloat)))
  {
    hide CoerceScalar, LStrip, RStrip, IsSpace;
    var t := key + [':'] + value;
    var before := Repeat(' ', indent) + more;
    assert AllSpace(before) by { Blanks(indent, more); }
    SkippedExactly(before, t, after, toFloat);
    assert t[|key|] == ':' && t[|key| + 1..] == value;
    PaddedEnds(before, t, after);
    BeforeColonPrinted(key, value);
    assert before + t + after == Repeat(' ', indent) + (more + t + after);
    assert (more + t + after)[0] != ' ' by { Visible(more, t, after); }
    LeadingSpacesPrinted(indent, more + t + after);
  }

  lemma Blanks(n: nat, more: string)
    requires AllSpace(more)
    ensures AllSpace(Repeat(' ', n) + more)
  {}

  lemma Visible(more: string, t: string, after: string)
    requires (more != "" ==> more[0] != ' ') && t != "" && Trimmed(t)
    ensures (more + t + after)[0] != ' '
  {}
}
