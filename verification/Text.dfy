/** The string operations that the modelled parts of the program rely on. */
module Text {

  datatype Option<+T> = None | Some(value: T)

  /** The ASCII and Latin-1 characters that `str.strip` and `str.split` treat as white space. */
  predicate IsSpace(c: char) {
    || c == ' ' || '\t' <= c <= '\r' || '\U{1C}' <= c <= '\U{1F}'
    || c == '\U{85}' || c == '\U{A0}'
  }

  function LStrip(s: string): string {
    if s != "" && IsSpace(s[0]) then LStrip(s[1..]) else s
  }

  function RStrip(s: string): string {
    if s != "" && IsSpace(s[|s| - 1]) then RStrip(s[..|s| - 1]) else s
  }

  lemma {:induction false} LStripIsSuffix(s: string)
    ensures |LStrip(s)| <= |s| && LStrip(s) == s[|s| - |LStrip(s)|..]
    ensures LStrip(s) != "" ==> !IsSpace(LStrip(s)[0])
  {
    if s != "" && IsSpace(s[0]) {
      LStripIsSuffix(s[1..]);
    }
  }

  lemma {:induction false} RStripIsPrefix(s: string)
    ensures RStrip(s) <= s
    ensures RStrip(s) != "" ==> !IsSpace(RStrip(s)[|RStrip(s)| - 1])
  {
    if s != "" && IsSpace(s[|s| - 1]) {
      RStripIsPrefix(s[..|s| - 1]);
    }
  }

  function RStripChar(s: string, c: char): string {
    if s != "" && s[|s| - 1] == c then RStripChar(s[..|s| - 1], c) else s
  }

  function Repeat(c: char, n: nat): string {
    seq(n, _ => c)
  }

  /** `RStripChar` removes exactly a trailing run of its character. */
  lemma {:induction false} RStripCharRun(s: string, c: char, n: nat)
    requires s == "" || s[|s| - 1] != c
    ensures RStripChar(s + Repeat(c, n), c) == s
  {
    if n == 0 {
      assert s + Repeat(c, 0) == s;
    } else {
      assert (s + Repeat(c, n))[..|s| + n - 1] == s + Repeat(c, n - 1);
      RStripCharRun(s, c, n - 1);
    }
  }

  function Strip(s: string): (r: string) {
    RStrip(LStrip(s))
  }

  /** Neither end of `s` is white space. */
  predicate Trimmed(s: string) {
    s != "" ==> !IsSpace(s[0]) && !IsSpace(s[|s| - 1])
  }

  lemma StripTrims(s: string)
    ensures Trimmed(Strip(s))
    ensures forall c :: c in Strip(s) ==> c in s
  {
    var l := LStrip(s);
    LStripIsSuffix(s);
    RStripIsPrefix(l);
    assert forall c :: c in l ==> c in s;
    assert forall c :: c in RStrip(l) ==> c in l;
  }

  lemma StripOfTrimmed(s: string)
    requires Trimmed(s)
    ensures Strip(s) == s
  {}

  /** White space around a trimmed text is all that `Strip` removes. */
  lemma {:induction false} LStripPadding(pad: string, s: string)
    requires forall c :: c in pad ==> IsSpace(c)
    requires s == "" || !IsSpace(s[0])
    ensures LStrip(pad + s) == s
  {
    if pad == "" {
      assert pad + s == s;
    } else {
      assert (pad + s)[1..] == pad[1..] + s;
      LStripPadding(pad[1..], s);
    }
  }

  /** A text that ends in a visible character shields everything before it from `RStrip`. */
  lemma {:induction false} RStripAppend(s: string, t: string)
    requires s != "" && !IsSpace(s[|s| - 1])
    ensures RStrip(s + t) == s + RStrip(t)
  {
    if t == "" {
      assert s + t == s;
    } else if IsSpace(t[|t| - 1]) {
      assert (s + t)[..|s + t| - 1] == s + t[..|t| - 1];
      RStripAppend(s, t[..|t| - 1]);
    }
  }

  lemma {:induction false} RStripPadding(s: string, pad: string)
    requires forall c :: c in pad ==> IsSpace(c)
    requires s == "" || !IsSpace(s[|s| - 1])
    ensures RStrip(s + pad) == s
  {
    if pad == "" {
      assert s + pad == s;
    } else {
      assert (s + pad)[..|s + pad| - 1] == s + pad[..|pad| - 1];
      RStripPadding(s, pad[..|pad| - 1]);
    }
  }

  lemma {:induction false} StripPadded(before: string, t: string, after: string)
    requires (forall c :: c in before ==> IsSpace(c)) && (forall c :: c in after ==> IsSpace(c)) && Trimmed(t)
    ensures Strip(before + t + after) == t
  {
    if t == "" {
      assert before + t + after == (before + after) + "";
      LStripPadding(before + after, "");
    } else {
      assert before + t + after == before + (t + after);
      LStripPadding(before, t + after);
      RStripPadding(t, after);
    }
  }

  function LowerChar(c: char): char {
    if 'A' <= c <= 'Z' then (c as int + 32) as char else c
  }

  function UpperChar(c: char): char {
    if 'a' <= c <= 'z' then (c as int - 32) as char else c
  }

  function ToLower(s: string): (r: string)
    ensures |r| == |s| && forall i :: 0 <= i < |s| ==> r[i] == LowerChar(s[i])
  {
    seq(|s|, i requires 0 <= i < |s| => LowerChar(s[i]))
  }

  function ToUpper(s: string): (r: string)
    ensures |r| == |s| && forall i :: 0 <= i < |s| ==> r[i] == UpperChar(s[i])
  {
    seq(|s|, i requires 0 <= i < |s| => UpperChar(s[i]))
  }

  /** The letters that change case, and what they become; nothing else does. */
  lemma CaseTable(i: nat, c: char)
    ensures var small, large := "abcdefghijklmnopqrstuvwxyz", "ABCDEFGHIJKLMNOPQRSTUVWXYZ";
            && (i < 26 ==> UpperChar(small[i]) == large[i] && LowerChar(large[i]) == small[i])
            && (c !in small ==> UpperChar(c) == c)
            && (c !in large ==> LowerChar(c) == c)
  {
    var small, large := "abcdefghijklmnopqrstuvwxyz", "ABCDEFGHIJKLMNOPQRSTUVWXYZ";
    assert 'a' <= c <= 'z' ==> small[c as int - 'a' as int] == c;
    assert 'A' <= c <= 'Z' ==> large[c as int - 'A' as int] == c;
  }

  /** The white space, one character at a time. */
  lemma SpaceTable(c: char)
    ensures IsSpace(c)
            <==> c in " \t\n\U{0B}\U{0C}\r\U{1C}\U{1D}\U{1E}\U{1F}\U{85}\U{A0}"
  {
    var spaces := "\t\n\U{0B}\U{0C}\r\U{1C}\U{1D}\U{1E}\U{1F}";
    assert '\t' <= c <= '\r' ==> spaces[c as int - '\t' as int] == c;
    assert '\U{1C}' <= c <= '\U{1F}' ==> spaces[c as int - '\U{1C}' as int + 5] == c;
  }

  predicate EndsWith(s: string, t: string) {
    |t| <= |s| && s[|s| - |t|..] == t
  }

  /** A file name with the suffix of JSON files and something in front of it. */
  predicate HasJsonSuffix(name: string) {
    |name| > 5 && EndsWith(name, ".json")
  }

  lemma JsonSuffixExactly(name: string)
    ensures HasJsonSuffix(name) <==> exists stem :: stem != "" && name == stem + ".json"
  {
    if HasJsonSuffix(name) {
      assert name == name[..|name| - 5] + ".json";
    }
    if stem :| stem != "" && name == stem + ".json" {
      assert name[|name| - 5..] == ".json";
    }
  }

  /** The last `n` characters, or the whole text when it is no longer than that. */
  function Last(s: string, n: nat): string {
    if |s| > n then s[|s| - n..] else s
  }

  /** `p` occurs in `s` at position `i`. */
  predicate At(s: string, p: string, i: int) {
    0 <= i <= |s| - |p| && s[i..i + |p|] == p
  }

  predicate Contains(s: string, p: string) {
    exists i :: 0 <= i <= |s| - |p| && At(s, p, i)
  }

  // ----- splitting at a separator character and joining again

  function Split(s: string, c: char): (parts: seq<string>)
    ensures |parts| > 0
    ensures forall p :: p in parts ==> c !in p
  {
    if s == "" then [""]
    else
      var rest := Split(s[1..], c);
      if s[0] == c then [""] + rest else [[s[0]] + rest[0]] + rest[1..]
  }

  function Join(parts: seq<string>, c: char): string {
    if |parts| == 0 then ""
    else if |parts| == 1 then parts[0]
    else parts[0] + [c] + Join(parts[1..], c)
  }

  lemma {:induction false} SplitNone(p: string, c: char)
    requires c !in p
    ensures Split(p, c) == [p]
  {
    if p != "" {
      SplitNone(p[1..], c);
      assert [p[0]] + p[1..] == p;
    }
  }

  lemma {:induction false} SplitFirst(p: string, rest: string, c: char)
    requires c !in p
    ensures Split(p + [c] + rest, c) == [p] + Split(rest, c)
  {
    var s := p + [c] + rest;
    if p == "" {
      assert s[1..] == rest;
    } else {
      assert s[1..] == p[1..] + [c] + rest;
      SplitFirst(p[1..], rest, c);
      assert [p[0]] + p[1..] == p;
    }
  }

  lemma {:induction false} SplitOfJoin(parts: seq<string>, c: char)
    requires |parts| > 0
    requires forall p :: p in parts ==> c !in p
    ensures Split(Join(parts, c), c) == parts
  {
    if |parts| == 1 {
      SplitNone(parts[0], c);
    } else {
      SplitOfJoin(parts[1..], c);
      SplitFirst(parts[0], Join(parts[1..], c), c);
    }
  }

  lemma {:induction false} JoinOfSplit(s: string, c: char)
    ensures Join(Split(s, c), c) == s
  {
    if s != "" {
      JoinOfSplit(s[1..], c);
      var rest := Split(s[1..], c);
      if s[0] == c {
        assert ([""] + rest)[1..] == rest;
        assert Join([""] + rest, c) == "" + [c] + Join(rest, c) == [s[0]] + s[1..];
      } else {
        var parts := [[s[0]] + rest[0]] + rest[1..];
        if |rest| > 1 {
          assert parts[1..] == rest[1..];
          assert Join(parts, c) == [s[0]] + rest[0] + [c] + Join(rest[1..], c) == [s[0]] + Join(rest, c);
        }
      }
    }
  }
}
