/** Unpadded base64url as in section 5 of RFC 4648 and Appendix C of RFC 7515. */
module Base64Url {
  import opened Text

  type Byte = b: int | 0 <= b < 256
  type Sextet = s: int | 0 <= s < 64

  function ToChar(v: Sextet): char {
    if v < 26 then (v + 'A' as int) as char
    else if v < 52 then (v - 26 + 'a' as int) as char
    else if v < 62 then (v - 52 + '0' as int) as char
    else if v == 62 then '-'
    else '_'
  }

  /** The decoder takes the characters of both base64 alphabets and ignores all others. */
  function FromChar(c: char): Option<Sextet> {
    if 'A' <= c <= 'Z' then Some(c as int - 'A' as int)
    else if 'a' <= c <= 'z' then Some(c as int - 'a' as int + 26)
    else if '0' <= c <= '9' then Some(c as int - '0' as int + 52)
    else if c == '-' || c == '+' then Some(62)
    else if c == '_' || c == '/' then Some(63)
    else None
  }

  lemma FromToChar(v: Sextet)
    ensures FromChar(ToChar(v)) == Some(v) && ToChar(v) != '=' && ToChar(v) != '.' && ToChar(v) < 128 as char
  {}

  // ----- encoding

  function Padded(raw: seq<Byte>): string {
    if |raw| == 0 then ""
    else if |raw| == 1 then [ToChar(raw[0] / 4), ToChar(raw[0] % 4 * 16), '=', '=']
    else if |raw| == 2 then
      [ToChar(raw[0] / 4), ToChar(raw[0] % 4 * 16 + raw[1] / 16), ToChar(raw[1] % 16 * 4), '=']
    else
      [ToChar(raw[0] / 4), ToChar(raw[0] % 4 * 16 + raw[1] / 16), ToChar(raw[1] % 16 * 4 + raw[2] / 64),
        ToChar(raw[2] % 64)]
      + Padded(raw[3..])
  }

  function Encode(raw: seq<Byte>): string {
    RStripChar(Padded(raw), '=')
  }

  // ----- decoding

  /** What is left of the previous sextet when `quad` characters of a group have been read. */
  function LeftBound(quad: nat): nat {
    if quad == 0 then 1 else if quad == 1 then 64 else if quad == 2 then 16 else 4
  }

  /** The lenient decoder: foreign characters are skipped, and padding that completes a group ends the text. */
  function Scan(s: string, quad: nat, left: nat, pads: nat): Option<seq<Byte>>
    requires quad < 4 && left < LeftBound(quad)
  {
    if s == "" then if quad == 0 then Some([]) else None
    else if s[0] == '=' then
      if quad >= 2 && quad + pads + 1 >= 4 then Some([])
      else Scan(s[1..], quad, left, if quad >= 2 then pads + 1 else pads)
    else
      match FromChar(s[0])
      case None => Scan(s[1..], quad, left, pads)
      case Some(v) =>
        if quad == 0 then Scan(s[1..], 1, v, 0)
        else if quad == 1 then Emit(left * 4 + v / 16, Scan(s[1..], 2, v % 16, 0))
        else if quad == 2 then Emit(left * 16 + v / 4, Scan(s[1..], 3, v % 4, 0))
        else Emit(left * 64 + v, Scan(s[1..], 0, 0, 0))
  }

  function Emit(b: Byte, rest: Option<seq<Byte>>): Option<seq<Byte>> {
    if rest.Some? then Some([b] + rest.value) else None
  }

  /** The padding that `-len % 4` restores. */
  function Restored(segment: string): string {
    segment + Repeat('=', -|segment| % 4)
  }

  /** None stands for the exception the decoder raises. */
  function Decode(segment: string): Option<seq<Byte>> {
    if exists i :: 0 <= i < |segment| && segment[i] >= 128 as char then None
    else Scan(Restored(segment), 0, 0, 0)
  }

  // ----- decoding inverts encoding

  /** Reading one alphabet character. */
  lemma ScanChar(v: Sextet, rest: string, quad: nat, left: nat, pads: nat)
    requires quad < 4 && left < LeftBound(quad)
    ensures Scan([ToChar(v)] + rest, quad, left, pads) ==
            if quad == 0 then Scan(rest, 1, v, 0)
            else if quad == 1 then Emit(left * 4 + v / 16, Scan(rest, 2, v % 16, 0))
            else if quad == 2 then Emit(left * 16 + v / 4, Scan(rest, 3, v % 4, 0))
            else Emit(left * 64 + v, Scan(rest, 0, 0, 0))
  {
    FromToChar(v);
    assert ([ToChar(v)] + rest)[1..] == rest;
  }

  lemma Regroup(a: Byte, b: Byte, c: Byte)
    ensures var v1, v2 := a % 4 * 16 + b / 16, b % 16 * 4 + c / 64;
            && a / 4 * 4 + v1 / 16 == a && v1 % 16 * 16 + v2 / 4 == b && v2 % 4 * 64 + c % 64 == c
  {}

  lemma ScanGroup(a: Byte, b: Byte, c: Byte, rest: string)
    ensures var group := [ToChar(a / 4), ToChar(a % 4 * 16 + b / 16), ToChar(b % 16 * 4 + c / 64), ToChar(c % 64)];
            Scan(group + rest, 0, 0, 0) == Emit(a, Emit(b, Emit(c, Scan(rest, 0, 0, 0))))
  {
    hide Scan, ToChar, FromChar, Emit;
    var v0, v1, v2, v3 := a / 4, a % 4 * 16 + b / 16, b % 16 * 4 + c / 64, c % 64;
    Regroup(a, b, c);
    assert [ToChar(v0), ToChar(v1), ToChar(v2), ToChar(v3)] + rest
        == [ToChar(v0)] + ([ToChar(v1)] + ([ToChar(v2)] + ([ToChar(v3)] + rest)));
    ScanChar(v0, [ToChar(v1)] + ([ToChar(v2)] + ([ToChar(v3)] + rest)), 0, 0, 0);
    ScanChar(v1, [ToChar(v2)] + ([ToChar(v3)] + rest), 1, v0, 0);
    ScanChar(v2, [ToChar(v3)] + rest, 2, v1 % 16, 0);
    ScanChar(v3, rest, 3, v2 % 4, 0);
  }

  /** Padding that completes a group ends the text. */
  lemma ScanPad(two: nat, three: nat)
    requires two < 16 && three < 4
    ensures Scan("==", 2, two, 0) == Some([])
    ensures Scan("=", 3, three, 0) == Some([])
  {
    assert "=="[1..] == "=";
    assert Scan("=", 2, two, 1) == Some([]);
  }

  lemma ScanTwoLeft(a: Byte, b: Byte)
    ensures Scan([ToChar(a / 4), ToChar(a % 4 * 16 + b / 16), ToChar(b % 16 * 4), '='], 0, 0, 0) == Some([a, b])
  {
    hide Scan, ToChar, FromChar;
    var v0, v1, v2 := a / 4, a % 4 * 16 + b / 16, b % 16 * 4;
    assert [ToChar(v0), ToChar(v1), ToChar(v2), '='] == [ToChar(v0)] + ([ToChar(v1)] + ([ToChar(v2)] + "="));
    ScanChar(v0, [ToChar(v1)] + ([ToChar(v2)] + "="), 0, 0, 0);
    ScanChar(v1, [ToChar(v2)] + "=", 1, v0, 0);
    ScanChar(v2, "=", 2, v1 % 16, 0);
    ScanPad(0, v2 % 4);
    assert [a] + ([b] + []) == [a, b];
  }

  lemma ScanOneLeft(a: Byte)
    ensures Scan([ToChar(a / 4), ToChar(a % 4 * 16), '=', '='], 0, 0, 0) == Some([a])
  {
    hide Scan, ToChar, FromChar;
    var v0, v1 := a / 4, a % 4 * 16;
    assert [ToChar(v0), ToChar(v1), '=', '='] == [ToChar(v0)] + ([ToChar(v1)] + "==");
    ScanChar(v0, [ToChar(v1)] + "==", 0, 0, 0);
    ScanChar(v1, "==", 1, v0, 0);
    ScanPad(v1 % 16, 0);
    assert [a] + [] == [a];
  }

  lemma {:induction false} ScanPadded(raw: seq<Byte>)
    ensures Scan(Padded(raw), 0, 0, 0) == Some(raw)
  {
    hide Scan, ToChar;
    if |raw| == 0 {
      ScanEmpty();
    } else if |raw| == 1 {
      ScanOneLeft(raw[0]);
      assert raw == [raw[0]];
    } else if |raw| == 2 {
      ScanTwoLeft(raw[0], raw[1]);
      assert raw == [raw[0], raw[1]];
    } else {
      ScanPadded(raw[3..]);
      ScanGroup(raw[0], raw[1], raw[2], Padded(raw[3..]));
      assert [raw[0]] + ([raw[1]] + ([raw[2]] + raw[3..])) == raw;
    }
  }

  lemma ScanEmpty()
    ensures Scan("", 0, 0, 0) == Some([])
  {}

  /** The padding of the last group. */
  function PadLength(n: nat): nat {
    if n % 3 == 0 then 0 else 3 - n % 3
  }

  predicate InAlphabet(c: char) {
    FromChar(c).Some? && c != '=' && c != '.' && c < 128 as char
  }

  lemma GroupInAlphabet(v0: Sextet, v1: Sextet, v2: Sextet, v3: Sextet)
    ensures InAlphabet(ToChar(v0)) && InAlphabet(ToChar(v1)) && InAlphabet(ToChar(v2)) && InAlphabet(ToChar(v3))
  {
    FromToChar(v0);
    FromToChar(v1);
    FromToChar(v2);
    FromToChar(v3);
  }

  /** `s` is `n` alphabet characters and then padding. */
  predicate PaddedText(s: string, n: nat, pad: nat) {
    && |s| == n + pad
    && (forall i :: 0 <= i < n ==> InAlphabet(s[i]))
    && (forall i :: n <= i < |s| ==> s[i] == '=')
  }

  /** The four characters of a whole group. */
  function Whole(a: Byte, b: Byte, c: Byte): string {
    [ToChar(a / 4), ToChar(a % 4 * 16 + b / 16), ToChar(b % 16 * 4 + c / 64), ToChar(c % 64)]
  }

  lemma LastGroupShape(raw: seq<Byte>)
    requires |raw| < 3
    ensures var pad := PadLength(|raw|);
            |Padded(raw)| % 4 == 0 && |Padded(raw)| >= pad && PaddedText(Padded(raw), |Padded(raw)| - pad, pad)
  {
    hide ToChar, InAlphabet;
    if |raw| == 1 {
      GroupInAlphabet(raw[0] / 4, raw[0] % 4 * 16, 0, 0);
    } else if |raw| == 2 {
      GroupInAlphabet(raw[0] / 4, raw[0] % 4 * 16 + raw[1] / 16, raw[1] % 16 * 4, 0);
    }
  }

  lemma {:induction false} PaddedShape(raw: seq<Byte>)
    ensures var pad := PadLength(|raw|);
            |Padded(raw)| % 4 == 0 && |Padded(raw)| >= pad && PaddedText(Padded(raw), |Padded(raw)| - pad, pad)
  {
    hide ToChar, InAlphabet, Padded, Whole, PadLength, PaddedText;
    if |raw| < 3 {
      LastGroupShape(raw);
    } else {
      var head, rest, pad := Whole(raw[0], raw[1], raw[2]), Padded(raw[3..]), PadLength(|raw|);
      PaddedUnfold(raw);
      WholeInAlphabet(raw[0], raw[1], raw[2]);
      PaddedShape(raw[3..]);
      SamePadding(|raw|);
      GroupBefore(head, rest, |rest| - pad, pad);
    }
  }

  lemma SamePadding(n: nat)
    requires n >= 3
    ensures PadLength(n) == PadLength(n - 3)
  {}

  lemma PaddedUnfold(raw: seq<Byte>)
    requires |raw| >= 3
    ensures Padded(raw) == Whole(raw[0], raw[1], raw[2]) + Padded(raw[3..]) && |Whole(raw[0], raw[1], raw[2])| == 4
  {}

  lemma WholeInAlphabet(a: Byte, b: Byte, c: Byte)
    ensures forall i :: 0 <= i < |Whole(a, b, c)| ==> InAlphabet(Whole(a, b, c)[i])
  {
    hide ToChar, InAlphabet;
    GroupInAlphabet(a / 4, a % 4 * 16 + b / 16, b % 16 * 4 + c / 64, c % 64);
  }

  lemma GroupBefore(head: string, s: string, n: nat, pad: nat)
    requires PaddedText(s, n, pad) && forall i :: 0 <= i < |head| ==> InAlphabet(head[i])
    ensures PaddedText(head + s, |head| + n, pad)
  {
    hide InAlphabet;
  }

  lemma LastIsNotPad(s: string, n: nat, pad: nat)
    requires PaddedText(s, n, pad)
    ensures s == s[..n] + Repeat('=', pad)
    ensures n == 0 || s[n - 1] != '='
  {}

  lemma RestoredLength(n: int, pad: int)
    requires n >= 0 && 0 <= pad && (n + pad) % 4 == 0 && pad < 3
    ensures -n % 4 == pad && n % 4 != 1
  {}

  /** Encoding drops exactly the padding that `-len % 4` restores. */
  lemma RestoredIsPadded(raw: seq<Byte>)
    ensures Restored(Encode(raw)) == Padded(raw) && |Encode(raw)| + PadLength(|raw|) == |Padded(raw)|
    ensures |Encode(raw)| % 4 != 1 && forall i :: 0 <= i < |Encode(raw)| ==> InAlphabet(Encode(raw)[i])
  {
    hide Padded, InAlphabet;
    PaddedShape(raw);
    var p := Padded(raw);
    var pad := PadLength(|raw|);
    var n := |p| - pad;
    LastIsNotPad(p, n, pad);
    hide Repeat, RStripChar;
    RStripCharRun(p[..n], '=', pad);
    assert Encode(raw) == p[..n];
    RestoredLength(n, pad);
  }

  /** Decoding inverts encoding for every byte string. */
  lemma DecodeInvertsEncode(raw: seq<Byte>)
    ensures Decode(Encode(raw)) == Some(raw)
  {
    RestoredIsPadded(raw);
    assert forall i :: 0 <= i < |Encode(raw)| ==> InAlphabet(Encode(raw)[i]);
    ScanPadded(raw);
  }

  /** Encoded texts contain neither a dot nor padding, and never have length 1 modulo 4. */
  lemma EncodeIsClean(raw: seq<Byte>)
    ensures '.' !in Encode(raw) && '=' !in Encode(raw) && |Encode(raw)| % 4 != 1
    ensures forall i :: 0 <= i < |Encode(raw)| ==> Encode(raw)[i] < 128 as char
  {
    RestoredIsPadded(raw);
    assert forall i :: 0 <= i < |Encode(raw)| ==> InAlphabet(Encode(raw)[i]);
  }

  lemma EncodeIsInjective(a: seq<Byte>, b: seq<Byte>)
    requires Encode(a) == Encode(b)
    ensures a == b
  {
    DecodeInvertsEncode(a);
    DecodeInvertsEncode(b);
  }

  // ----- the encoding, bit by bit

  /** The 64 characters of the alphabet in the order of their values. */
  const ALPHABET: string := "ABCDEFGHIJKLMNOPQRSTUVWXYZabcdefghijklmnopqrstuvwxyz0123456789-_"

  lemma LargeEntry(v: Sextet)
    requires v < 26
    ensures ToChar(v) == ALPHABET[v]
  {
    assert ALPHABET[v] == "ABCDEFGHIJKLMNOPQRSTUVWXYZ"[v];
  }

  lemma SmallEntry(v: Sextet)
    requires 26 <= v < 52
    ensures ToChar(v) == ALPHABET[v]
  {}

  lemma LastEntry(v: Sextet)
    requires 52 <= v
    ensures ToChar(v) == ALPHABET[v]
  {}

  lemma ToCharIsEntry(v: Sextet)
    ensures ToChar(v) == ALPHABET[v]
  {
    hide ToChar;
    if v < 26 {
      LargeEntry(v);
    } else if v < 52 {
      SmallEntry(v);
    } else {
      LastEntry(v);
    }
  }

  /** The decoder reads each character of the alphabet as its own value, and two more as the last two values. */
  lemma FromCharExactly(c: char, v: Sextet)
    ensures FromChar(c) == Some(v) <==> c == ALPHABET[v] || (c == '+' && v == 62) || (c == '/' && v == 63)
  {
    hide ToChar, FromChar;
    ToCharIsEntry(v);
    FromToChar(v);
    ToFromChar(c);
    assert FromChar(c) == Some(v) ==> c == ToChar(v) || c == '+' || c == '/';
  }

  lemma ToFromChar(c: char)
    ensures FromChar(c).Some? && c != '+' && c != '/' ==> ToChar(FromChar(c).value) == c
    ensures FromChar('+') == Some(62) && FromChar('/') == Some(63)
  {}

  const WEIGHTS: seq<int> := [128, 64, 32, 16, 8, 4, 2, 1]

  /** Bit `k` of a byte string, the most significant bit of its first byte being bit 0; zeros follow its end. */
  function Bit(raw: seq<Byte>, k: nat): int {
    if k / 8 < |raw| then raw[k / 8] / WEIGHTS[k % 8] % 2 else 0
  }

  /** The number that the `i`-th six bits stand for. */
  function Group(raw: seq<Byte>, i: nat): int {
    32 * Bit(raw, 6 * i) + 16 * Bit(raw, 6 * i + 1) + 8 * Bit(raw, 6 * i + 2)
    + 4 * Bit(raw, 6 * i + 3) + 2 * Bit(raw, 6 * i + 4) + Bit(raw, 6 * i + 5)
  }

  lemma BitOfRest(raw: seq<Byte>, k: nat)
    requires |raw| >= 3 && k >= 24
    ensures Bit(raw, k) == Bit(raw[3..], k - 24)
  {
    assert k / 8 - 3 == (k - 24) / 8 && k % 8 == (k - 24) % 8;
  }

  lemma GroupOfRest(raw: seq<Byte>, i: nat)
    requires |raw| >= 3 && i >= 4
    ensures Group(raw, i) == Group(raw[3..], i - 4)
  {
    hide Bit;
    BitOfRest(raw, 6 * i);
    BitOfRest(raw, 6 * i + 1);
    BitOfRest(raw, 6 * i + 2);
    BitOfRest(raw, 6 * i + 3);
    BitOfRest(raw, 6 * i + 4);
    BitOfRest(raw, 6 * i + 5);
  }

  /** Each bit of a byte separates two of its halvings. */
  lemma Halvings(b: Byte)
    ensures b / 128 == b / 128 % 2 && b / 64 == 2 * (b / 128) + b / 64 % 2 && b / 32 == 2 * (b / 64) + b / 32 % 2
    ensures b / 16 == 2 * (b / 32) + b / 16 % 2 && b / 8 == 2 * (b / 16) + b / 8 % 2 && b / 4 == 2 * (b / 8) + b / 4 % 2
    ensures b / 2 == 2 * (b / 4) + b / 2 % 2 && b == 2 * (b / 2) + b % 2
  {}

  /** The bits of byte `j`. */
  lemma BitsOfByte(raw: seq<Byte>, j: nat)
    requires j < |raw|
    ensures var b, k := raw[j], 8 * j;
            && b / 4 == 32 * Bit(raw, k) + 16 * Bit(raw, k + 1) + 8 * Bit(raw, k + 2) + 4 * Bit(raw, k + 3)
               + 2 * Bit(raw, k + 4) + Bit(raw, k + 5)
            && b % 4 == 2 * Bit(raw, k + 6) + Bit(raw, k + 7)
            && b / 16 == 8 * Bit(raw, k) + 4 * Bit(raw, k + 1) + 2 * Bit(raw, k + 2) + Bit(raw, k + 3)
            && b % 16 == 8 * Bit(raw, k + 4) + 4 * Bit(raw, k + 5) + 2 * Bit(raw, k + 6) + Bit(raw, k + 7)
            && b / 64 == 2 * Bit(raw, k) + Bit(raw, k + 1)
            && b % 64 == 32 * Bit(raw, k + 2) + 16 * Bit(raw, k + 3) + 8 * Bit(raw, k + 4) + 4 * Bit(raw, k + 5)
               + 2 * Bit(raw, k + 6) + Bit(raw, k + 7)
  {
    Halvings(raw[j]);
    BitAt(raw, j);
    hide Bit;
  }

  lemma BitIs(raw: seq<Byte>, j: nat, i: nat)
    requires j < |raw| && i < 8
    ensures Bit(raw, 8 * j + i) == raw[j] / WEIGHTS[i] % 2
  {
    assert (8 * j + i) / 8 == j && (8 * j + i) % 8 == i;
  }

  lemma BitAt(raw: seq<Byte>, j: nat)
    requires j < |raw|
    ensures var b, k := raw[j], 8 * j;
            && Bit(raw, k) == b / 128 % 2 && Bit(raw, k + 1) == b / 64 % 2 && Bit(raw, k + 2) == b / 32 % 2
            && Bit(raw, k + 3) == b / 16 % 2 && Bit(raw, k + 4) == b / 8 % 2 && Bit(raw, k + 5) == b / 4 % 2
            && Bit(raw, k + 6) == b / 2 % 2 && Bit(raw, k + 7) == b % 2
  {
    hide Bit;
    BitIs(raw, j, 0);
    BitIs(raw, j, 1);
    BitIs(raw, j, 2);
    BitIs(raw, j, 3);
    BitIs(raw, j, 4);
    BitIs(raw, j, 5);
    BitIs(raw, j, 6);
    BitIs(raw, j, 7);
  }

  lemma BeyondEnd(raw: seq<Byte>, k: nat)
    requires k >= 8 * |raw|
    ensures Bit(raw, k) == 0
  {}

  lemma FirstTwoGroups(raw: seq<Byte>)
    requires raw != []
    ensures Group(raw, 0) == raw[0] / 4
    ensures Group(raw, 1) == raw[0] % 4 * 16 + if |raw| > 1 then raw[1] / 16 else 0
  {
    hide Bit;
    BitsOfByte(raw, 0);
    if |raw| > 1 {
      BitsOfByte(raw, 1);
    } else {
      BeyondEnd(raw, 8);
      BeyondEnd(raw, 9);
      BeyondEnd(raw, 10);
      BeyondEnd(raw, 11);
    }
  }

  lemma LastTwoGroups(raw: seq<Byte>)
    requires |raw| > 1
    ensures Group(raw, 2) == raw[1] % 16 * 4 + if |raw| > 2 then raw[2] / 64 else 0
    ensures |raw| > 2 ==> Group(raw, 3) == raw[2] % 64
  {
    hide Bit;
    BitsOfByte(raw, 1);
    if |raw| > 2 {
      BitsOfByte(raw, 2);
    } else {
      BeyondEnd(raw, 16);
      BeyondEnd(raw, 17);
    }
  }

  /** As many characters as there are six-bit groups, the last of which may be incomplete. */
  function Characters(raw: seq<Byte>): nat {
    (8 * |raw| + 5) / 6
  }

  lemma HeadByGroups(raw: seq<Byte>, i: nat)
    requires i < Characters(raw) && i < 4
    ensures i < |Padded(raw)| && 0 <= Group(raw, i) < 64 && Padded(raw)[i] == ToChar(Group(raw, i))
  {
    hide Group, ToChar;
    FirstTwoGroups(raw);
    if |raw| > 1 {
      LastTwoGroups(raw);
    }
  }

  lemma {:induction false} PaddedByGroups(raw: seq<Byte>, i: nat)
    requires i < Characters(raw)
    ensures i < |Padded(raw)| && 0 <= Group(raw, i) < 64 && Padded(raw)[i] == ToChar(Group(raw, i))
  {
    if i < 4 {
      HeadByGroups(raw, i);
    } else {
      LengthOfRest(raw);
      PaddedUnfold(raw);
      hide Group, Padded, Characters, ToChar, Whole;
      PaddedByGroups(raw[3..], i - 4);
      GroupOfRest(raw, i);
    }
  }

  lemma {:induction false} PaddedLength(raw: seq<Byte>)
    ensures |Padded(raw)| == Characters(raw) + PadLength(|raw|)
  {
    hide ToChar;
    if |raw| >= 3 {
      PaddedLength(raw[3..]);
      LengthOfRest(raw);
    }
  }

  lemma LengthOfRest(raw: seq<Byte>)
    requires |raw| >= 3
    ensures Characters(raw) == 4 + Characters(raw[3..]) && PadLength(|raw|) == PadLength(|raw[3..]|)
  {
    assert 8 * |raw| + 5 == (8 * |raw[3..]| + 5) + 6 * 4;
    assert |raw| % 3 == |raw[3..]| % 3;
  }

  /**
   Character `i` of an encoded text is the entry of the alphabet for the `i`-th six bits of the bytes, and
   there are just as many characters as that takes.
   */
  lemma EncodeByAlphabet(raw: seq<Byte>)
    ensures |Encode(raw)| == Characters(raw)
    ensures forall i :: 0 <= i < |Encode(raw)| ==>
              0 <= Group(raw, i) < 64 && Encode(raw)[i] == ALPHABET[Group(raw, i)]
  {
    hide Padded, Group;
    PaddedLength(raw);
    RestoredIsPadded(raw);
    forall i | 0 <= i < |Encode(raw)| ensures 0 <= Group(raw, i) < 64 && Encode(raw)[i] == ALPHABET[Group(raw, i)] {
      PaddedByGroups(raw, i);
      ToCharIsEntry(Group(raw, i));
    }
  }

  // ----- the decoder's leniency

  /** The characters of a text that the decoder does not skip. */
  function Kept(s: string): string {
    if s == "" then "" else (if FromChar(s[0]).Some? then [s[0]] else "") + Kept(s[1..])
  }

  lemma {:induction false} KeptIsClean(s: string)
    ensures forall c :: c in Kept(s) ==> FromChar(c).Some? && c in s
  {
    if s != "" {
      KeptIsClean(s[1..]);
      assert forall c :: c in s[1..] ==> c in s;
    }
  }

  lemma {:induction false} ScanSkips(s: string, tail: string, quad: nat, left: nat)
    requires '=' !in s && quad < 4 && left < LeftBound(quad)
    ensures Scan(s + tail, quad, left, 0) == Scan(Kept(s) + tail, quad, left, 0)
  {
    if s == "" {
      assert s + tail == tail && Kept(s) + tail == tail;
    } else {
      assert s[0] in s && (s + tail)[0] == s[0] && (s + tail)[1..] == s[1..] + tail;
      match FromChar(s[0])
      case None =>
        assert Kept(s) == Kept(s[1..]);
        ScanSkips(s[1..], tail, quad, left);
      case Some(v) =>
        assert (Kept(s) + tail)[0] == s[0] && (Kept(s) + tail)[1..] == Kept(s[1..]) + tail;
        if quad == 0 {
          ScanSkips(s[1..], tail, 1, v);
        } else if quad == 1 {
          ScanSkips(s[1..], tail, 2, v % 16);
        } else if quad == 2 {
          ScanSkips(s[1..], tail, 3, v % 4);
        } else {
          ScanSkips(s[1..], tail, 0, 0);
        }
    }
  }

  /** The padding that completes a group of which `quad` characters are there. */
  function Missing(quad: int): int {
    -quad % 4
  }

  lemma {:induction false} ScanRun(quad: nat, left: nat, pads: nat, n: nat)
    requires quad < 4 && left < LeftBound(quad)
    ensures Scan(Repeat('=', n), quad, left, pads)
            == if quad == 0 || (quad > 1 && n > 0 && n + pads >= Missing(quad)) then Some([]) else None
    decreases n
  {
    if n > 0 {
      assert Repeat('=', n)[1..] == Repeat('=', n - 1);
      ScanRun(quad, left, if quad >= 2 then pads + 1 else pads, n - 1);
    }
  }

  /** The state of the decoder after one more character. */
  function Quad(quad: nat): nat {
    if quad >= 3 then 0 else quad + 1
  }

  function Left(quad: nat, v: Sextet): nat {
    if quad == 0 then v else if quad == 1 then v % 16 else if quad == 2 then v % 4 else 0
  }

  lemma ScanDigit(s: string, tail: string, quad: nat, left: nat)
    requires s != "" && FromChar(s[0]).Some? && quad < 4 && left < LeftBound(quad)
    ensures var v := FromChar(s[0]).value;
            var rest := Scan(s[1..] + tail, Quad(quad), Left(quad, v), 0);
            Scan(s + tail, quad, left, 0)
            == if quad == 0 then rest
               else if quad == 1 then Emit(left * 4 + v / 16, rest)
               else if quad == 2 then Emit(left * 16 + v / 4, rest)
               else Emit(left * 64 + v, rest)
  {
    assert (s + tail)[1..] == s[1..] + tail;
  }

  lemma MissingSteps(quad: nat, n: int)
    requires quad < 4 && n > 0
    ensures Missing(Quad(quad) + (n - 1)) == Missing(quad + n)
  {}

  lemma {:induction false} ScanCompleted(s: string, quad: nat, left: nat, n: nat)
    requires (forall c :: c in s ==> FromChar(c).Some?) && quad < 4 && left < LeftBound(quad)
    ensures var m := Missing(quad + |s|);
            Scan(s + Repeat('=', n), quad, left, 0)
            == if n >= m then Scan(s + Repeat('=', m), quad, left, 0) else None
  {
    hide Scan, FromChar, Repeat;
    var m := Missing(quad + |s|);
    if s == "" {
      assert s + Repeat('=', n) == Repeat('=', n) && s + Repeat('=', m) == Repeat('=', m);
      ScanRun(quad, left, 0, n);
      ScanRun(quad, left, 0, m);
    } else {
      hide Missing, Emit;
      assert s[0] in s && (forall c :: c in s[1..] ==> c in s);
      MissingSteps(quad, |s|);
      ScanDigit(s, Repeat('=', n), quad, left);
      ScanDigit(s, Repeat('=', m), quad, left);
      ScanCompleted(s[1..], Quad(quad), Left(quad, FromChar(s[0]).value), n);
    }
  }

  /**
   Foreign characters are skipped if they are ASCII, but count when the padding is restored: an ASCII text
   without padding decodes as what is left of it without them, unless that needs more padding than the
   text as it stands.
   */
  lemma ForeignIgnored(s: string)
    requires '=' !in s
    ensures Decode(s)
            == if (exists i :: 0 <= i < |s| && s[i] > '\U{7F}') || Missing(|s|) < Missing(|Kept(s)|) then None
               else Decode(Kept(s))
  {
    hide Scan;
    var kept := Kept(s);
    KeptIsClean(s);
    ScanSkips(s, Repeat('=', Missing(|s|)), 0, 0);
    ScanCompleted(kept, 0, 0, Missing(|s|));
    if forall i :: 0 <= i < |s| ==> s[i] <= '\U{7F}' {
      forall i | 0 <= i < |kept| ensures kept[i] < 128 as char {
        assert kept[i] in kept;
      }
    }
  }
}
