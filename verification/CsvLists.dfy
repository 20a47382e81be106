/** Comma-separated header values and list claims of the identity providers. */
module CsvLists {
  import opened Text

  /** The stripped parts that are not blank. */
  function Stripped(parts: seq<string>): seq<string> {
    if parts == [] then []
    else (if Strip(parts[0]) != "" then [Strip(parts[0])] else []) + Stripped(parts[1..])
  }

  function Csv(value: string): seq<string> {
    Stripped(Split(value, ','))
  }

  /** A claim, with the parts of a list and any other value already turned into text. */
  datatype Claim = Absent | TextClaim(text: string) | ListClaim(parts: seq<string>) | OtherClaim(shown: string)

  function ClaimList(claim: Claim): seq<string> {
    match claim
    case Absent => []
    case TextClaim(text) => Csv(text)
    case ListClaim(parts) => Stripped(parts)
    case OtherClaim(shown) => if Strip(shown) != "" then [Strip(shown)] else []
  }

  /** A claim that is neither a text nor a list counts as its own only part, unless it is blank. */
  lemma OtherClaimExactly(before: string, t: string, after: string)
    requires (forall c :: c in before ==> IsSpace(c)) && (forall c :: c in after ==> IsSpace(c)) && Trimmed(t)
    ensures ClaimList(Absent) == []
    ensures ClaimList(OtherClaim(before + t + after)) == if t == "" then [] else [t]
  {
    StripPadded(before, t, after);
  }

  /** What a list of parts must look like to survive joining and splitting. */
  predicate Clean(parts: seq<string>) {
    forall p :: p in parts ==> p != "" && Trimmed(p) && ',' !in p
  }

  lemma {:induction false} StrippedConcat(a: seq<string>, b: seq<string>)
    ensures Stripped(a + b) == Stripped(a) + Stripped(b)
  {
    hide Strip;
    if a == [] {
      assert a + b == b;
    } else {
      assert (a + b)[1..] == a[1..] + b;
      StrippedConcat(a[1..], b);
    }
  }

  lemma {:induction false} StrippedClean(parts: seq<string>)
    requires Clean(parts)
    ensures Stripped(parts) == parts
  {
    if parts != [] {
      assert parts[0] in parts;
      StripOfTrimmed(parts[0]);
      assert forall p :: p in parts[1..] ==> p in parts;
      StrippedClean(parts[1..]);
    }
  }

  lemma {:induction false} StrippedShape(parts: seq<string>)
    ensures forall p :: p in Stripped(parts) ==>
            p != "" && Trimmed(p) && exists i :: 0 <= i < |parts| && p == Strip(parts[i])
  {
    hide Strip, Trimmed;
    if parts != [] {
      StrippedShape(parts[1..]);
      StripTrims(parts[0]);
      forall p | p in Stripped(parts[1..]) ensures exists i :: 0 <= i < |parts| && p == Strip(parts[i]) {
        var i :| 0 <= i < |parts[1..]| && p == Strip(parts[1..][i]);
        assert p == Strip(parts[i + 1]);
      }
    }
  }

  lemma CsvIsClean(value: string)
    ensures Clean(Csv(value))
  {
    hide Strip, Trimmed;
    var parts := Split(value, ',');
    StrippedShape(parts);
    forall p | p in Csv(value) ensures ',' !in p {
      var i :| 0 <= i < |parts| && p == Strip(parts[i]);
      StripTrims(parts[i]);
    }
  }

  /** Joining a clean list and splitting it again is the identity, for the empty list too. */
  lemma CsvOfJoin(parts: seq<string>)
    requires Clean(parts)
    ensures Csv(Join(parts, ',')) == parts
  {
    if parts == [] {
      assert Split("", ',') == [""];
      assert Strip("") == "";
    } else {
      SplitOfJoin(parts, ',');
      StrippedClean(parts);
    }
  }

  /** Whatever the text, splitting it, joining the parts and splitting again changes nothing. */
  lemma CsvIdempotent(value: string)
    ensures Csv(Join(Csv(value), ',')) == Csv(value)
  {
    CsvIsClean(value);
    CsvOfJoin(Csv(value));
  }

  // ----- a list claim and the same claim written as one text

  function CsvAll(parts: seq<string>): seq<string> {
    if parts == [] then [] else Csv(parts[0]) + CsvAll(parts[1..])
  }

  lemma {:induction false} JoinConcat(a: seq<string>, b: seq<string>, c: char)
    requires a != [] && b != []
    ensures Join(a + b, c) == Join(a, c) + [c] + Join(b, c)
  {
    assert (a + b)[1..] == a[1..] + b;
    if |a| == 1 {
      assert a[1..] + b == b;
    } else {
      JoinConcat(a[1..], b, c);
    }
  }

  lemma SplitJoined(p: string, rest: string)
    ensures Split(p + [','] + rest, ',') == Split(p, ',') + Split(rest, ',')
  {
    hide Split, Join;
    var parts := Split(p, ',') + Split(rest, ',');
    JoinOfSplit(p, ',');
    JoinOfSplit(rest, ',');
    JoinConcat(Split(p, ','), Split(rest, ','), ',');
    SplitOfJoin(parts, ',');
  }

  lemma {:induction false} CsvOfAny(parts: seq<string>)
    ensures Csv(Join(parts, ',')) == CsvAll(parts)
  {
    hide Strip, Stripped;
    if |parts| == 0 {
      CsvOfJoin([]);
    } else if |parts| == 1 {
      assert CsvAll(parts[1..]) == [];
    } else {
      CsvOfAny(parts[1..]);
      SplitJoined(parts[0], Join(parts[1..], ','));
      StrippedConcat(Split(parts[0], ','), Split(Join(parts[1..], ','), ','));
    }
  }

  lemma {:induction false} CommaFreeParts(parts: seq<string>)
    requires forall p :: p in parts ==> ',' !in p
    ensures CsvAll(parts) == Stripped(parts)
  {
    hide Strip;
    if parts != [] {
      assert parts[0] in parts;
      SplitNone(parts[0], ',');
      assert [parts[0]][1..] == [];
      CommaFreeParts(parts[1..]);
    }
  }

  /** Stripping never removes a comma. */
  lemma CommaSurvives(s: string)
    requires ',' in s
    ensures ',' in Strip(s)
  {
    LStripKeeps(s, ',');
    RStripKeeps(LStrip(s), ',');
  }

  lemma {:induction false} LStripKeeps(s: string, c: char)
    requires c in s && !IsSpace(c)
    ensures c in LStrip(s)
  {
    if IsSpace(s[0]) {
      assert s == [s[0]] + s[1..];
      LStripKeeps(s[1..], c);
    }
  }

  lemma {:induction false} RStripKeeps(s: string, c: char)
    requires c in s && !IsSpace(c)
    ensures c in RStrip(s)
  {
    if IsSpace(s[|s| - 1]) {
      assert s == s[..|s| - 1] + [s[|s| - 1]];
      RStripKeeps(s[..|s| - 1], c);
    }
  }

  lemma {:induction false} StrippedHas(parts: seq<string>, i: nat)
    requires i < |parts| && Strip(parts[i]) != ""
    ensures Strip(parts[i]) in Stripped(parts)
  {
    hide Strip;
    if i > 0 {
      StrippedHas(parts[1..], i - 1);
    }
  }

  /** A list claim means the same as its comma-separated text exactly when no part contains a comma. */
  lemma ListAndTextAgree(parts: seq<string>)
    ensures ClaimList(ListClaim(parts)) == ClaimList(TextClaim(Join(parts, ',')))
            <==> forall p :: p in parts ==> ',' !in p
  {
    hide Strip, Stripped, Csv;
    CsvOfAny(parts);
    if p :| p in parts && ',' in p {
      var i :| 0 <= i < |parts| && parts[i] == p;
      CommaSurvives(p);
      StrippedHas(parts, i);
      CsvIsClean(Join(parts, ','));
    } else {
      CommaFreeParts(parts);
    }
  }
}
