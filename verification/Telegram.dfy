/** Button callbacks and typed replies: how an inbound message is routed to a gate and decoded. */
module Telegram {
  import opened Text
  import opened GateFiles

  /** An authorised inbound message; `callback` is "" when it does not come from a button. */
  datatype Message = Message(text: string, command: string, callback: string)

  const VERBS: set<string> := {"STOP", "PAUSE", "RESUME", "STATUS", "DIRECTIVE"}
  const APPROVING: set<string> := {"APPROVE", "YES", "RUN"}
  const SKIPPING: set<string> := {"SKIP", "NO", "DEFER"}

  function Word(option: Verdict): string {
    match option
    case Approve => "approve"
    case Skip => "skip"
    case Stop => "stop"
  }

  /** The option a surface asks for: case and surrounding white space do not matter. */
  function ParseOption(raw: string): Option<Verdict> {
    var text := Strip(ToLower(raw));
    if text == "approve" then Some(Approve)
    else if text == "skip" then Some(Skip)
    else if text == "stop" then Some(Stop)
    else None
  }

  /** A stored option as its readers take it: letter case does not matter, white space does. */
  function FieldOf(raw: string): Field {
    var text := ToLower(raw);
    if text == "" then Missing
    else if text == "approve" then Known(Approve)
    else if text == "skip" then Known(Skip)
    else if text == "stop" then Known(Stop)
    else Unknown
  }

  /** The leading run of characters that do not satisfy the separator test. */
  function UpTo(s: string, separator: char -> bool): (r: string)
    ensures r <= s
  {
    if s == "" || separator(s[0]) then "" else [s[0]] + UpTo(s[1..], separator)
  }

  predicate IsBlank(c: char) { c == ' ' }

  predicate IsColon(c: char) { c == ':' }

  function Normal(word: string): string {
    RStripChar(RStripChar(ToUpper(word), ':'), '.')
  }

  /** The command an inbound text is filed under. */
  function Classify(text: string): string {
    var head := Normal(UpTo(Strip(text), IsBlank));
    if head in VERBS then head else "DIRECTIVE"
  }

  lemma ParseOptionOfWord(option: Verdict)
    ensures ParseOption(Word(option)) == Some(option)
  {
    var w := Word(option);
    assert ToLower(w) == w;
    StripOfTrimmed(w);
  }

  /** An option a surface asks for is one of the three words, in any case and with white space around it. */
  lemma ParseOptionExactly(before: string, word: string, after: string, option: Verdict)
    requires (forall c :: c in before ==> IsSpace(c)) && (forall c :: c in after ==> IsSpace(c)) && Trimmed(word)
    ensures ParseOption(before + word + after) == Some(option)
            <==> ToLower(word) == match option case Approve => "approve" case Skip => "skip" case Stop => "stop"
  {
    var raw := before + word + after;
    var low := ToLower(before) + ToLower(word) + ToLower(after);
    assert ToLower(raw) == low;
    LowerKeepsTrim(word);
    LowerKeepsSpace(before);
    LowerKeepsSpace(after);
    hide IsSpace, Trimmed, Strip;
    StripPadded(ToLower(before), ToLower(word), ToLower(after));
  }

  lemma LowerKeepsSpace(pad: string)
    requires forall c :: c in pad ==> IsSpace(c)
    ensures forall c :: c in ToLower(pad) ==> IsSpace(c)
  {
    forall c | c in ToLower(pad) ensures IsSpace(c) {
      var i :| 0 <= i < |pad| && ToLower(pad)[i] == c;
      assert pad[i] in pad;
    }
  }

  lemma LowerKeepsTrim(word: string)
    requires Trimmed(word)
    ensures Trimmed(ToLower(word))
  {
    assert ToLower(word) == "" <==> word == "";
  }

  /** A stored option is missing if empty, known if it is one of the three words in any case, else unknown. */
  lemma FieldExactly(raw: string, option: Verdict)
    ensures FieldOf(raw) == Missing <==> raw == ""
    ensures FieldOf(raw) == Known(option)
            <==> ToLower(raw) == match option case Approve => "approve" case Skip => "skip" case Stop => "stop"
  {
    assert ToLower(raw) == "" <==> raw == "";
  }

  // ----- buttons

  function Short(g: GateId): string {
    Last(g, 32)
  }

  function CallbackData(action: Verdict, g: GateId): string {
    Word(action) + [':'] + Short(g)
  }

  function ParseCallback(data: string): Message {
    CutAtColon(Strip(data))
  }

  function CutAtColon(d: string): Message {
    var head := UpTo(d, IsColon);
    var action := ToUpper(head);
    Message(action, Classify(action), if |head| < |d| then d[|head| + 1..] else "")
  }

  // ----- routing and decoding

  /** A message is honoured for `g` unless it names a gate by a suffix that `g` does not have. */
  predicate Routes(m: Message, g: GateId) {
    m.callback == "" || m.callback == Short(g) || EndsWith(g, m.callback)
  }

  function DecodeToken(command: string, token: string): Option<Verdict> {
    if command == "STOP" || token == "STOP" then Some(Stop)
    else if token in APPROVING then Some(Approve)
    else if token in SKIPPING then Some(Skip)
    else None
  }

  /** The option a message stands for, if any. */
  function Decode(m: Message): Option<Verdict> {
    DecodeToken(ToUpper(m.command), Normal(UpTo(Strip(m.text), IsSpace)))
  }

  function Decision(m: Message, g: GateId): Option<Verdict> {
    if Routes(m, g) then Decode(m) else None
  }

  function Decisions(messages: seq<Message>, g: GateId): (ds: seq<Option<Verdict>>)
    ensures |ds| == |messages|
    ensures forall i :: 0 <= i < |ds| ==> ds[i] == Decision(messages[i], g)
  {
    seq(|messages|, i requires 0 <= i < |messages| => Decision(messages[i], g))
  }

  function FirstSome<T>(ds: seq<Option<T>>): Option<T> {
    if ds == [] then None else if ds[0].Some? then ds[0] else FirstSome(ds[1..])
  }

  /** `FirstSome` is None when nothing is decided, and otherwise the entry before which nothing is. */
  lemma {:induction false} FirstSomeIsFirst<T>(ds: seq<Option<T>>)
    ensures FirstSome(ds).None? <==> forall i :: 0 <= i < |ds| ==> ds[i].None?
    ensures forall i :: 0 <= i < |ds| && ds[i].Some? && (forall j :: 0 <= j < i ==> ds[j].None?) ==>
            FirstSome(ds) == ds[i]
  {
    if ds != [] && ds[0].None? {
      FirstSomeIsFirst(ds[1..]);
      assert forall i :: 0 < i < |ds| ==> ds[i] == ds[1..][i - 1];
      forall i | 0 <= i < |ds| && ds[i].Some? && (forall j :: 0 <= j < i ==> ds[j].None?)
        ensures FirstSome(ds) == ds[i]
      {
        assert forall j :: 0 <= j < i - 1 ==> ds[1..][j] == ds[j + 1];
      }
    }
  }

  /** The decision a polled batch yields while waiting on `g`. */
  function FirstDecision(messages: seq<Message>, g: GateId): Option<Verdict> {
    FirstSome(Decisions(messages, g))
  }

  /** The short form of the waited gate is always one of its own suffixes. */
  lemma CallbackRoutesBySuffix(m: Message, g: GateId)
    requires m.callback != ""
    ensures Routes(m, g) <==> EndsWith(g, m.callback)
  {
    assert g[|g| - |g|..] == g;
  }

  lemma {:induction false} UpToClean(s: string, rest: string, separator: char -> bool)
    requires forall c :: c in s ==> !separator(c)
    requires rest == "" || separator(rest[0])
    ensures UpTo(s + rest, separator) == s
  {
    if s == "" {
      assert s + rest == rest;
    } else {
      assert (s + rest)[1..] == s[1..] + rest;
      UpToClean(s[1..], rest, separator);
    }
  }

  lemma UpperOf(s: string, t: string)
    requires |s| == |t| && forall i :: 0 <= i < |s| ==> UpperChar(s[i]) == t[i]
    ensures ToUpper(s) == t
  {}

  predicate PlainWord(s: string) {
    s != "" && forall i :: 0 <= i < |s| ==> 'A' <= s[i] <= 'Z'
  }

  /** A plain upper-case word is its own first token. */
  lemma PlainWordDecodes(s: string)
    requires PlainWord(s)
    ensures Normal(UpTo(Strip(s), IsSpace)) == s
    ensures Normal(UpTo(Strip(s), IsBlank)) == s
  {
    StripOfTrimmed(s);
    UpToClean(s, "", IsSpace);
    UpToClean(s, "", IsBlank);
    assert s + "" == s;
    UpperOf(s, s);
  }

  /** `upper` is the upper-case form of the lower-case word `word`. */
  predicate CasePair(word: string, upper: string) {
    && PlainWord(upper) && |word| == |upper|
    && forall i :: 0 <= i < |word| ==> 'a' <= word[i] <= 'z' && UpperChar(word[i]) == upper[i]
  }

  lemma ClassifyWord(upper: string)
    requires PlainWord(upper)
    ensures Classify(upper) == if upper in VERBS then upper else "DIRECTIVE"
  {
    PlainWordDecodes(upper);
  }

  /** Callback data without a colon names no gate, so it is honoured for whichever is waited on. */
  lemma ColonlessCallback(data: string, g: GateId)
    requires ':' !in data
    ensures ParseCallback(data).callback == "" && Routes(ParseCallback(data), g)
    ensures ParseCallback(data).text == ToUpper(Strip(data))
  {
    var d := Strip(data);
    StripTrims(data);
    UpToClean(d, "", IsColon);
    assert d + "" == d;
  }

  /** The transport cuts callback data at its first colon. */
  lemma CallbackCut(word: string, tail: string)
    requires forall i :: 0 <= i < |word| ==> word[i] != ':'
    ensures CutAtColon(word + [':'] + tail) == Message(ToUpper(word), Classify(ToUpper(word)), tail)
  {
    var d := word + [':'] + tail;
    assert d == word + ([':'] + tail);
    UpToClean(word, [':'] + tail, IsColon);
    assert d[|word| + 1..] == tail;
  }

  lemma ButtonTrimmed(word: string, upper: string, g: GateId)
    requires ValidGateId(g) && CasePair(word, upper)
    ensures Trimmed(word + [':'] + Short(g))
  {
    var data := word + [':'] + Short(g);
    var last := Short(g)[|Short(g)| - 1];
    assert last == g[|g| - 1] && last in g;
    assert IsGateIdChar(last);
    assert data[|data| - 1] == last && data[0] == word[0];
  }

  lemma ButtonText(word: string, upper: string, g: GateId)
    requires ValidGateId(g) && CasePair(word, upper)
    ensures ParseCallback(word + [':'] + Short(g)) == Message(upper, Classify(upper), Short(g))
  {
    ButtonTrimmed(word, upper, g);
    StripOfTrimmed(word + [':'] + Short(g));
    CallbackCut(word, Short(g));
    UpperOf(word, upper);
  }

  /** `upper` is the word the transport makes of the button's action, filed under `command`. */
  predicate ActionWord(action: Verdict, upper: string, command: string) {
    && CasePair(Word(action), upper) && PlainWord(command)
    && command == (if upper in VERBS then upper else "DIRECTIVE")
    && DecodeToken(command, upper) == Some(action)
  }

  lemma ApproveWord()
    ensures ActionWord(Approve, "APPROVE", "DIRECTIVE")
  {}

  lemma SkipWord()
    ensures ActionWord(Skip, "SKIP", "DIRECTIVE")
  {}

  lemma StopWord()
    ensures ActionWord(Stop, "STOP", "STOP")
  {}

  lemma WordDecodes(word: string, command: string, callback: string)
    requires PlainWord(word) && PlainWord(command)
    ensures Decode(Message(word, command, callback)) == DecodeToken(command, word)
  {
    PlainWordDecodes(word);
    UpperOf(command, command);
  }

  // ----- typed replies

  /** A word without white space whose last character is neither a dot nor a colon; it may be empty. */
  predicate BareWord(word: string) {
    (forall c :: c in word ==> !IsSpace(c)) && (word != "" ==> word[|word| - 1] != '.' && word[|word| - 1] != ':')
  }

  /** A word with any dots and then any colons after it is normalised to the upper-case word. */
  lemma PunctuatedWord(word: string, dots: nat, colons: nat)
    requires BareWord(word) && (word == "" ==> dots > 0 || colons == 0)
    ensures Normal(word + Repeat('.', dots) + Repeat(':', colons)) == ToUpper(word)
  {
    var upper := ToUpper(word);
    var dotted := upper + Repeat('.', dots);
    UpperOf(word + Repeat('.', dots) + Repeat(':', colons), dotted + Repeat(':', colons));
    if dots > 0 {
      assert dotted[|dotted| - 1] == '.';
    }
    RStripCharRun(dotted, ':', colons);
    RStripCharRun(upper, '.', dots);
  }

  lemma FirstToken(pad: string, token: string, rest: string)
    requires forall c :: c in pad ==> IsSpace(c)
    requires token != "" && forall c :: c in token ==> !IsSpace(c)
    requires rest == "" || IsSpace(rest[0])
    ensures Strip(pad + token + rest) == token + RStrip(rest)
    ensures UpTo(Strip(pad + token + rest), IsSpace) == token
  {
    hide RStrip, LStrip, UpTo, IsSpace;
    assert token[0] in token && token[|token| - 1] in token;
    assert (token + rest)[0] == token[0];
    assert pad + token + rest == pad + (token + rest);
    LStripPadding(pad, token + rest);
    RStripAppend(token, rest);
    RStripIsPrefix(rest);
    UpToClean(token, RStrip(rest), IsSpace);
  }

  /** A text whose first word is `word`, with any dots followed by any colons at its end. */
  predicate Replies(text: string, pad: string, word: string, dots: nat, colons: nat, rest: string) {
    && (forall c :: c in pad ==> IsSpace(c))
    && BareWord(word) && (word == "" ==> dots > 0) && (rest == "" || IsSpace(rest[0]))
    && text == pad + (word + Repeat('.', dots) + Repeat(':', colons)) + rest
  }

  lemma ReplyToken(text: string, pad: string, word: string, dots: nat, colons: nat, rest: string)
    requires Replies(text, pad, word, dots, colons, rest)
    ensures var token := word + Repeat('.', dots) + Repeat(':', colons);
            && UpTo(Strip(text), IsSpace) == token && Normal(token) == ToUpper(word)
            && Strip(text) == token + RStrip(rest) && token != "" && forall c :: c in token ==> !IsSpace(c)
  {
    var token := word + Repeat('.', dots) + Repeat(':', colons);
    forall i | 0 <= i < |token| ensures !IsSpace(token[i]) {
      if i < |word| {
        assert word[i] in word;
      }
    }
    assert forall c :: c in token ==> !IsSpace(c);
    hide IsSpace;
    FirstToken(pad, token, rest);
    PunctuatedWord(word, dots, colons);
  }

  /**
   A typed reply decodes by its command and its first word alone, in any case, after any white space, and
   with any dots followed by any colons at its end. STOP goes before everything else.
   */
  lemma TypedReplyDecodes(m: Message, pad: string, word: string, dots: nat, colons: nat, rest: string)
    requires Replies(m.text, pad, word, dots, colons, rest)
    ensures var d, command, upper := Decode(m), ToUpper(m.command), ToUpper(word);
            && (d == Some(Stop) <==> command == "STOP" || upper == "STOP")
            && (d == Some(Approve)
                <==> command != "STOP" && (upper == "APPROVE" || upper == "YES" || upper == "RUN"))
            && (d == Some(Skip) <==> command != "STOP" && (upper == "SKIP" || upper == "NO" || upper == "DEFER"))
  {
    hide Replies, UpTo, Strip, Normal;
    ReplyToken(m.text, pad, word, dots, colons, rest);
  }

  /** An inbound text; the transport files it under a command. */
  function Typed(text: string): Message {
    Message(text, Classify(text), "")
  }

  lemma {:induction false} RStripCharKeeps(s: string, c: char, kept: char)
    requires kept in s && kept != c
    ensures kept in RStripChar(s, c)
  {
    if s[|s| - 1] == c {
      assert s == s[..|s| - 1] + [c];
      RStripCharKeeps(s[..|s| - 1], c, kept);
    }
  }

  lemma {:induction false} UpToReaches(s: string, separator: char -> bool, i: nat)
    requires i < |s| && forall j :: 0 <= j <= i ==> !separator(s[j])
    ensures s[i] in UpTo(s, separator)
  {
    if i > 0 {
      UpToReaches(s[1..], separator, i - 1);
    }
  }

  /** The transport looks for its commands before the first blank, which may be later than the first word. */
  lemma CommandIsFirstWord(text: string, pad: string, word: string, dots: nat, colons: nat, rest: string)
    requires Replies(text, pad, word, dots, colons, rest)
    ensures Classify(text) == "STOP" ==> ToUpper(word) == "STOP"
  {
    hide Replies, RStrip, Strip, UpTo, Normal, IsSpace, RStripChar;
    ReplyToken(text, pad, word, dots, colons, rest);
    var token, tail := word + Repeat('.', dots) + Repeat(':', colons), RStrip(rest);
    RStripIsPrefix(rest);
    assert tail != "" ==> IsSpace(tail[0]) by { ReplyRest(text, pad, word, dots, colons, rest); }
    assert forall c :: c in token ==> !IsBlank(c) by { BlankIsSpace(); }
    if tail == "" || IsBlank(tail[0]) {
      UpToClean(token, tail, IsBlank);
    } else {
      assert forall j :: 0 <= j < |token| ==> token[j] in token;
      UpToReaches(token + tail, IsBlank, |token|);
      SpaceStays(UpTo(token + tail, IsBlank), tail[0]);
      StopHasNoSpace(Normal(UpTo(token + tail, IsBlank)), tail[0]);
    }
    assert Classify(text) == "STOP" ==> Normal(UpTo(Strip(text), IsBlank)) == "STOP";
  }

  lemma ReplyRest(text: string, pad: string, word: string, dots: nat, colons: nat, rest: string)
    requires Replies(text, pad, word, dots, colons, rest)
    ensures rest == "" || IsSpace(rest[0])
  {}

  lemma BlankIsSpace()
    ensures forall c :: IsBlank(c) ==> IsSpace(c)
  {}

  lemma SpaceStays(head: string, c: char)
    requires c in head && IsSpace(c)
    ensures c in Normal(head)
  {
    var i :| 0 <= i < |head| && head[i] == c;
    assert ToUpper(head)[i] == c;
    RStripCharKeeps(ToUpper(head), ':', c);
    RStripCharKeeps(RStripChar(ToUpper(head), ':'), '.', c);
  }

  lemma StopHasNoSpace(s: string, c: char)
    requires c in s && IsSpace(c)
    ensures s != "STOP"
  {}

  /** What a typed reply means for whatever gate is waited on: the command adds nothing to the first word. */
  lemma TypedReplyMeans(text: string, g: GateId, pad: string, word: string, dots: nat, colons: nat, rest: string)
    requires Replies(text, pad, word, dots, colons, rest)
    ensures var d, upper := Decision(Typed(text), g), ToUpper(word);
            && (d == Some(Stop) <==> upper == "STOP")
            && (d == Some(Approve) <==> upper == "APPROVE" || upper == "YES" || upper == "RUN")
            && (d == Some(Skip) <==> upper == "SKIP" || upper == "NO" || upper == "DEFER")
  {
    hide Classify;
    CommandIsFirstWord(text, pad, word, dots, colons, rest);
    CommandIsPlain(text);
    TypedReplyDecodes(Typed(text), pad, word, dots, colons, rest);
  }

  lemma CommandIsPlain(text: string)
    ensures ToUpper(Classify(text)) == Classify(text)
  {
    UpperOf(Classify(text), Classify(text));
  }

  /** The transport's command is the text before the first blank if that is one of four words, in any case. */
  lemma CommandExactly(text: string, pad: string, word: string, dots: nat, colons: nat, rest: string)
    requires Replies(text, pad, word, dots, colons, rest) && (rest == "" || rest[0] == ' ')
    ensures var upper := ToUpper(word);
            Classify(text)
            == if upper == "STOP" || upper == "PAUSE" || upper == "RESUME" || upper == "STATUS" then upper
               else "DIRECTIVE"
  {
    hide Replies, RStrip, Strip, UpTo, Normal, IsSpace, RStripChar, Repeat;
    ReplyToken(text, pad, word, dots, colons, rest);
    var token, tail := word + Repeat('.', dots) + Repeat(':', colons), RStrip(rest);
    RStripIsPrefix(rest);
    assert forall c :: c in token ==> !IsBlank(c) by { BlankIsSpace(); }
    UpToClean(token, tail, IsBlank);
  }

  /** A reply without any word means nothing. */
  lemma BlankReply(text: string, g: GateId)
    requires forall c :: c in text ==> IsSpace(c)
    ensures Decision(Typed(text), g).None?
  {
    LStripPadding(text, "");
    assert text + "" == text;
    assert Normal("") == "";
    UpperOf("DIRECTIVE", "DIRECTIVE");
  }

  // ----- buttons reach their own gate

  lemma ButtonDecision(action: Verdict, upper: string, command: string, g: GateId, other: GateId)
    requires ValidGateId(g) && ActionWord(action, upper, command)
    ensures var m := ParseCallback(CallbackData(action, g));
            && Decision(m, g) == Some(action)
            && (Routes(m, other) <==> EndsWith(other, Short(g)))
  {
    var m := ParseCallback(CallbackData(action, g));
    ButtonText(Word(action), upper, g);
    ClassifyWord(upper);
    WordDecodes(upper, command, Short(g));
    CallbackRoutesBySuffix(m, g);
    CallbackRoutesBySuffix(m, other);
  }

  /**
   A button built for `g` carries the gate's short form within the transport's 64-byte limit,
   decodes to its own option, is honoured when `g` is waited on, and is honoured for another
   gate exactly when that gate ends in the same short form.
   */
  lemma ButtonReachesItsGate(action: Verdict, g: GateId, other: GateId)
    requires ValidGateId(g)
    ensures |CallbackData(action, g)| <= 64
    ensures |Short(g)| == (if |g| < 32 then |g| else 32) && EndsWith(g, Short(g))
    ensures var m := ParseCallback(CallbackData(action, g));
            && Decision(m, g) == Some(action)
            && (Routes(m, other) <==> EndsWith(other, Short(g)))
  {
    hide ActionWord;
    match action
    case Approve =>
      ApproveWord();
      ButtonDecision(action, "APPROVE", "DIRECTIVE", g, other);
    case Skip =>
      SkipWord();
      ButtonDecision(action, "SKIP", "DIRECTIVE", g, other);
    case Stop =>
      StopWord();
      ButtonDecision(action, "STOP", "STOP", g, other);
  }

  /** Gates that differ in their last twelve characters never take each other's buttons. */
  lemma ButtonMissesOtherGates(action: Verdict, g: GateId, other: GateId)
    requires ValidGateId(g)
    requires |g| >= 12 && |other| >= 12 && Last(g, 12) != Last(other, 12)
    ensures Decision(ParseCallback(CallbackData(action, g)), other).None?
  {
    ButtonReachesItsGate(action, g, other);
    OtherSuffix(g, other);
  }

  lemma OtherSuffix(g: GateId, other: GateId)
    requires |g| >= 12 && |other| >= 12 && Last(g, 12) != Last(other, 12)
    ensures !EndsWith(other, Short(g))
  {
    SuffixOfSuffix(g, Short(g), 12);
    if EndsWith(other, Short(g)) {
      SuffixOfSuffix(other, Short(g), 12);
      assert false;
    }
  }

  lemma SuffixOfSuffix(s: string, t: string, n: nat)
    requires EndsWith(s, t)
    ensures n <= |t| ==> Last(s, n) == Last(t, n)
  {
    if n <= |t| {
      assert s[|s| - |t|..][|t| - n..] == s[|s| - n..];
    }
  }

  // ----- what becomes of the other messages of a batch

  function Without(messages: seq<Message>, i: nat): (rest: seq<Message>)
    requires i < |messages|
    ensures |rest| == |messages| - 1
  {
    messages[..i] + messages[i + 1..]
  }

  /** Message `i` is the one that decides the batch. */
  predicate Decides(messages: seq<Message>, g: GateId, i: nat)
    requires i < |messages|
  {
    Decision(messages[i], g).Some? && forall j :: 0 <= j < i ==> Decision(messages[j], g).None?
  }

  lemma DecisionsSplit(messages: seq<Message>, i: nat, g: GateId)
    requires i < |messages|
    ensures Decisions(messages, g)
            == Decisions(messages[..i], g) + [Decision(messages[i], g)] + Decisions(messages[i + 1..], g)
    ensures Decisions(Without(messages, i), g) == Decisions(messages[..i], g) + Decisions(messages[i + 1..], g)
  {}

  lemma {:induction false} FirstSomeConcat<T>(a: seq<Option<T>>, b: seq<Option<T>>)
    ensures FirstSome(a + b) == if FirstSome(a).Some? then FirstSome(a) else FirstSome(b)
  {
    if a == [] {
      assert a + b == b;
    } else {
      assert (a + b)[1..] == a[1..] + b;
      FirstSomeConcat(a[1..], b);
    }
  }

  /** A polled message either decides the batch or leaves it as if it had never been sent. */
  lemma DecidesOrLost(messages: seq<Message>, g: GateId, i: nat)
    requires i < |messages|
    ensures if Decides(messages, g, i) then FirstDecision(messages, g) == Decision(messages[i], g)
            else FirstDecision(messages, g) == FirstDecision(Without(messages, i), g)
  {
    hide Decision;
    var before, here, after := Decisions(messages[..i], g), [Decision(messages[i], g)], Decisions(messages[i + 1..], g);
    DecisionsSplit(messages, i, g);
    FirstSomeConcat(before + here, after);
    FirstSomeConcat(before, here);
    FirstSomeConcat(before, after);
    FirstSomeIsFirst(before);
    FirstSomeIsFirst(here);
    assert Decides(messages, g, i) <==> here[0].Some? && forall j :: 0 <= j < |before| ==> before[j].None?;
  }

  /**
   A press of a button of gate `h` decides a wait on `g` exactly if `g` ends in `h`'s short form and
   nothing earlier decides it.
   */
  lemma PressDecidesExactly(messages: seq<Message>, i: nat, action: Verdict, h: GateId, g: GateId)
    requires i < |messages| && ValidGateId(h) && messages[i] == ParseCallback(CallbackData(action, h))
    ensures Decides(messages, g, i)
            <==> EndsWith(g, Short(h)) && forall j :: 0 <= j < i ==> Decision(messages[j], g).None?
    ensures Decides(messages, g, i) ==> Decision(messages[i], g) == Some(action)
  {
    hide Decode, Routes, EndsWith, ParseCallback, CallbackData, ValidGateId;
    ButtonReachesItsGate(action, h, g);
    RoutedDecision(messages[i], g, h);
  }

  lemma RoutedDecision(m: Message, g: GateId, h: GateId)
    requires Decision(m, h).Some?
    ensures Decision(m, g) == if Routes(m, g) then Decision(m, h) else None
  {}
}
