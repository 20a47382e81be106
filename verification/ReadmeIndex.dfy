/** Rewriting the generated index block of a README between its two markers. */
module ReadmeIndex {
  import opened Text

  datatype Markers = Markers(start: string, end: string)

  const README := Markers("<!-- AUTO-INDEX:START", "<!-- AUTO-INDEX:END -->")

  /** Markers are single visible lines. */
  predicate Sensible(m: Markers) {
    && m.start != "" && m.end != "" && '\n' !in m.start && '\n' !in m.end
    && !IsSpace(m.end[|m.end| - 1])
  }

  /** The first occurrence of `p` at or after `from`. */
  function Find(s: string, p: string, from: nat): (r: Option<nat>)
    ensures r.Some? ==> r.value >= from && At(s, p, r.value)
    decreases |s| - from
  {
    if from + |p| > |s| then None
    else if At(s, p, from) then Some(from)
    else Find(s, p, from + 1)
  }

  /** None stands for the exception raised when the start marker or the end of its line is missing. */
  function ReplaceBlock(m: Markers, text: string, index: string): Option<string> {
    match Find(text, m.start, 0)
    case None => None
    case Some(startAt) =>
      match Find(text, "\n", startAt)
      case None => None
      case Some(lineEnd) =>
        var suffix := match Find(text, m.end, startAt)
                      case Some(e) => text[e + |m.end|..]
                      case None => "";
        Some(text[..lineEnd + 1] + "\n" + index + "\n\n" + m.end + suffix)
  }

  /** What happens to one README: left alone without a start marker, rewritten and trimmed otherwise. */
  function Refresh(m: Markers, text: string, index: string): Option<string> {
    if Find(text, m.start, 0).None? then Some(text)
    else
      match ReplaceBlock(m, text, index)
      case None => None
      case Some(r) => Some(RStrip(r) + "\n")
  }

  // ----- searching

  lemma {:induction false} FindFirst(s: string, p: string, from: nat, i: nat)
    requires from <= i && At(s, p, i) && forall k :: from <= k < i ==> !At(s, p, k)
    ensures Find(s, p, from) == Some(i)
    decreases i - from
  {
    if from < i {
      assert !At(s, p, from);
      FindFirst(s, p, from + 1, i);
    }
  }

  lemma {:induction false} FindBefore(s: string, p: string, from: nat)
    ensures forall k :: from <= k && At(s, p, k) ==> Find(s, p, from).Some? && Find(s, p, from).value <= k
    decreases |s| - from
  {
    if from + |p| <= |s| && !At(s, p, from) {
      FindBefore(s, p, from + 1);
      assert forall k :: from <= k && At(s, p, k) ==> k != from;
    }
  }

  lemma AtPrefix(a: string, b: string, p: string, i: nat)
    requires i + |p| <= |a|
    ensures At(a, p, i) <==> At(a + b, p, i)
  {
    assert (a + b)[i..i + |p|] == a[i..i + |p|];
  }

  /** A first occurrence inside a prefix is the first occurrence in every text with that prefix. */
  lemma FindInPrefix(a: string, b: string, c: string, p: string, from: nat, i: nat)
    requires Find(a + b, p, from) == Some(i) && i + |p| <= |a|
    ensures Find(a + c, p, from) == Some(i)
  {
    AtPrefix(a, b, p, i);
    AtPrefix(a, c, p, i);
    FindBefore(a + b, p, from);
    forall k | from <= k < i ensures !At(a + c, p, k) {
      AtPrefix(a, b, p, k);
      AtPrefix(a, c, p, k);
    }
    FindFirst(a + c, p, from, i);
  }

  /** An occurrence of a text without line feeds does not stretch across one. */
  lemma NotAcross(s: string, p: string, i: nat)
    requires At(s, p, i) && '\n' !in p
    ensures forall k :: i <= k < i + |p| ==> s[k] != '\n'
  {
    forall k | i <= k < i + |p| ensures s[k] != '\n' {
      assert s[i..i + |p|][k - i] == s[k];
      assert p[k - i] in p;
    }
  }

  // ----- the shape of a rewritten text

  /** `text` has a start marker at `startAt` on a line that ends at `lineEnd`. */
  predicate HasBlock(m: Markers, text: string, startAt: nat, lineEnd: nat) {
    Find(text, m.start, 0) == Some(startAt) && Find(text, "\n", startAt) == Some(lineEnd)
  }

  function Suffix(m: Markers, text: string, startAt: nat): string {
    match Find(text, m.end, startAt)
    case Some(e) => text[e + |m.end|..]
    case None => ""
  }

  /** A kept head, the index between the markers' lines, and a tail. */
  function Assemble(m: Markers, head: string, index: string, tail: string): string {
    head + ("\n" + index + "\n\n" + m.end + tail)
  }

  /** Where the end marker stands in a rewritten text. */
  function EndAt(lineEnd: nat, index: string): nat {
    lineEnd + 1 + 1 + |index| + 2
  }

  lemma AssembleParts(m: Markers, head: string, index: string, tail: string)
    requires |head| > 0
    ensures var r := Assemble(m, head, index, tail);
            var e := EndAt(|head| - 1, index);
            && |r| == e + |m.end| + |tail| && e == |head| + 3 + |index|
            && r[..|head|] == head && r[|head|] == '\n' && r[e - 2] == '\n' && r[e - 1] == '\n'
            && r[|head| + 1..e - 2] == index
            && r[e..e + |m.end|] == m.end && r[e + |m.end|..] == tail
  {}

  lemma ReplaceBlockShape(m: Markers, text: string, index: string, startAt: nat, lineEnd: nat)
    requires HasBlock(m, text, startAt, lineEnd)
    ensures ReplaceBlock(m, text, index)
            == Some(text[..lineEnd + 1] + "\n" + index + "\n\n" + m.end + Suffix(m, text, startAt))
  {}

  lemma RegroupBlock(m: Markers, head: string, index: string, tail: string)
    ensures head + "\n" + index + "\n\n" + m.end + tail + "\n" == Assemble(m, head, index, tail + "\n")
  {}

  /**
   A rewritten README keeps every character up to the end of the start line, then has the index, the
   end marker and the old suffix up to trailing white space.
   */
  lemma RefreshShape(m: Markers, text: string, index: string, startAt: nat, lineEnd: nat)
    requires Sensible(m) && HasBlock(m, text, startAt, lineEnd)
    ensures Refresh(m, text, index)
              == Some(Assemble(m, text[..lineEnd + 1], index, RStrip(Suffix(m, text, startAt)) + "\n"))
  {
    hide Find, ReplaceBlock, Suffix, Assemble, RStrip;
    var front := text[..lineEnd + 1] + "\n" + index + "\n\n";
    var suffix := Suffix(m, text, startAt);
    assert (front + m.end)[|front + m.end| - 1] == m.end[|m.end| - 1];
    RStripAppend(front + m.end, suffix);
    ReplaceBlockShape(m, text, index, startAt, lineEnd);
    RegroupBlock(m, text[..lineEnd + 1], index, RStrip(suffix));
  }

  lemma LineEnds(m: Markers, text: string, startAt: nat, lineEnd: nat)
    requires Sensible(m) && HasBlock(m, text, startAt, lineEnd)
    ensures lineEnd < |text| && text[lineEnd] == '\n' && startAt + |m.start| <= lineEnd
  {
    assert text[lineEnd..lineEnd + 1] == "\n";
    NotAcross(text, m.start, startAt);
  }

  /** The rewritten text still has its block at the same place. */
  lemma BlockStays(m: Markers, text: string, index: string, tail: string, startAt: nat, lineEnd: nat)
    requires Sensible(m) && HasBlock(m, text, startAt, lineEnd)
    ensures HasBlock(m, Assemble(m, text[..lineEnd + 1], index, tail), startAt, lineEnd)
  {
    var head := text[..lineEnd + 1];
    var rest := text[lineEnd + 1..];
    LineEnds(m, text, startAt, lineEnd);
    assert head + rest == text;
    hide Find;
    FindInPrefix(head, rest, "\n" + index + "\n\n" + m.end + tail, m.start, 0, startAt);
    FindInPrefix(head, rest, "\n" + index + "\n\n" + m.end + tail, "\n", startAt, lineEnd);
  }

  /** Neither the start line from its marker on nor the index contains an end marker. */
  predicate NoEndInside(m: Markers, text: string, index: string, startAt: nat, lineEnd: nat)
    requires startAt <= lineEnd <= |text|
  {
    !Contains(text[startAt..lineEnd], m.end) && !Contains(index, m.end)
  }

  /** An occurrence inside a slice is an occurrence in the whole text. */
  lemma AtInSlice(s: string, a: nat, b: nat, p: string, i: nat)
    requires a <= b <= |s| && i + |p| <= b - a
    ensures At(s[a..b], p, i) <==> At(s, p, a + i)
  {
    var inner := s[a..b][i..i + |p|];
    var outer := s[a + i..a + i + |p|];
    forall x | 0 <= x < |p| ensures inner[x] == outer[x] {
      assert inner[x] == s[a..b][i + x];
    }
    assert inner == outer;
  }

  lemma AtFits(s: string, p: string, i: int)
    requires At(s, p, i)
    ensures 0 <= i && i + |p| <= |s|
  {}

  lemma ContainsAt(s: string, p: string)
    ensures forall i :: At(s, p, i) ==> Contains(s, p)
    ensures Contains(s, p) ==> exists i :: At(s, p, i)
  {
    if Contains(s, p) {
      var i :| 0 <= i <= |s| - |p| && At(s, p, i);
    }
  }

  /** The places of the end marker before the rewriter's own are those on the start line and in the index. */
  lemma LineOccurrence(m: Markers, text: string, index: string, tail: string, startAt: nat, lineEnd: nat, k: nat)
    requires startAt <= k <= lineEnd < |text| && k + |m.end| <= lineEnd
    ensures At(text[startAt..lineEnd], m.end, k - startAt)
            <==> At(Assemble(m, text[..lineEnd + 1], index, tail), m.end, k)
  {
    var head := text[..lineEnd + 1];
    var r := Assemble(m, head, index, tail);
    AssembleHead(m, head, index, tail);
    hide Assemble, At, EndAt;
    AtInSlice(r, 0, |head|, m.end, k);
    assert r[0..|head|] == head == text[0..lineEnd + 1];
    AtInSlice(text, 0, lineEnd + 1, m.end, k);
    AtInSlice(text, startAt, lineEnd, m.end, k - startAt);
  }

  lemma IndexOccurrence(m: Markers, head: string, index: string, tail: string, j: nat)
    requires |head| > 0 && j + |m.end| <= |index|
    ensures At(index, m.end, j) <==> At(Assemble(m, head, index, tail), m.end, |head| + 1 + j)
  {
    AssembleParts(m, head, index, tail);
    hide Assemble, At;
    AtInSlice(Assemble(m, head, index, tail), |head| + 1, EndAt(|head| - 1, index) - 2, m.end, j);
  }

  /** An end marker found before the rewriter's own stands on the start line or in the index. */
  lemma EarlyEndIsInside(m: Markers, text: string, index: string, tail: string, startAt: nat, lineEnd: nat, k: nat)
    requires Sensible(m) && startAt <= lineEnd < |text| && text[lineEnd] == '\n'
    requires var r := Assemble(m, text[..lineEnd + 1], index, tail);
             startAt <= k < EndAt(lineEnd, index) && At(r, m.end, k)
    ensures !NoEndInside(m, text, index, startAt, lineEnd)
  {
    var head := text[..lineEnd + 1];
    var r := Assemble(m, head, index, tail);
    AssembleParts(m, head, index, tail);
    NotAcross(r, m.end, k);
    assert r[lineEnd] == '\n' by { assert r[..|head|][lineEnd] == head[lineEnd]; }
    hide Assemble, At, Contains;
    if k < lineEnd {
      LineOccurrence(m, text, index, tail, startAt, lineEnd, k);
      ContainsAt(text[startAt..lineEnd], m.end);
    } else {
      IndexOccurrence(m, head, index, tail, k - |head| - 1);
      ContainsAt(index, m.end);
    }
  }

  lemma InsideIsEarlier(m: Markers, text: string, index: string, tail: string, startAt: nat, lineEnd: nat)
    requires Sensible(m) && startAt <= lineEnd < |text|
    requires !NoEndInside(m, text, index, startAt, lineEnd)
    ensures var r := Assemble(m, text[..lineEnd + 1], index, tail);
            exists k :: startAt <= k < EndAt(lineEnd, index) && At(r, m.end, k)
  {
    hide Assemble, At, Contains;
    var line := text[startAt..lineEnd];
    ContainsAt(line, m.end);
    ContainsAt(index, m.end);
    if Contains(line, m.end) {
      var i :| At(line, m.end, i);
      AtFits(line, m.end, i);
      LineOccurrence(m, text, index, tail, startAt, lineEnd, startAt + i);
    } else {
      var i :| At(index, m.end, i);
      AtFits(index, m.end, i);
      IndexOccurrence(m, text[..lineEnd + 1], index, tail, i);
    }
  }

  lemma EndIsThere(m: Markers, head: string, index: string, tail: string)
    requires |head| > 0
    ensures At(Assemble(m, head, index, tail), m.end, EndAt(|head| - 1, index))
  {
    AssembleParts(m, head, index, tail);
    hide Assemble;
  }

  /** In a rewritten text the first end marker is the one the rewriter put there, or stands inside. */
  lemma FirstEnd(m: Markers, text: string, index: string, tail: string, startAt: nat, lineEnd: nat)
    requires Sensible(m) && HasBlock(m, text, startAt, lineEnd)
    ensures var r := Assemble(m, text[..lineEnd + 1], index, tail);
            && Find(r, m.end, startAt).Some? && Find(r, m.end, startAt).value <= EndAt(lineEnd, index)
            && (Find(r, m.end, startAt) == Some(EndAt(lineEnd, index))
              <==> NoEndInside(m, text, index, startAt, lineEnd))
  {
    hide Assemble, Find, At, NoEndInside, HasBlock, Sensible;
    LineEnds(m, text, startAt, lineEnd);
    var head := text[..lineEnd + 1];
    var r := Assemble(m, head, index, tail);
    var e := EndAt(lineEnd, index);
    EndIsThere(m, head, index, tail);
    FindBefore(r, m.end, startAt);
    var first := Find(r, m.end, startAt).value;
    if first < e {
      EarlyEndIsInside(m, text, index, tail, startAt, lineEnd, first);
    } else if !NoEndInside(m, text, index, startAt, lineEnd) {
      InsideIsEarlier(m, text, index, tail, startAt, lineEnd);
    }
  }

  /** What a rewritten text has before its final line feed ends in a visible character. */
  lemma LastVisible(m: Markers, head: string, index: string, tail: string)
    requires Sensible(m) && |head| > 0 && (tail == "" || !IsSpace(tail[|tail| - 1]))
    ensures var r := Assemble(m, head, index, tail + "\n");
            |r| > 1 && r[|r| - 1] == '\n' && !IsSpace(r[|r| - 2])
  {
    var r := Assemble(m, head, index, tail + "\n");
    var e := EndAt(|head| - 1, index);
    AssembleParts(m, head, index, tail + "\n");
    hide Assemble;
    assert r[|r| - 1] == r[e + |m.end|..][|tail|];
    if tail == "" {
      assert r[|r| - 2] == r[e..e + |m.end|][|m.end| - 1];
    } else {
      assert r[|r| - 2] == r[e + |m.end|..][|tail| - 1];
    }
  }

  /** Trimming the rest of a rewritten text and ending it in a line feed changes nothing. */
  lemma RestIsTrimmed(m: Markers, head: string, index: string, tail: string, k: nat)
    requires Sensible(m) && |head| > 0 && (tail == "" || !IsSpace(tail[|tail| - 1]))
    requires var r := Assemble(m, head, index, tail + "\n"); k < |r|
    ensures var r := Assemble(m, head, index, tail + "\n"); RStrip(r[k..]) + "\n" == r[k..]
  {
    var r := Assemble(m, head, index, tail + "\n");
    LastVisible(m, head, index, tail);
    hide Assemble;
    var trimmed := r[k..|r| - 1];
    assert r[k..] == trimmed + "\n";
    RStripPadding(trimmed, "\n");
  }

  lemma SuffixAfter(m: Markers, text: string, startAt: nat)
    ensures Find(text, m.end, startAt).Some? ==>
              && Find(text, m.end, startAt).value + |m.end| <= |text|
              && Suffix(m, text, startAt) == text[Find(text, m.end, startAt).value + |m.end|..]
  {}

  /** Rewriting a rewritten text puts back what follows its first end marker. */
  lemma SecondRefresh(m: Markers, text: string, index: string, tail: string, startAt: nat, lineEnd: nat)
    requires Sensible(m) && HasBlock(m, text, startAt, lineEnd) && (tail == "" || !IsSpace(tail[|tail| - 1]))
    ensures var head := text[..lineEnd + 1];
            var r := Assemble(m, head, index, tail + "\n");
            var e := Find(r, m.end, startAt);
            && e.Some? && e.value <= EndAt(lineEnd, index) && e.value + |m.end| < |r|
            && Refresh(m, r, index) == Some(Assemble(m, head, index, r[e.value + |m.end|..]))
  {
    hide Assemble, HasBlock, Refresh, RStrip, Find, At, NoEndInside, Suffix, Sensible, EndAt, IsSpace;
    LineEnds(m, text, startAt, lineEnd);
    var head := text[..lineEnd + 1];
    var r := Assemble(m, head, index, tail + "\n");
    AssembleHead(m, head, index, tail + "\n");
    BlockStays(m, text, index, tail + "\n", startAt, lineEnd);
    FirstEnd(m, text, index, tail + "\n", startAt, lineEnd);
    var e := Find(r, m.end, startAt).value;
    RefreshShape(m, r, index, startAt, lineEnd);
    SuffixAfter(m, r, startAt);
    RestIsTrimmed(m, head, index, tail, e + |m.end|);
  }

  lemma AssembleHead(m: Markers, head: string, index: string, tail: string)
    requires |head| > 0
    ensures var r := Assemble(m, head, index, tail);
            |r| == EndAt(|head| - 1, index) + |m.end| + |tail| && |r| >= |head| && r[..|head|] == head
  {}

  /**
   Refreshing twice is refreshing once exactly when neither the start line nor the index contains an
   end marker; otherwise every further run makes the text longer. This holds whether or not the end
   marker was there at first.
   */
  lemma RefreshIdempotent(m: Markers, text: string, index: string, startAt: nat, lineEnd: nat)
    requires Sensible(m) && HasBlock(m, text, startAt, lineEnd)
    ensures var once := Refresh(m, text, index);
            && once.Some?
            && var twice := Refresh(m, once.value, index);
               && twice.Some?
               && (twice == once <==> NoEndInside(m, text, index, startAt, lineEnd))
               && (twice != once ==> |twice.value| > |once.value|)
  {
    hide Find, Refresh, Suffix, RStrip, NoEndInside, Assemble, At, HasBlock, Sensible, EndAt, IsSpace;
    LineEnds(m, text, startAt, lineEnd);
    var head := text[..lineEnd + 1];
    var tail := RStrip(Suffix(m, text, startAt));
    var r := Assemble(m, head, index, tail + "\n");
    RStripIsPrefix(Suffix(m, text, startAt));
    RefreshShape(m, text, index, startAt, lineEnd);
    SecondRefresh(m, text, index, tail, startAt, lineEnd);
    FirstEnd(m, text, index, tail + "\n", startAt, lineEnd);
    LongerUnlessAtEnd(m, head, index, tail + "\n", Find(r, m.end, startAt).value);
  }

  lemma LongerUnlessAtEnd(m: Markers, head: string, index: string, tail: string, e: nat)
    requires |head| > 0 && e <= EndAt(|head| - 1, index)
    ensures var r := Assemble(m, head, index, tail);
            && e + |m.end| <= |r|
            && var again := Assemble(m, head, index, r[e + |m.end|..]);
               && (e == EndAt(|head| - 1, index) ==> again == r)
               && (e < EndAt(|head| - 1, index) ==> |again| > |r|)
  {
    var r := Assemble(m, head, index, tail);
    AssembleParts(m, head, index, tail);
    AssembleParts(m, head, index, r[e + |m.end|..]);
  }

  /** The markers the tool uses are sensible, so the above holds for its READMEs. */
  lemma ReadmeMarkersSensible()
    ensures README.start == "<!-- AUTO-INDEX:START" && README.end == "<!-- AUTO-INDEX:END -->"
    ensures Sensible(README)
  {}

  // ----- when nothing is rewritten

  /** A text without start marker is left alone; one with it is refused exactly if its line does not end. */
  lemma RefreshExactly(m: Markers, text: string, index: string)
    ensures (forall i :: !At(text, m.start, i)) ==> Refresh(m, text, index) == Some(text)
    ensures Refresh(m, text, index) == None
            <==> exists i :: At(text, m.start, i) && (forall k :: 0 <= k < i ==> !At(text, m.start, k))
                             && forall k :: i <= k < |text| ==> text[k] != '\n'
  {
    hide RStrip;
    FindBefore(text, m.start, 0);
    var start := Find(text, m.start, 0);
    if start.Some? {
      FindBefore(text, "\n", start.value);
      forall k | start.value <= k < |text| ensures text[k] == '\n' <==> At(text, "\n", k) {
        assert text[k..k + 1] == [text[k]];
      }
    }
    forall i | At(text, m.start, i) && (forall k :: 0 <= k < i ==> !At(text, m.start, k))
      ensures start == Some(i)
    {
      FindFirst(text, m.start, 0, i);
    }
  }
}
