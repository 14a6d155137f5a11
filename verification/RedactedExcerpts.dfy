/** What an excerpt shows of each line, and that it says nothing about lines that look like credentials. */
module RedactedExcerpts {
  import opened Domain
  import opened SourceExcerpt
  import Utf8

  predicate LineEnd(c: char) {
    c == '\n' || c == '\r'
  }

  /** The text of a line, whole: the notice in place of a credential, and otherwise the line without its line end. */
  ghost predicate ShowsWhole(line: SourceLine, text: string) {
    if line.looksSecret then text == "[redacted credential-looking line]"
    else && text <= line.raw && (forall i :: |text| <= i < |line.raw| ==> LineEnd(line.raw[i]))
         && (text != "" ==> !LineEnd(text[|text| - 1]))
  }

  lemma {:induction false} StrippedIsWhole(raw: string)
    ensures var text := Stripped(raw);
            && text <= raw && (forall i :: |text| <= i < |raw| ==> LineEnd(raw[i]))
            && (text != "" ==> !LineEnd(text[|text| - 1]))
    decreases |raw|
  {
    if raw != "" && LineEnd(raw[|raw| - 1]) {
      StrippedIsWhole(raw[..|raw| - 1]);
    }
  }

  lemma ShownIsWhole(line: SourceLine)
    ensures ShowsWhole(line, Shown(line))
  {
    StrippedIsWhole(line.raw);
  }

  lemma StrippedKeepsNul(raw: string)
    ensures '\0' in Stripped(raw) <==> '\0' in raw
  {
    StrippedIsWhole(raw);
    if '\0' in raw {
      var i :| 0 <= i < |raw| && raw[i] == '\0';
      assert Stripped(raw)[i] == '\0';
    }
  }

  // ---- One reading ---------------------------------------------------------------------------

  lemma CutOnce(source: seq<SourceLine>, first: nat, stop: nat, maxBytes: int, texts: seq<string>, next: nat, longer: nat)
    requires CutAt(source, first, stop, maxBytes, texts, next) && next < longer <= stop
    ensures !RangeFits(source, first, longer, maxBytes)
  {
    hide RangeFits, Range, Room, Join, Utf8.Size, Utf8.TruncateToBytes, Shown;
    if RangeFits(source, first, longer, maxBytes) {
      RangeFitsShorter(source, first, next + 1, longer, maxBytes);
    }
  }

  lemma CutIsOne(source: seq<SourceLine>, first: nat, stop: nat, maxBytes: int, a: seq<string>, m: nat, b: seq<string>, n: nat)
    requires CutAt(source, first, stop, maxBytes, a, m) && CutAt(source, first, stop, maxBytes, b, n)
    ensures a == b
  {
    hide RangeFits, Range, Room, Utf8.TruncateToBytes, Shown;
    if m < n { CutOnce(source, first, stop, maxBytes, a, m, n); }
    if n < m { CutOnce(source, first, stop, maxBytes, b, n, m); }
  }

  lemma CutMeansTooMuch(source: seq<SourceLine>, first: nat, stop: nat, maxBytes: int, texts: seq<string>)
    requires ReadAsFits(source, first, stop, maxBytes, texts, true)
    ensures first <= stop <= |source| && !RangeFits(source, first, stop, maxBytes)
  {
    var next :| CutAt(source, first, stop, maxBytes, texts, next);
    CutOnce(source, first, stop, maxBytes, texts, next, stop);
  }

  /** What is read of a range is determined. */
  lemma ReadOnce(source: seq<SourceLine>, first: nat, stop: nat, maxBytes: int, a: seq<string>, cutA: bool, b: seq<string>, cutB: bool)
    requires ReadAsFits(source, first, stop, maxBytes, a, cutA) && ReadAsFits(source, first, stop, maxBytes, b, cutB)
    ensures a == b && cutA == cutB
  {
    hide RangeFits, Range, CutAt;
    if cutA { CutMeansTooMuch(source, first, stop, maxBytes, a); }
    if cutB { CutMeansTooMuch(source, first, stop, maxBytes, b); }
    if cutA && cutB {
      var m :| CutAt(source, first, stop, maxBytes, a, m);
      var n :| CutAt(source, first, stop, maxBytes, b, n);
      CutIsOne(source, first, stop, maxBytes, a, m, b, n);
    }
  }

  // ---- Credentials do not show ---------------------------------------------------------------

  /** The sources differ only in lines that look like credentials, and that are text. */
  ghost predicate SameButSecrets(a: seq<SourceLine>, b: seq<SourceLine>) {
    && |a| == |b|
    && forall k :: 0 <= k < |a| ==>
         && a[k].looksSecret == b[k].looksSecret
         && if a[k].looksSecret then '\0' !in a[k].raw && '\0' !in b[k].raw else a[k].raw == b[k].raw
  }

  lemma SameShown(a: seq<SourceLine>, b: seq<SourceLine>, first: nat, next: nat)
    requires SameButSecrets(a, b) && first <= next <= |a|
    ensures Range(a, first, next) == Range(b, first, next)
    ensures forall k :: 0 <= k < |a| ==> Shown(a[k]) == Shown(b[k]) && HasNul(a[k]) == HasNul(b[k])
  {
    forall k | 0 <= k < |a| ensures Shown(a[k]) == Shown(b[k]) && HasNul(a[k]) == HasNul(b[k]) {
      StrippedKeepsNul(a[k].raw);
      StrippedKeepsNul(b[k].raw);
    }
  }

  lemma SameReading(a: seq<SourceLine>, b: seq<SourceLine>, first: nat, stop: nat, maxBytes: int, texts: seq<string>, cut: bool)
    requires SameButSecrets(a, b)
    ensures ReachesNul(a, first, stop, maxBytes) ==> ReachesNul(b, first, stop, maxBytes)
    ensures ReadAsFits(a, first, stop, maxBytes, texts, cut) ==> ReadAsFits(b, first, stop, maxBytes, texts, cut)
  {
    if first <= stop <= |a| {
      forall next | first <= next <= stop ensures Range(a, first, next) == Range(b, first, next) {
        SameShown(a, b, first, next);
      }
      SameShown(a, b, first, stop);
      hide Join, Utf8.Size, Range, Shown, HasNul, SameButSecrets, Utf8.TruncateToBytes;
      if cut && ReadAsFits(a, first, stop, maxBytes, texts, cut) {
        var next :| CutAt(a, first, stop, maxBytes, texts, next);
        assert Room(a, first, next, maxBytes) == Room(b, first, next, maxBytes);
        assert CutAt(b, first, stop, maxBytes, texts, next);
      }
      if ReachesNul(a, first, stop, maxBytes) {
        var k :| first <= k < stop && HasNul(a[k]) && RangeFits(a, first, k, maxBytes);
        assert HasNul(b[k]) && RangeFits(b, first, k, maxBytes);
      }
    }
  }

  lemma SameIsSymmetric(a: seq<SourceLine>, b: seq<SourceLine>)
    requires SameButSecrets(a, b)
    ensures SameButSecrets(b, a)
  {
  }

  /**
   * Nothing of a credential-looking line shows, not even its length: sources that differ only in the text of such
   * lines get the same answer to every request.
   */
  lemma CredentialsDoNotShow(a: seq<SourceLine>, b: seq<SourceLine>, lineCount: nat, startLine: int, endLine: int, maxLines: int, maxBytes: int,
                             r: Result<Excerpt, ReadError>, q: Result<Excerpt, ReadError>)
    requires SameButSecrets(a, b)
    requires Answers(a, lineCount, startLine, endLine, maxLines, maxBytes, r)
    requires Answers(b, lineCount, startLine, endLine, maxLines, maxBytes, q)
    ensures r == q
  {
    hide ReachesNul, ReadAsFits, ExcerptOf, SameButSecrets;
    if Accepted(lineCount, startLine, endLine, maxLines, maxBytes) {
      assert |a| == |b| by { SameLength(a, b); }
      var first, stop := First(|a|, startLine), Stop(|a|, lineCount, startLine, endLine, maxLines);
      SameIsSymmetric(a, b);
      SameReading(a, b, first, stop, maxBytes, [], false);
      SameReading(b, a, first, stop, maxBytes, [], false);
      if !ReachesNul(a, first, stop, maxBytes) {
        var t, c :| ReadAsFits(a, first, stop, maxBytes, t, c)
                    && r == Ok(ExcerptOf(t, c, lineCount, startLine, endLine, maxLines, maxBytes));
        var u, d :| ReadAsFits(b, first, stop, maxBytes, u, d)
                    && q == Ok(ExcerptOf(u, d, lineCount, startLine, endLine, maxLines, maxBytes));
        SameReading(a, b, first, stop, maxBytes, t, c);
        ReadOnce(b, first, stop, maxBytes, t, c, u, d);
      }
    }
  }

  lemma SameLength(a: seq<SourceLine>, b: seq<SourceLine>)
    requires SameButSecrets(a, b)
    ensures |a| == |b|
  {
  }

  // ---- What each line shows ------------------------------------------------------------------

  /** A front part of the line's text, which is cut. */
  ghost predicate ShowsPart(line: SourceLine, text: string) {
    exists whole :: ShowsWhole(line, whole) && text <= whole && text != whole
  }

  /** Text `k` is that of line `first + k`, whole unless it is the last and cut, and the line has no NUL. */
  ghost predicate TextOf(source: seq<SourceLine>, first: nat, texts: seq<string>, cut: bool, k: nat)
    requires k < |texts| && first + k < |source|
  {
    && '\0' !in source[first + k].raw
    && (ShowsWhole(source[first + k], texts[k]) || (cut && k == |texts| - 1 && ShowsPart(source[first + k], texts[k])))
  }

  lemma ReadUpTo(source: seq<SourceLine>, first: nat, stop: nat, maxBytes: int, texts: seq<string>, cut: bool) returns (next: nat)
    requires ReadAsFits(source, first, stop, maxBytes, texts, cut)
    ensures first <= next <= stop <= |source| && next - first <= |texts| && RangeFits(source, first, next, maxBytes)
    ensures texts[..next - first] == Range(source, first, next)
    ensures if cut then next < stop && CutAt(source, first, stop, maxBytes, texts, next) && |texts| <= next - first + 1
            else next == stop && |texts| == next - first
  {
    next := stop;
    if cut {
      next :| CutAt(source, first, stop, maxBytes, texts, next);
    }
    hide RangeFits, Room, Utf8.TruncateToBytes, Shown;
  }

  lemma NoNulShown(source: seq<SourceLine>, first: nat, stop: nat, maxBytes: int, next: nat, k: nat)
    requires first <= k <= next <= stop <= |source| && k < stop && RangeFits(source, first, next, maxBytes)
    requires !ReachesNul(source, first, stop, maxBytes)
    ensures '\0' !in source[k].raw
  {
    RangeFitsShorter(source, first, k, next, maxBytes);
    StrippedKeepsNul(source[k].raw);
    hide RangeFits, Stripped;
  }

  lemma TextIsOfLine(source: seq<SourceLine>, first: nat, stop: nat, maxBytes: int, texts: seq<string>, cut: bool, k: nat)
    requires ReadAsFits(source, first, stop, maxBytes, texts, cut) && !ReachesNul(source, first, stop, maxBytes) && k < |texts|
    ensures first + k < |source| && TextOf(source, first, texts, cut, k)
  {
    hide RangeFits, ReadAsFits, ReachesNul, ShowsWhole, ShowsPart, Range, CutAt, Shown;
    var next := ReadUpTo(source, first, stop, maxBytes, texts, cut);
    NoNulShown(source, first, stop, maxBytes, next, first + k);
    if first + k == next {
      PartOfLine(source, first, stop, maxBytes, texts, next);
    } else {
      ShownIsWhole(source[first + k]);
      assert texts[k] == texts[..next - first][k] == Range(source, first, next)[k];
    }
  }

  lemma PartOfLine(source: seq<SourceLine>, first: nat, stop: nat, maxBytes: int, texts: seq<string>, next: nat)
    requires CutAt(source, first, stop, maxBytes, texts, next) && |texts| == next - first + 1
    ensures ShowsPart(source[next], texts[next - first])
  {
    CutIsStrict(source, first, stop, maxBytes, texts, next);
    ShownIsWhole(source[next]);
    var room := Room(source, first, next, maxBytes);
    Utf8.TruncateToBytesIsExact(Shown(source[next]), room);
    hide Shown, Utf8.TruncateToBytes, Utf8.Size, Join, ShowsWhole;
    assert texts[next - first] == Utf8.TruncateToBytes(Shown(source[next]), room);
  }

  /**
   * An excerpt shows consecutive lines from the first one requested: of a credential-looking line the notice, of every
   * other its text without the line end. Only the last may be cut. No line that is shown has a NUL.
   */
  lemma LinesAreShown(source: seq<SourceLine>, lineCount: nat, startLine: int, endLine: int, maxLines: int, maxBytes: int, e: Excerpt,
                      k: nat)
    requires Answers(source, lineCount, startLine, endLine, maxLines, maxBytes, Ok(e)) && lineCount > 0 && k < |e.lines|
    ensures 0 <= startLine - 1 + k < |source|
    ensures var line, shown := source[startLine - 1 + k], e.lines[k];
            && shown.lineNumber == startLine + k && '\0' !in line.raw
            && (ShowsWhole(line, shown.text) || (k == |e.lines| - 1 && e.truncated && ShowsPart(line, shown.text)))
  {
    hide ReachesNul, ReadAsFits, ShowsWhole, ShowsPart, Answers, Join;
    var texts, cut := AnswerShows(source, lineCount, startLine, endLine, maxLines, maxBytes, e);
    var first, stop := First(|source|, startLine), Stop(|source|, lineCount, startLine, endLine, maxLines);
    TextIsOfLine(source, first, stop, maxBytes, texts, cut, k);
  }

  lemma AnswerShows(source: seq<SourceLine>, lineCount: nat, startLine: int, endLine: int, maxLines: int, maxBytes: int, e: Excerpt)
    returns (texts: seq<string>, cut: bool)
    requires Answers(source, lineCount, startLine, endLine, maxLines, maxBytes, Ok(e)) && lineCount > 0
    ensures Accepted(lineCount, startLine, endLine, maxLines, maxBytes)
    ensures var first, stop := First(|source|, startLine), Stop(|source|, lineCount, startLine, endLine, maxLines);
            ReadAsFits(source, first, stop, maxBytes, texts, cut) && !ReachesNul(source, first, stop, maxBytes)
    ensures |e.lines| == |texts| && (forall k :: 0 <= k < |texts| ==> e.lines[k] == NumberedLine(startLine + k, texts[k]))
    ensures e.content == Join(texts) && (cut ==> e.truncated)
  {
    hide ReachesNul, ReadAsFits, Join;
    var first, stop := First(|source|, startLine), Stop(|source|, lineCount, startLine, endLine, maxLines);
    texts, cut :| ReadAsFits(source, first, stop, maxBytes, texts, cut)
                  && e == ExcerptOf(texts, cut, lineCount, startLine, endLine, maxLines, maxBytes);
  }

  /** The content is the lines' texts, one after the other, with a line feed between them. */
  lemma {:induction false} ContentIsTheLines(a: seq<string>, b: seq<string>)
    ensures Join([]) == "" && (|a| == 1 ==> Join(a) == a[0])
    ensures a != [] && b != [] ==> Join(a + b) == Join(a) + "\n" + Join(b)
    decreases |b|
  {
    if |b| == 1 {
      assert (a + b)[..|a + b| - 1] == a;
    } else if a != [] && b != [] {
      ContentIsTheLines(a, b[..|b| - 1]);
      assert (a + b)[..|a + b| - 1] == a + b[..|b| - 1];
    }
  }
}
