/** Reading a bounded, redacted range of lines of a source file. */
module SourceExcerpt {
  import opened Domain
  import Utf8

  /** A line as the file yields it, and whether it looks like a credential. */
  datatype SourceLine = SourceLine(raw: string, looksSecret: bool)

  datatype NumberedLine = NumberedLine(lineNumber: int, text: string)

  datatype Excerpt = Excerpt(
    startLine: int, endLine: int, requestedEndLine: int, content: string, lines: seq<NumberedLine>,
    truncated: bool, truncatedReason: Option<string>, lineCount: nat, maxLines: int, maxBytes: int)

  datatype ReadError = NotPositive | EndBeforeStart | StartTooLarge | BinaryLooking

  const DEFAULT_LINES := 200
  const DEFAULT_BYTES := 24000

  const REDACTED := "[redacted credential-looking line]"

  // ---- Text ----------------------------------------------------------------------------

  /** Without the line end. */
  function Stripped(raw: string): string {
    if raw != "" && (raw[|raw| - 1] == '\n' || raw[|raw| - 1] == '\r') then Stripped(raw[..|raw| - 1]) else raw
  }

  function Shown(line: SourceLine): string {
    if line.looksSecret then REDACTED else Stripped(line.raw)
  }

  predicate HasNul(line: SourceLine) {
    '\0' in Stripped(line.raw)
  }

  function Join(texts: seq<string>): string {
    if texts == [] then ""
    else if |texts| == 1 then texts[0]
    else Join(texts[..|texts| - 1]) + "\n" + texts[|texts| - 1]
  }

  function SeparatorBytes(count: nat): nat {
    if count == 0 then 0 else 1
  }

  lemma JoinSize(texts: seq<string>, last: string)
    ensures Utf8.Size(Join(texts + [last])) == Utf8.Size(Join(texts)) + Utf8.Size(last) + SeparatorBytes(|texts|)
  {
    assert (texts + [last])[..|texts|] == texts;
    if texts != [] {
      Utf8.SizeAppend(Join(texts) + "\n", last);
      Utf8.SizeAppend(Join(texts), "\n");
      Utf8.AsciiSize("\n");
    }
  }

  /** The lines with indices from `first` up to `next`, each as it is shown. */
  function Range(source: seq<SourceLine>, first: nat, next: nat): (r: seq<string>)
    requires first <= next <= |source|
    ensures |r| == next - first
    ensures forall k :: 0 <= k < |r| ==> r[k] == Shown(source[first + k])
  {
    seq(next - first, k requires 0 <= k < next - first => Shown(source[first + k]))
  }

  predicate RangeFits(source: seq<SourceLine>, first: nat, next: nat, maxBytes: int)
    requires first <= next <= |source|
  {
    Utf8.Size(Join(Range(source, first, next))) <= maxBytes
  }

  lemma RangeGrows(source: seq<SourceLine>, first: nat, next: nat)
    requires first <= next < |source|
    ensures Range(source, first, next + 1) == Range(source, first, next) + [Shown(source[next])]
    ensures Utf8.Size(Join(Range(source, first, next + 1)))
            == Utf8.Size(Join(Range(source, first, next))) + Utf8.Size(Shown(source[next])) + SeparatorBytes(next - first)
  {
    hide Utf8.Size, Join;
    JoinSize(Range(source, first, next), Shown(source[next]));
  }

  lemma {:induction false} RangeFitsShorter(source: seq<SourceLine>, first: nat, next: nat, longer: nat, maxBytes: int)
    requires first <= next <= longer <= |source| && RangeFits(source, first, longer, maxBytes)
    ensures RangeFits(source, first, next, maxBytes)
    decreases longer
  {
    hide Utf8.Size, Join, Range, Shown, SeparatorBytes;
    if next < longer {
      RangeGrows(source, first, longer - 1);
      RangeFitsShorter(source, first, next, longer - 1, maxBytes);
    }
  }

  // ---- What is read --------------------------------------------------------------------

  function Min(a: int, b: int): int {
    if a <= b then a else b
  }

  /** The bytes left for a line after those of the range. */
  function Room(source: seq<SourceLine>, first: nat, next: nat, maxBytes: int): int
    requires first <= next <= |source|
  {
    maxBytes - Utf8.Size(Join(Range(source, first, next))) - SeparatorBytes(next - first)
  }

  /**
   * What is read of the lines from `first` up to `stop`: all of them if they fit, or else as many as
   * fit and as much of the next one as there is room for.
   */
  ghost predicate ReadAsFits(source: seq<SourceLine>, first: nat, stop: nat, maxBytes: int, texts: seq<string>, cut: bool) {
    && first <= stop <= |source|
    && if !cut then RangeFits(source, first, stop, maxBytes) && texts == Range(source, first, stop)
       else exists next :: CutAt(source, first, stop, maxBytes, texts, next)
  }

  ghost predicate CutAt(source: seq<SourceLine>, first: nat, stop: nat, maxBytes: int, texts: seq<string>, next: nat) {
    && first <= next < stop <= |source|
    && RangeFits(source, first, next, maxBytes) && !RangeFits(source, first, next + 1, maxBytes)
    && texts == Range(source, first, next)
                + if Room(source, first, next, maxBytes) > 0
                  then [Utf8.TruncateToBytes(Shown(source[next]), Room(source, first, next, maxBytes))] else []
  }

  /** A line with a NUL is reached: all lines before it fit. */
  ghost predicate ReachesNul(source: seq<SourceLine>, first: nat, stop: nat, maxBytes: int) {
    exists k :: first <= k < stop <= |source| && HasNul(source[k]) && RangeFits(source, first, k, maxBytes)
  }

  function Numbered(startLine: int, texts: seq<string>): (r: seq<NumberedLine>)
    ensures |r| == |texts| && forall k :: 0 <= k < |r| ==> r[k] == NumberedLine(startLine + k, texts[k])
  {
    seq(|texts|, k requires 0 <= k < |texts| => NumberedLine(startLine + k, texts[k]))
  }

  /** Reads lines until the target, the end of the file or the limit of bytes. */
  method ReadLines(source: seq<SourceLine>, startLine: int, targetEnd: int, maxBytes: int)
    returns (texts: seq<string>, bytesTruncated: bool, binary: bool)
    requires 1 <= startLine && startLine - 1 <= targetEnd && maxBytes >= 0
    ensures var first, stop := Min(startLine - 1, |source|), Min(targetEnd, |source|);
            && (binary <==> ReachesNul(source, first, stop, maxBytes))
            && (!binary ==> ReadAsFits(source, first, stop, maxBytes, texts, bytesTruncated))
  {
    hide Join, Range, Utf8.TruncateToBytes, Utf8.Size, ReachesNul;
    EmptyRange(source, Min(startLine - 1, |source|), maxBytes);
    texts, bytesTruncated := [], false;
    var usedBytes := 0;
    ghost var first, stop := Min(startLine - 1, |source|), Min(targetEnd, |source|);
    ghost var reached := first;
    var lineNumber := 0;
    while lineNumber < |source|
      invariant 0 <= lineNumber <= |source|
      invariant reached == if lineNumber < first then first else lineNumber
      invariant first <= reached <= stop
      invariant texts == Range(source, first, reached) && !bytesTruncated
      invariant usedBytes == Utf8.Size(Join(texts)) && RangeFits(source, first, reached, maxBytes)
      invariant forall k :: first <= k < reached ==> !HasNul(source[k])
    {
      var line := source[lineNumber];
      lineNumber := lineNumber + 1;
      if lineNumber < startLine {
        continue;
      }
      if lineNumber > targetEnd {
        NoNulAtAll(source, first, stop, maxBytes);
        return texts, false, false;
      }
      // This is the number that the line is returned with.
      assert lineNumber == startLine + |texts|;
      var text := Stripped(line.raw);
      if '\0' in text {
        NulReached(source, first, stop, reached, maxBytes);
        return texts, false, true;
      }
      var redactedText := if line.looksSecret then REDACTED else text;
      var separatorBytes := if texts == [] then 0 else 1;
      var lineBytes := Utf8.Size(redactedText) + separatorBytes;
      RangeGrows(source, first, reached);
      if usedBytes + lineBytes > maxBytes {
        var remainingBytes := if maxBytes - usedBytes - separatorBytes > 0 then maxBytes - usedBytes - separatorBytes else 0;
        if remainingBytes > 0 {
          redactedText := Utf8.TruncateToBytes(redactedText, remainingBytes);
          texts := texts + [redactedText];
        }
        NoNulBeforeCut(source, first, stop, reached, maxBytes);
        assert CutAt(source, first, stop, maxBytes, texts, reached);
        return texts, true, false;
      }
      texts := texts + [redactedText];
      usedBytes := usedBytes + lineBytes;
      reached := reached + 1;
    }
    NoNulAtAll(source, first, stop, maxBytes);
    return texts, false, false;
  }

  lemma EmptyRange(source: seq<SourceLine>, first: nat, maxBytes: int)
    requires first <= |source| && maxBytes >= 0
    ensures RangeFits(source, first, first, maxBytes) && Utf8.Size(Join(Range(source, first, first))) == 0
    ensures Range(source, first, first) == [] && Join([]) == ""
  {
    assert Range(source, first, first) == [];
  }

  lemma NulReached(source: seq<SourceLine>, first: nat, stop: nat, next: nat, maxBytes: int)
    requires first <= next < stop <= |source| && HasNul(source[next]) && RangeFits(source, first, next, maxBytes)
    ensures ReachesNul(source, first, stop, maxBytes)
  {
  }

  lemma NoNulAtAll(source: seq<SourceLine>, first: nat, stop: nat, maxBytes: int)
    requires first <= stop <= |source| && forall k :: first <= k < stop ==> !HasNul(source[k])
    ensures !ReachesNul(source, first, stop, maxBytes)
  {
  }

  lemma NoNulBeforeCut(source: seq<SourceLine>, first: nat, stop: nat, next: nat, maxBytes: int)
    requires first <= next < stop <= |source| && !RangeFits(source, first, next + 1, maxBytes)
    requires forall k :: first <= k <= next ==> !HasNul(source[k])
    ensures !ReachesNul(source, first, stop, maxBytes)
  {
    forall k | first <= k < stop && RangeFits(source, first, k, maxBytes) ensures !HasNul(source[k]) {
      if k > next {
        RangeFitsShorter(source, first, next + 1, k, maxBytes);
      }
    }
  }

  // ---- The excerpt ---------------------------------------------------------------------

  function TruncatedReason(lineTruncated: bool, bytesTruncated: bool): Option<string> {
    if lineTruncated && bytesTruncated then Some("line_and_byte_limit")
    else if lineTruncated then Some("line_limit")
    else if bytesTruncated then Some("byte_limit")
    else None
  }

  const EMPTY := Excerpt(1, 0, 1, "", [], false, None, 0, DEFAULT_LINES, DEFAULT_BYTES)

  /** The arguments, and the line count of the index, are accepted. */
  predicate Accepted(lineCount: nat, startLine: int, endLine: int, maxLines: int, maxBytes: int) {
    startLine >= 1 && endLine >= startLine && maxLines >= 1 && maxBytes >= 1 && startLine <= lineCount
  }

  function First(length: nat, startLine: int): nat
    requires startLine >= 1
  {
    Min(startLine - 1, length)
  }

  /** The index after the last line that may be read. */
  function Stop(length: nat, lineCount: nat, startLine: int, endLine: int, maxLines: int): nat
    requires Accepted(lineCount, startLine, endLine, maxLines, 1)
  {
    Min(Min(Min(endLine, lineCount), startLine + maxLines - 1), length)
  }

  function ExcerptOf(texts: seq<string>, bytesTruncated: bool, lineCount: nat, startLine: int, endLine: int, maxLines: int, maxBytes: int)
    : Excerpt
  {
    var last := startLine + |texts| - 1;
    var lineTruncated := last < Min(endLine, lineCount);
    Excerpt(startLine, last, endLine, Join(texts), Numbered(startLine, texts), lineTruncated || bytesTruncated,
            TruncatedReason(lineTruncated, bytesTruncated), lineCount, maxLines, maxBytes)
  }

  /** What a reading may answer: an error, the empty excerpt, or the excerpt of the lines that fit. */
  ghost predicate Answers(source: seq<SourceLine>, lineCount: nat, startLine: int, endLine: int, maxLines: int, maxBytes: int,
                          r: Result<Excerpt, ReadError>)
  {
    if startLine < 1 || endLine < 1 || maxLines < 1 || maxBytes < 1 then r == Err(NotPositive)
    else if endLine < startLine then r == Err(EndBeforeStart)
    else if lineCount == 0 then r == Ok(EMPTY)
    else if startLine > lineCount then r == Err(StartTooLarge)
    else
      var first, stop := First(|source|, startLine), Stop(|source|, lineCount, startLine, endLine, maxLines);
      if ReachesNul(source, first, stop, maxBytes) then r == Err(BinaryLooking)
      else exists texts, cut ::
             && ReadAsFits(source, first, stop, maxBytes, texts, cut)
             && r == Ok(ExcerptOf(texts, cut, lineCount, startLine, endLine, maxLines, maxBytes))
  }

  /** `lineCount` is what the index recorded for the file. */
  method ReadSourceExcerpt(source: seq<SourceLine>, lineCount: nat, startLine: int, endLine: int, maxLines: int, maxBytes: int)
    returns (r: Result<Excerpt, ReadError>, texts: seq<string>, bytesTruncated: bool)
    ensures startLine < 1 || endLine < 1 || maxLines < 1 || maxBytes < 1 ==> r == Err(NotPositive)
    ensures startLine >= 1 && endLine >= 1 && maxLines >= 1 && maxBytes >= 1 && endLine < startLine ==> r == Err(EndBeforeStart)
    ensures 1 <= startLine <= endLine && maxLines >= 1 && maxBytes >= 1 && lineCount == 0 ==> r == Ok(EMPTY)
    ensures 1 <= startLine <= endLine && maxLines >= 1 && maxBytes >= 1 && 0 < lineCount < startLine ==> r == Err(StartTooLarge)
    ensures Accepted(lineCount, startLine, endLine, maxLines, maxBytes) ==>
              var first, stop := First(|source|, startLine), Stop(|source|, lineCount, startLine, endLine, maxLines);
              if ReachesNul(source, first, stop, maxBytes) then r == Err(BinaryLooking)
              else && r == Ok(ExcerptOf(texts, bytesTruncated, lineCount, startLine, endLine, maxLines, maxBytes))
                   && ReadAsFits(source, first, stop, maxBytes, texts, bytesTruncated)
    ensures Answers(source, lineCount, startLine, endLine, maxLines, maxBytes, r)
  {
    hide ReachesNul, ReadAsFits, Join, Numbered;
    texts, bytesTruncated := [], false;
    if startLine < 1 || endLine < 1 || maxLines < 1 || maxBytes < 1 {
      r := Err(NotPositive);
      return;
    }
    if endLine < startLine {
      r := Err(EndBeforeStart);
      return;
    }
    if lineCount == 0 {
      r := Ok(EMPTY);
      return;
    }
    if startLine > lineCount {
      r := Err(StartTooLarge);
      return;
    }
    var requestedEnd := Min(endLine, lineCount);
    var targetEnd := Min(requestedEnd, startLine + maxLines - 1);
    var binary;
    texts, bytesTruncated, binary := ReadLines(source, startLine, targetEnd, maxBytes);
    if binary {
      r := Err(BinaryLooking);
      return;
    }
    var lines := Numbered(startLine, texts);
    var actualEnd := if lines != [] then lines[|lines| - 1].lineNumber else startLine - 1;
    var lineTruncated := actualEnd < requestedEnd;
    r := Ok(Excerpt(startLine, actualEnd, endLine, Join(texts), lines, lineTruncated || bytesTruncated,
                    TruncatedReason(lineTruncated, bytesTruncated), lineCount, maxLines, maxBytes));
  }

  // ---- What an excerpt promises --------------------------------------------------------

  lemma CutIsStrict(source: seq<SourceLine>, first: nat, stop: nat, maxBytes: int, texts: seq<string>, next: nat)
    requires CutAt(source, first, stop, maxBytes, texts, next)
    ensures Utf8.Size(Join(texts)) <= maxBytes && |texts| <= next - first + 1
    ensures |texts| == next - first + 1 ==> texts[next - first] != Shown(source[next])
  {
    hide Utf8.TruncateToBytes, Utf8.Size, Join, Range, Shown;
    var room := Room(source, first, next, maxBytes);
    RangeGrows(source, first, next);
    if room > 0 {
      Utf8.TruncateToBytesIsExact(Shown(source[next]), room);
      var part := Utf8.TruncateToBytes(Shown(source[next]), room);
      JoinSize(Range(source, first, next), part);
      assert Utf8.Size(part) <= room < Utf8.Size(Shown(source[next]));
      assert texts[next - first] == part;
    } else {
      assert texts == Range(source, first, next);
    }
  }

  /** An excerpt keeps its limits, and its lines are numbered consecutively from the first. */
  lemma ExcerptIsBounded(source: seq<SourceLine>, lineCount: nat, startLine: int, endLine: int, maxLines: int, maxBytes: int,
                         texts: seq<string>, cut: bool)
    requires Accepted(lineCount, startLine, endLine, maxLines, maxBytes)
    requires ReadAsFits(source, First(|source|, startLine), Stop(|source|, lineCount, startLine, endLine, maxLines), maxBytes, texts, cut)
    ensures var e := ExcerptOf(texts, cut, lineCount, startLine, endLine, maxLines, maxBytes);
            && Utf8.Size(e.content) <= maxBytes && |e.lines| <= maxLines
            && (forall k :: 0 <= k < |e.lines| ==> e.lines[k].lineNumber == startLine + k)
            && e.endLine == startLine + |e.lines| - 1 <= Min(endLine, lineCount)
  {
    var first, stop := First(|source|, startLine), Stop(|source|, lineCount, startLine, endLine, maxLines);
    if cut {
      var next :| CutAt(source, first, stop, maxBytes, texts, next);
      CutIsStrict(source, first, stop, maxBytes, texts, next);
    }
  }

  /**
   * If the index counted the lines of the file right, the flag is down exactly if the excerpt has
   * every requested line there is, whole.
   */
  lemma FlagIsExact(source: seq<SourceLine>, startLine: int, endLine: int, maxLines: int, maxBytes: int, texts: seq<string>, cut: bool)
    requires Accepted(|source|, startLine, endLine, maxLines, maxBytes)
    requires ReadAsFits(source, startLine - 1, Stop(|source|, |source|, startLine, endLine, maxLines), maxBytes, texts, cut)
    ensures var e := ExcerptOf(texts, cut, |source|, startLine, endLine, maxLines, maxBytes);
            !e.truncated <==> texts == Range(source, startLine - 1, Min(endLine, |source|))
  {
    hide Join, Numbered, Shown;
    var first, stop := startLine - 1, Stop(|source|, |source|, startLine, endLine, maxLines);
    if cut {
      var next :| CutAt(source, first, stop, maxBytes, texts, next);
      CutIsStrict(source, first, stop, maxBytes, texts, next);
    }
  }
}
