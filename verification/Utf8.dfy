/**
 * UTF-8 (RFC 3629), decoding that ignores errors, and the two ways the agent cuts text to a number
 * of bytes.
 */
module Utf8 {

  newtype Byte = b: int | 0 <= b < 256

  // ---- Encoding ------------------------------------------------------------------------

  function CharBytes(c: char): nat {
    if c < 0x80 as char then 1 else if c < 0x800 as char then 2 else if c < 0x10000 as char then 3 else 4
  }

  function EncodeChar(c: char): (r: seq<Byte>)
    ensures |r| == CharBytes(c)
  {
    var n := c as int;
    if n < 0x80 then [n as Byte]
    else if n < 0x800 then [(0xC0 + n / 64) as Byte, (0x80 + n % 64) as Byte]
    else if n < 0x10000 then [(0xE0 + n / 4096) as Byte, (0x80 + n / 64 % 64) as Byte, (0x80 + n % 64) as Byte]
    else [(0xF0 + n / 262144) as Byte, (0x80 + n / 4096 % 64) as Byte, (0x80 + n / 64 % 64) as Byte, (0x80 + n % 64) as Byte]
  }

  /** How many bytes the encoding of a text has. */
  function Size(s: string): nat {
    if s == "" then 0 else CharBytes(s[0]) + Size(s[1..])
  }

  function Encode(s: string): (r: seq<Byte>)
    ensures |r| == Size(s)
  {
    if s == "" then [] else EncodeChar(s[0]) + Encode(s[1..])
  }

  // ---- Decoding ------------------------------------------------------------------------

  /** How many bytes the sequence that starts with this byte has; 0 if none does. */
  function SequenceLength(lead: Byte): nat {
    if lead < 0x80 then 1
    else if lead < 0xC2 then 0
    else if lead < 0xE0 then 2
    else if lead < 0xF0 then 3
    else if lead < 0xF5 then 4
    else 0
  }

  predicate Continues(b: Byte) {
    0x80 <= b < 0xC0
  }

  /** Some lead bytes narrow the byte that follows: no overlong forms, surrogates or large values. */
  predicate SecondFits(lead: Byte, second: Byte) {
    && Continues(second)
    && (lead == 0xE0 ==> second >= 0xA0)
    && (lead == 0xED ==> second < 0xA0)
    && (lead == 0xF0 ==> second >= 0x90)
    && (lead == 0xF4 ==> second < 0x90)
  }

  /** How many of the first bytes belong together: a whole sequence, or as much of one as there is. */
  function Subpart(bytes: seq<Byte>): (k: nat)
    requires bytes != []
    ensures 1 <= k <= |bytes|
  {
    var n := SequenceLength(bytes[0]);
    if n < 2 || |bytes| < 2 || !SecondFits(bytes[0], bytes[1]) then 1
    else if n < 3 || |bytes| < 3 || !Continues(bytes[2]) then 2
    else if n < 4 || |bytes| < 4 || !Continues(bytes[3]) then 3
    else 4
  }

  function Low(b: Byte): int {
    b as int - 0x80
  }

  /** The character of a whole sequence. */
  function Scalar(bytes: seq<Byte>): char
    requires bytes != [] && Subpart(bytes) == SequenceLength(bytes[0])
  {
    var lead := bytes[0] as int;
    match SequenceLength(bytes[0])
    case 1 => lead as char
    case 2 => ((lead - 0xC0) * 64 + Low(bytes[1])) as char
    case 3 => ((lead - 0xE0) * 4096 + Low(bytes[1]) * 64 + Low(bytes[2])) as char
    case _ => ((lead - 0xF0) * 262144 + Low(bytes[1]) * 4096 + Low(bytes[2]) * 64 + Low(bytes[3])) as char
  }

  /** Decodes and drops what does not decode. */
  function DecodeIgnore(bytes: seq<Byte>): string
    decreases |bytes|
  {
    if bytes == [] then ""
    else
      var k := Subpart(bytes);
      if k == SequenceLength(bytes[0]) then [Scalar(bytes)] + DecodeIgnore(bytes[k..])
      else DecodeIgnore(bytes[k..])
  }

  // ---- Facts ---------------------------------------------------------------------------

  lemma {:induction false} SizeAppend(a: string, b: string)
    ensures Size(a + b) == Size(a) + Size(b)
  {
    if a == "" {
      assert a + b == b;
    } else {
      SizeAppend(a[1..], b);
      assert (a + b)[1..] == a[1..] + b;
    }
  }

  lemma {:induction false} SizeIsAtLeastLength(s: string)
    ensures Size(s) >= |s|
  {
    if s != "" {
      SizeIsAtLeastLength(s[1..]);
    }
  }

  lemma LeadByte(c: char)
    ensures SequenceLength(EncodeChar(c)[0]) == |EncodeChar(c)|
    ensures forall i :: 1 <= i < |EncodeChar(c)| ==> Continues(EncodeChar(c)[i])
    ensures |EncodeChar(c)| >= 2 ==> SecondFits(EncodeChar(c)[0], EncodeChar(c)[1])
  {
  }

  /** The bytes of an encoded character belong together. */
  lemma CharSubpart(c: char, bytes: seq<Byte>)
    requires bytes != []
    requires EncodeChar(c) <= bytes || bytes <= EncodeChar(c)
    ensures SequenceLength(bytes[0]) == |EncodeChar(c)|
    ensures Subpart(bytes) == if |bytes| <= |EncodeChar(c)| then |bytes| else |EncodeChar(c)|
  {
    LeadByte(c);
    var code := EncodeChar(c);
    assert forall i :: 0 <= i < |bytes| && i < |code| ==> bytes[i] == code[i];
  }

  lemma Digits(n: nat)
    ensures n == n / 64 * 64 + n % 64
    ensures n / 64 == n / 4096 * 64 + n / 64 % 64
    ensures n / 4096 == n / 262144 * 64 + n / 4096 % 64
  {
  }

  lemma CharScalar(c: char, bytes: seq<Byte>)
    requires EncodeChar(c) <= bytes && bytes != []
    requires Subpart(bytes) == SequenceLength(bytes[0]) == |EncodeChar(c)|
    ensures Scalar(bytes) == c
  {
    var code := EncodeChar(c);
    var n := c as int;
    Digits(n);
    assert forall i :: 0 <= i < |code| ==> bytes[i] == code[i];
    match |code|
    case 1 =>
    case 2 =>
      assert bytes[0] as int - 0xC0 == n / 64 && Low(bytes[1]) == n % 64;
    case 3 =>
      assert bytes[0] as int - 0xE0 == n / 4096 && Low(bytes[1]) == n / 64 % 64 && Low(bytes[2]) == n % 64;
    case _ =>
      assert bytes[0] as int - 0xF0 == n / 262144 && Low(bytes[1]) == n / 4096 % 64;
      assert Low(bytes[2]) == n / 64 % 64 && Low(bytes[3]) == n % 64;
  }

  lemma DecodeWholeChar(c: char, rest: seq<Byte>)
    ensures DecodeIgnore(EncodeChar(c) + rest) == [c] + DecodeIgnore(rest)
  {
    var bytes := EncodeChar(c) + rest;
    CharSubpart(c, bytes);
    CharScalar(c, bytes);
    assert bytes[|EncodeChar(c)|..] == rest;
  }

  lemma DecodePartialChar(c: char, k: nat)
    requires k < |EncodeChar(c)|
    ensures DecodeIgnore(EncodeChar(c)[..k]) == ""
  {
    if k > 0 {
      CharSubpart(c, EncodeChar(c)[..k]);
      assert EncodeChar(c)[..k][k..] == [];
    }
  }

  /** How many leading characters of a text fit whole into so many bytes. */
  function WholeChars(s: string, limit: nat): (m: nat)
    ensures m <= |s|
  {
    if s == "" || CharBytes(s[0]) > limit then 0 else 1 + WholeChars(s[1..], limit - CharBytes(s[0]))
  }

  /** A text of no more than `limit` bytes, and the longest prefix of `s` that is. */
  ghost predicate LongestPrefix(s: string, limit: nat, r: string) {
    r <= s && Size(r) <= limit && forall m :: 0 <= m <= |s| && Size(s[..m]) <= limit ==> m <= |r|
  }

  lemma {:induction false} WholeCharsAreLongest(s: string, limit: nat)
    ensures LongestPrefix(s, limit, s[..WholeChars(s, limit)])
  {
    if s != "" {
      var n := CharBytes(s[0]);
      forall m | 0 < m <= |s| ensures Size(s[..m]) == n + Size(s[1..][..m - 1]) {
        assert s[..m][0] == s[0] && s[..m][1..] == s[1..][..m - 1];
      }
      if n <= limit {
        WholeCharsAreLongest(s[1..], limit - n);
        var m := WholeChars(s, limit);
        assert s[..m][1..] == s[1..][..m - 1];
        forall k | 0 <= k <= |s| && Size(s[..k]) <= limit ensures k <= m {
          if k > 0 { assert Size(s[1..][..k - 1]) <= limit - n; }
        }
      }
    }
  }

  lemma PrefixOfAppend(a: seq<Byte>, b: seq<Byte>, k: nat)
    requires k <= |a| + |b|
    ensures (a + b)[..k] == if k <= |a| then a[..k] else a + b[..k - |a|]
  {
  }

  /** The decoding of a prefix that is a whole character and some more, or a part of a character. */
  lemma DecodeCharPrefix(c: char, rest: seq<Byte>, limit: nat)
    requires limit <= |EncodeChar(c)| + |rest|
    ensures DecodeIgnore((EncodeChar(c) + rest)[..limit])
            == if limit < |EncodeChar(c)| then "" else [c] + DecodeIgnore(rest[..limit - |EncodeChar(c)|])
  {
    var first := EncodeChar(c);
    PrefixOfAppend(first, rest, limit);
    if limit < |first| {
      DecodePartialChar(c, limit);
    } else {
      DecodeWholeChar(c, rest[..limit - |first|]);
      assert first[..|first|] == first;
      assert first + rest[..0] == first;
    }
  }

  /** Decoding any byte prefix of an encoding drops exactly a partial last character. */
  lemma {:induction false} DecodePrefix(s: string, limit: nat)
    requires limit <= Size(s)
    ensures DecodeIgnore(Encode(s)[..limit]) == s[..WholeChars(s, limit)]
  {
    if s != "" {
      DecodeCharPrefix(s[0], Encode(s[1..]), limit);
      if |EncodeChar(s[0])| <= limit {
        DecodePrefix(s[1..], limit - |EncodeChar(s[0])|);
        assert [s[0]] + s[1..][..WholeChars(s, limit) - 1] == s[..WholeChars(s, limit)];
      }
    }
  }

  /** Decoding undoes encoding. */
  lemma {:induction false} DecodeEncode(s: string)
    ensures DecodeIgnore(Encode(s)) == s
  {
    if s != "" {
      DecodeEncode(s[1..]);
      DecodeWholeChar(s[0], Encode(s[1..]));
    }
  }

  /** Decoding never yields more bytes than it was given. */
  lemma {:induction false} DecodeShrinks(bytes: seq<Byte>)
    ensures Size(DecodeIgnore(bytes)) <= |bytes|
    decreases |bytes|
  {
    if bytes != [] {
      var k := Subpart(bytes);
      DecodeShrinks(bytes[k..]);
      if k == SequenceLength(bytes[0]) {
        ScalarSize(bytes);
        SizeAppend([Scalar(bytes)], DecodeIgnore(bytes[k..]));
        assert Size([Scalar(bytes)]) == CharBytes(Scalar(bytes));
      }
    }
  }

  lemma ScalarSize(bytes: seq<Byte>)
    requires bytes != [] && Subpart(bytes) == SequenceLength(bytes[0])
    ensures CharBytes(Scalar(bytes)) == Subpart(bytes)
  {
  }

  // ---- Cutting text --------------------------------------------------------------------

  const MARKER := "\n...[truncated]"

  function TruncateWith(marker: string, value: string, maxBytes: nat): string {
    var encoded := Encode(value);
    if |encoded| <= maxBytes then value
    else
      var markerBytes := Encode(marker);
      if maxBytes <= |markerBytes| then DecodeIgnore(markerBytes[..maxBytes])
      else DecodeIgnore(encoded[..maxBytes - |markerBytes|]) + marker
  }

  function TruncateTextBytes(value: string, maxBytes: nat): string {
    TruncateWith(MARKER, value, maxBytes)
  }

  function TruncateToBytes(text: string, maxBytes: int): string {
    if maxBytes <= 0 then ""
    else
      var encoded := Encode(text);
      if |encoded| <= maxBytes then text else DecodeIgnore(encoded[..maxBytes])
  }

  lemma {:induction false} AsciiSize(s: string)
    requires forall i :: 0 <= i < |s| ==> s[i] < 128 as char
    ensures Size(s) == |s|
  {
    if s != "" {
      AsciiSize(s[1..]);
    }
  }

  lemma {:induction false} AsciiWholeChars(s: string, limit: nat)
    requires limit <= |s| && forall i :: 0 <= i < |s| ==> s[i] < 128 as char
    ensures WholeChars(s, limit) == limit
  {
    if limit > 0 {
      AsciiWholeChars(s[1..], limit - 1);
    }
  }

  lemma TruncateWithIsExact(marker: string, value: string, maxBytes: nat)
    requires forall i :: 0 <= i < |marker| ==> marker[i] < 128 as char
    ensures var r := TruncateWith(marker, value, maxBytes);
            && Size(r) <= maxBytes
            && (Size(value) <= maxBytes ==> r == value)
            && (Size(value) > maxBytes && maxBytes <= |marker| ==> r == marker[..maxBytes])
            && (Size(value) > maxBytes > |marker| ==>
                  |r| >= |marker| && r == r[..|r| - |marker|] + marker
                  && LongestPrefix(value, maxBytes - |marker|, r[..|r| - |marker|]))
  {
    AsciiSize(marker);
    if Size(value) > maxBytes {
      if maxBytes <= |marker| {
        DecodePrefix(marker, maxBytes);
        AsciiWholeChars(marker, maxBytes);
        AsciiSize(marker[..maxBytes]);
      } else {
        var room := maxBytes - |marker|;
        DecodePrefix(value, room);
        WholeCharsAreLongest(value, room);
        var kept := value[..WholeChars(value, room)];
        SizeAppend(kept, marker);
        assert (kept + marker)[..|kept|] == kept;
      }
    }
  }

  /**
   * The result fits. A text that fits stays as it is; of any other, the longest whole-character
   * prefix that leaves room for the marker is kept. Up to 15 bytes there is only a part of the marker.
   */
  lemma TruncateTextBytesIsExact(value: string, maxBytes: nat)
    ensures var r := TruncateTextBytes(value, maxBytes);
            && Size(r) <= maxBytes
            && (Size(value) <= maxBytes ==> r == value)
            && (Size(value) > maxBytes && maxBytes <= 15 ==> r == MARKER[..maxBytes])
            && (Size(value) > maxBytes > 15 ==>
                  |r| >= 15 && r == r[..|r| - 15] + MARKER && LongestPrefix(value, maxBytes - 15, r[..|r| - 15]))
  {
    hide TruncateWith, Size;
    TruncateWithIsExact(MARKER, value, maxBytes);
  }

  /** The longest prefix of whole characters that fits. */
  lemma TruncateToBytesIsExact(text: string, maxBytes: int)
    ensures LongestPrefix(text, if maxBytes <= 0 then 0 else maxBytes, TruncateToBytes(text, maxBytes))
  {
    if maxBytes <= 0 {
      forall m | 0 <= m <= |text| && Size(text[..m]) <= 0 ensures m <= 0 {
        SizeIsAtLeastLength(text[..m]);
      }
    } else if Size(text) <= maxBytes {
      assert text <= text;
    } else {
      DecodePrefix(text, maxBytes);
      WholeCharsAreLongest(text, maxBytes);
    }
  }
}
