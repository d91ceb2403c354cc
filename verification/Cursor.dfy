/**
 Pagination cursors, backend/app/core/pagination.py: the JSON payload with its string escaping
 (section 7 of RFC 8259), the base64url alphabet (section 5 of RFC 4648), and the lenient decoder.

 Text is a sequence of code points. As in Python, a code point may be a surrogate.
 */
module Cursor {
  import opened Common

  type Code = c: int | 0 <= c < 0x110000 witness 0
  type Text = seq<Code>
  type Byte = b: int | 0 <= b < 256 witness 0

  const QUOTE: Code := 34
  const BACKSLASH: Code := 92
  const LETTER_U: Code := 117
  const COLON: Code := 58
  const COMMA: Code := 44
  const OPEN: Code := 123
  const CLOSE: Code := 125
  const PAD: Code := 61
  const KEY_V: Text := [118]
  const KEY_ID: Text := [105, 100]

  predicate IsHigh(c: int) {
    0xd800 <= c < 0xdc00
  }

  predicate IsLow(c: int) {
    0xdc00 <= c < 0xe000
  }

  // ---- base64url ----

  function Letter(d: int): Code
    requires 0 <= d < 64
  {
    if d < 26 then 65 + d
    else if d < 52 then 97 + (d - 26)
    else if d < 62 then 48 + (d - 52)
    else if d == 62 then 45
    else 95
  }

  /** The value of a character; both alphabets are read, anything else has none. */
  function Sextet(c: Code): (r: Option<int>)
    ensures r.Some? ==> 0 <= r.value < 64
  {
    if 65 <= c < 91 then Some(c - 65)
    else if 97 <= c < 123 then Some(c - 97 + 26)
    else if 48 <= c < 58 then Some(c - 48 + 52)
    else if c == 43 || c == 45 then Some(62)
    else if c == 47 || c == 95 then Some(63)
    else None
  }

  function Quad(a: Byte, b: Byte, c: Byte): Text {
    [Letter(a / 4), Letter(a % 4 * 16 + b / 16), Letter(b % 16 * 4 + c / 64), Letter(c % 64)]
  }

  function Encode64(bytes: seq<Byte>): Text {
    if bytes == [] then []
    else if |bytes| == 1 then Quad(bytes[0], 0, 0)[..2] + [PAD, PAD]
    else if |bytes| == 2 then Quad(bytes[0], bytes[1], 0)[..3] + [PAD]
    else Quad(bytes[0], bytes[1], bytes[2]) + Encode64(bytes[3..])
  }

  /**
   The decoder reads on over characters outside the alphabet and over padding that comes too early; a
   quad that padding completes ends the text.
   */
  function Decode64(s: Text, quad: int, left: int, pads: int): Option<seq<Byte>>
    requires 0 <= quad < 4 && 0 <= left < 64
    requires quad == 2 ==> left < 16
    requires quad == 3 ==> left < 4
    decreases |s|
  {
    if s == [] then
      if quad == 0 then Some([]) else None
    else if s[0] == PAD then
      if quad >= 2 && quad + pads + 1 >= 4 then Some([])
      else Decode64(s[1..], quad, left, if quad >= 2 then pads + 1 else pads)
    else
      match Sextet(s[0])
      case None => Decode64(s[1..], quad, left, pads)
      case Some(d) =>
        match quad
        case 0 => Decode64(s[1..], 1, d, 0)
        case 1 => Prepend(left * 4 + d / 16, Decode64(s[1..], 2, d % 16, 0))
        case 2 => Prepend(left * 16 + d / 4, Decode64(s[1..], 3, d % 4, 0))
        case _ => Prepend(left * 64 + d, Decode64(s[1..], 0, 0, 0))
  }

  function Prepend(b: Byte, tail: Option<seq<Byte>>): Option<seq<Byte>> {
    if tail.Some? then Some([b] + tail.value) else None
  }

  // ---- UTF-8 ----

  predicate Continues(b: Byte) {
    128 <= b < 192
  }

  /** The bits a continuation byte carries. */
  function Six(b: int): int {
    b - 128
  }

  /** Strict UTF-8: no overlong form, no surrogate, nothing beyond the last code point. */
  function DecodeUtf8(s: seq<Byte>): Option<Text>
    decreases |s|
  {
    if s == [] then Some([])
    else
      var lead: int := s[0];
      if lead < 0x80 then Cons(lead, DecodeUtf8(s[1..]))
      else if 0xc2 <= lead < 0xe0 && |s| >= 2 && Continues(s[1]) then
        Cons((lead - 0xc0) * 64 + Six(s[1]), DecodeUtf8(s[2..]))
      else if 0xe0 <= lead < 0xf0 && |s| >= 3 && Continues(s[1]) && Continues(s[2])
              && (lead == 0xe0 ==> s[1] >= 0xa0) && (lead == 0xed ==> s[1] < 0xa0) then
        Cons((lead - 0xe0) * 4096 + Six(s[1]) * 64 + Six(s[2]), DecodeUtf8(s[3..]))
      else if 0xf0 <= lead < 0xf5 && |s| >= 4 && Continues(s[1]) && Continues(s[2]) && Continues(s[3])
              && (lead == 0xf0 ==> s[1] >= 0x90) && (lead == 0xf4 ==> s[1] < 0x90) then
        Cons((lead - 0xf0) * 262144 + Six(s[1]) * 4096 + Six(s[2]) * 64 + Six(s[3]), DecodeUtf8(s[4..]))
      else None
  }

  function Cons(c: Code, tail: Option<Text>): Option<Text> {
    if tail.Some? then Some([c] + tail.value) else None
  }

  // ---- JSON strings ----

  function HexDigit(d: int): Code
    requires 0 <= d < 16
  {
    if d < 10 then 48 + d else 87 + d
  }

  function HexValue(c: Code): (r: Option<int>)
    ensures r.Some? ==> 0 <= r.value < 16
  {
    if 48 <= c < 58 then Some(c - 48)
    else if 97 <= c < 103 then Some(c - 87)
    else if 65 <= c < 71 then Some(c - 55)
    else None
  }

  function UnicodeEscape(n: int): Text
    requires 0 <= n < 0x10000
  {
    [BACKSLASH, LETTER_U, HexDigit(n / 4096), HexDigit(n / 256 % 16), HexDigit(n / 16 % 16), HexDigit(n % 16)]
  }

  /** The letter of a two-character escape. */
  function ShortFor(c: Code): Option<Code> {
    if c == QUOTE || c == BACKSLASH then Some(c)
    else if c == 10 then Some(110)
    else if c == 13 then Some(114)
    else if c == 9 then Some(116)
    else if c == 12 then Some(102)
    else if c == 8 then Some(98)
    else None
  }

  function HighUnit(c: Code): int
    requires c >= 0x10000
  {
    0xd800 + (c - 0x10000) / 1024
  }

  function LowUnit(c: Code): int
    requires c >= 0x10000
  {
    0xdc00 + (c - 0x10000) % 1024
  }

  /** One code point inside a string literal; only printable ASCII stands for itself. */
  function EscapeCode(c: Code): Text {
    if ShortFor(c).Some? then [BACKSLASH, ShortFor(c).value]
    else if 32 <= c <= 126 then [c]
    else if c < 0x10000 then UnicodeEscape(c)
    else UnicodeEscape(HighUnit(c)) + UnicodeEscape(LowUnit(c))
  }

  function Escape(t: Text): Text {
    if t == [] then [] else EscapeCode(t[0]) + Escape(t[1..])
  }

  /** The four hexadecimal digits after a backslash and "u" at the head of the text. */
  function ReadUnicode(s: Text): (r: Option<int>)
    ensures r.Some? ==> |s| >= 6 && 0 <= r.value < 0x10000
  {
    if |s| < 6 || s[0] != BACKSLASH || s[1] != LETTER_U then None
    else
      var a, b, c, d := HexValue(s[2]), HexValue(s[3]), HexValue(s[4]), HexValue(s[5]);
      if a.None? || b.None? || c.None? || d.None? then None
      else Some(a.value * 4096 + b.value * 256 + c.value * 16 + d.value)
  }

  function ShortEscape(c: Code): Option<Code> {
    if c == QUOTE || c == BACKSLASH || c == 47 then Some(c)
    else if c == 98 then Some(8)
    else if c == 102 then Some(12)
    else if c == 110 then Some(10)
    else if c == 114 then Some(13)
    else if c == 116 then Some(9)
    else None
  }

  function Joined(high: int, low: int): Code
    requires IsHigh(high) && IsLow(low)
  {
    0x10000 + (high - 0xd800) * 1024 + (low - 0xdc00)
  }

  function PutFirst(c: Code, tail: Option<(Text, Text)>): Option<(Text, Text)> {
    if tail.Some? then Some(([c] + tail.value.0, tail.value.1)) else None
  }

  /** The string whose opening quote has just been read, and the text after its closing quote. */
  function ReadString(s: Text): (r: Option<(Text, Text)>)
    ensures r.Some? ==> |r.value.1| < |s|
    decreases |s|
  {
    if s == [] || s[0] < 32 then None
    else if s[0] == QUOTE then Some(([], s[1..]))
    else if s[0] != BACKSLASH then PutFirst(s[0], ReadString(s[1..]))
    else if |s| >= 2 && ShortEscape(s[1]).Some? then PutFirst(ShortEscape(s[1]).value, ReadString(s[2..]))
    else
      match ReadUnicode(s)
      case None => None
      case Some(c) =>
        var next := ReadUnicode(s[6..]);
        if IsHigh(c) && next.Some? && IsLow(next.value) then PutFirst(Joined(c, next.value), ReadString(s[12..]))
        else PutFirst(c, ReadString(s[6..]))
  }

  // ---- JSON objects ----

  predicate IsSpace(c: Code) {
    c == 32 || c == 9 || c == 10 || c == 13
  }

  function Skip(s: Text): (r: Text)
    ensures |r| <= |s|
    ensures r != [] ==> !IsSpace(r[0])
  {
    if s != [] && IsSpace(s[0]) then Skip(s[1..]) else s
  }

  /**
   The reading of a value that is not a string, which the json module does: what str() makes of the
   value that starts the text, and how many characters it takes.
   */
  type Other = Text -> Option<(Text, nat)>

  function ReadValue(s: Text, other: Other): (r: Option<(Text, Text)>)
    ensures r.Some? ==> |r.value.1| < |s|
  {
    if s == [] then None
    else if s[0] == QUOTE then ReadString(s[1..])
    else
      match other(s)
      case None => None
      case Some((shown, length)) => if 0 < length <= |s| then Some((shown, s[length..])) else None
  }

  /** A name, a colon and a value. */
  function ReadMember(s: Text, other: Other): (r: Option<((Text, Text), Text)>)
    ensures r.Some? ==> |r.value.1| < |s|
  {
    if s == [] || s[0] != QUOTE then None
    else
      match ReadString(s[1..])
      case None => None
      case Some((key, afterKey)) =>
        var colon := Skip(afterKey);
        if colon == [] || colon[0] != COLON then None
        else
          match ReadValue(Skip(colon[1..]), other)
          case None => None
          case Some((value, rest)) => Some(((key, value), Skip(rest)))
  }

  /** The members up to the closing brace; the last of several with one name is kept. */
  function ReadMembers(s: Text, other: Other): Option<(map<Text, Text>, Text)>
    decreases |s|
  {
    match ReadMember(s, other)
    case None => None
    case Some(((key, value), rest)) =>
      if rest != [] && rest[0] == CLOSE then Some((map[key := value], rest[1..]))
      else if rest != [] && rest[0] == COMMA then
        match ReadMembers(Skip(rest[1..]), other)
        case None => None
        case Some((later, end)) => Some((map[key := value] + later, end))
      else None
  }

  /** A whole text that is one object; a byte order mark or anything after the object is refused. */
  function ReadObject(s: Text, other: Other): Option<map<Text, Text>> {
    var open := Skip(s);
    if open == [] || open[0] != OPEN then None
    else
      var inner := Skip(open[1..]);
      var read := if inner != [] && inner[0] == CLOSE then Some((map[], inner[1..])) else ReadMembers(inner, other);
      if read.Some? && Skip(read.value.1) == [] then Some(read.value.0) else None
  }

  // ---- cursors ----

  function Member(key: Text, value: Text): Text {
    [QUOTE] + (Escape(key) + ([QUOTE] + ([COLON, QUOTE] + (Escape(value) + [QUOTE]))))
  }

  /** The payload; all of it is ASCII, so its characters are its UTF-8 bytes. */
  function Payload(v: Text, id: Text): Text {
    [OPEN] + (Member(KEY_V, v) + ([COMMA] + (Member(KEY_ID, id) + [CLOSE])))
  }

  function EncodeCursor(v: Text, id: Text): Text {
    PayloadIsAscii(v, id);
    AsciiBytes(Payload(v, id));
    Encode64(Payload(v, id))
  }

  /** None when the cursor is malformed. A surrogate cannot be written in UTF-8; other non-ASCII text is skipped. */
  function DecodeCursor(cursor: Text, other: Other): Option<(Text, Text)> {
    if exists c :: c in cursor && (IsHigh(c) || IsLow(c)) then None
    else
      match Decode64(cursor, 0, 0, 0)
      case None => None
      case Some(bytes) =>
        match DecodeUtf8(bytes)
        case None => None
        case Some(payload) =>
          match ReadObject(payload, other)
          case None => None
          case Some(data) => if KEY_V in data && KEY_ID in data then Some((data[KEY_V], data[KEY_ID])) else None
  }

  predicate Ascii(t: Text) {
    forall i :: 0 <= i < |t| ==> t[i] < 128
  }

  lemma EscapeIsAscii(t: Text)
    ensures Ascii(Escape(t))
  {
  }

  lemma MemberIsAscii(key: Text, value: Text)
    requires Ascii(Escape(key))
    ensures Ascii(Member(key, value))
  {
    EscapeIsAscii(value);
    var end := Escape(value) + [QUOTE];
    assert Ascii(end);
    var middle := [QUOTE] + ([COLON, QUOTE] + end);
    assert Ascii(middle);
    assert Ascii(Escape(key) + middle);
  }

  lemma PayloadIsAscii(v: Text, id: Text)
    ensures Ascii(Payload(v, id))
  {
    EscapeIsAscii(KEY_V);
    EscapeIsAscii(KEY_ID);
    MemberIsAscii(KEY_V, v);
    MemberIsAscii(KEY_ID, id);
    var end := [COMMA] + (Member(KEY_ID, id) + [CLOSE]);
    assert Ascii(end);
    assert Ascii(Member(KEY_V, v) + end);
  }

  lemma AsciiBytes(t: Text)
    requires Ascii(t)
    ensures forall i :: 0 <= i < |t| ==> 0 <= t[i] < 256
  {
  }

  // ---- base64 round trip ----

  lemma {:induction false} Base64RoundTrip(bytes: seq<Byte>)
    ensures Decode64(Encode64(bytes), 0, 0, 0) == Some(bytes)
    decreases |bytes|
  {
    if |bytes| == 1 {
      assert bytes == [bytes[0]];
      ReadOneByte(bytes[0]);
    } else if |bytes| == 2 {
      assert bytes == [bytes[0], bytes[1]];
      ReadTwoBytes(bytes[0], bytes[1]);
    } else if |bytes| >= 3 {
      Base64RoundTrip(bytes[3..]);
      ReadQuad(bytes[0], bytes[1], bytes[2], Encode64(bytes[3..]));
      assert bytes == [bytes[0]] + ([bytes[1]] + ([bytes[2]] + bytes[3..]));
    }
  }

  /** One letter read, whatever has been read before. */
  lemma ReadLetter(d: int, tail: Text, quad: int, left: int)
    requires 0 <= d < 64 && 0 <= quad < 4 && 0 <= left < 64
    requires (quad == 2 ==> left < 16) && (quad == 3 ==> left < 4)
    ensures Decode64([Letter(d)] + tail, quad, left, 0)
            == match quad
               case 0 => Decode64(tail, 1, d, 0)
               case 1 => Prepend(left * 4 + d / 16, Decode64(tail, 2, d % 16, 0))
               case 2 => Prepend(left * 16 + d / 4, Decode64(tail, 3, d % 4, 0))
               case _ => Prepend(left * 64 + d, Decode64(tail, 0, 0, 0))
  {
    assert ([Letter(d)] + tail)[1..] == tail;
    assert Sextet(Letter(d)) == Some(d) && Letter(d) != PAD;
  }

  /** The four groups of six bits hold the three bytes. */
  lemma QuadBits(a: Byte, b: Byte, c: Byte)
    ensures var d1, d2, d3, d4 := a / 4, a % 4 * 16 + b / 16, b % 16 * 4 + c / 64, c % 64;
            && d1 * 4 + d2 / 16 == a
            && d2 % 16 == b / 16
            && d2 % 16 * 16 + d3 / 4 == b
            && d3 % 4 == c / 64
            && d3 % 4 * 64 + d4 == c
  {
  }

  lemma ReadQuad(a: Byte, b: Byte, c: Byte, tail: Text)
    ensures Decode64(Quad(a, b, c) + tail, 0, 0, 0) == Prepend(a, Prepend(b, Prepend(c, Decode64(tail, 0, 0, 0))))
  {
    var d1, d2, d3, d4 := a / 4, a % 4 * 16 + b / 16, b % 16 * 4 + c / 64, c % 64;
    var s3 := [Letter(d4)] + tail;
    var s2 := [Letter(d3)] + s3;
    var s1 := [Letter(d2)] + s2;
    assert Quad(a, b, c) + tail == [Letter(d1)] + s1;
    QuadBits(a, b, c);
    ReadLetter(d1, s1, 0, 0);
    ReadLetter(d2, s2, 1, d1);
    ReadLetter(d3, s3, 2, d2 % 16);
    ReadLetter(d4, tail, 3, d3 % 4);
  }

  lemma ReadOneByte(a: Byte)
    ensures Decode64(Encode64([a]), 0, 0, 0) == Some([a])
  {
    var d1, d2 := a / 4, a % 4 * 16;
    assert Encode64([a]) == [Letter(d1)] + ([Letter(d2)] + [PAD, PAD]);
    ReadLetter(d1, [Letter(d2)] + [PAD, PAD], 0, 0);
    ReadLetter(d2, [PAD, PAD], 1, d1);
    QuadBits(a, 0, 0);
    assert d1 * 4 + d2 / 16 == a && d2 % 16 == 0;
    var none: seq<Byte> := [];
    assert [a] + none == [a];
    assert [PAD, PAD][1..] == [PAD];
    assert Decode64([PAD], 2, 0, 1) == Some([]);
    assert Decode64([PAD, PAD], 2, 0, 0) == Some([]);
  }

  lemma ReadTwoBytes(a: Byte, b: Byte)
    ensures Decode64(Encode64([a, b]), 0, 0, 0) == Some([a, b])
  {
    var d1, d2, d3 := a / 4, a % 4 * 16 + b / 16, b % 16 * 4;
    assert Encode64([a, b]) == [Letter(d1)] + ([Letter(d2)] + ([Letter(d3)] + [PAD]));
    ReadLetter(d1, [Letter(d2)] + ([Letter(d3)] + [PAD]), 0, 0);
    ReadLetter(d2, [Letter(d3)] + [PAD], 1, d1);
    ReadLetter(d3, [PAD], 2, d2 % 16);
    QuadBits(a, b, 0);
    assert d1 * 4 + d2 / 16 == a && d2 % 16 * 16 + d3 / 4 == b && d3 % 4 == 0;
    assert Decode64([PAD], 3, 0, 0) == Some([]);
    var none: seq<Byte> := [];
    assert [a] + ([b] + none) == [a, b];
  }

  // ---- UTF-8 of ASCII ----

  lemma {:induction false} AsciiUtf8(t: seq<Byte>)
    requires forall i :: 0 <= i < |t| ==> t[i] < 128
    ensures DecodeUtf8(t) == Some(t)
    decreases |t|
  {
    if t != [] {
      AsciiUtf8(t[1..]);
      assert t == [t[0]] + t[1..];
    }
  }

  // ---- string round trip ----

  /** Every adjacent high and low surrogate become the one character they stand for. */
  function Merged(t: Text): Text {
    if t == [] then []
    else if |t| >= 2 && IsHigh(t[0]) && IsLow(t[1]) then [Joined(t[0], t[1])] + Merged(t[2..])
    else [t[0]] + Merged(t[1..])
  }

  /** A surrogate pair at position i, written as two code points. */
  predicate PairAt(t: Text, i: int) {
    0 <= i < |t| - 1 && IsHigh(t[i]) && IsLow(t[i + 1])
  }

  predicate SplitPair(t: Text) {
    exists i :: 0 <= i < |t| - 1 && PairAt(t, i)
  }

  lemma {:induction false} MergedIff(t: Text)
    ensures |Merged(t)| <= |t|
    ensures Merged(t) == t <==> !SplitPair(t)
    decreases |t|
  {
    if t == [] {
    } else if |t| >= 2 && IsHigh(t[0]) && IsLow(t[1]) {
      MergedIff(t[2..]);
      assert PairAt(t, 0);
    } else {
      MergedIff(t[1..]);
      assert t == [t[0]] + t[1..];
      if i :| 0 <= i < |t[1..]| - 1 && PairAt(t[1..], i) {
        assert PairAt(t, i + 1);
      }
      if i :| 0 <= i < |t| - 1 && PairAt(t, i) {
        assert PairAt(t[1..], i - 1);
      }
    }
  }

  lemma HexDigitRead(d: int)
    requires 0 <= d < 16
    ensures HexValue(HexDigit(d)) == Some(d)
  {
  }

  lemma HexDigitsSum(n: int)
    requires 0 <= n < 0x10000
    ensures n == n / 4096 * 4096 + n / 256 % 16 * 256 + n / 16 % 16 * 16 + n % 16
  {
    assert n / 16 == n / 256 * 16 + n / 16 % 16;
    assert n / 256 == n / 4096 * 16 + n / 256 % 16;
  }

  lemma HexRead(n: int, tail: Text)
    requires 0 <= n < 0x10000
    ensures ReadUnicode(UnicodeEscape(n) + tail) == Some(n)
    ensures (UnicodeEscape(n) + tail)[6..] == tail
  {
    var s := UnicodeEscape(n) + tail;
    FourDigits(s, n / 4096, n / 256 % 16, n / 16 % 16, n % 16);
    HexDigitsSum(n);
  }

  lemma FourDigits(s: Text, a: int, b: int, c: int, d: int)
    requires 0 <= a < 16 && 0 <= b < 16 && 0 <= c < 16 && 0 <= d < 16
    requires |s| >= 6 && s[..6] == [BACKSLASH, LETTER_U, HexDigit(a), HexDigit(b), HexDigit(c), HexDigit(d)]
    ensures ReadUnicode(s) == Some(a * 4096 + b * 256 + c * 16 + d)
  {
    HexDigitRead(a);
    HexDigitRead(b);
    HexDigitRead(c);
    HexDigitRead(d);
    var six := s[..6];
    assert six[0] == s[0] && six[1] == s[1] && six[2] == s[2] && six[3] == s[3] && six[4] == s[4] && six[5] == s[5];
  }

  /** What the reader finds where it looks for a second escaped unit. */
  function SecondUnit(s: Text): Option<int> {
    var next := ReadUnicode(s);
    if next.Some? && IsLow(next.value) then next else None
  }

  /** Text written after a high surrogate offers a low one exactly when it starts with one. */
  lemma NextUnit(c: Code, rest: Text)
    ensures SecondUnit(EscapeCode(c) + rest) == if IsLow(c) then Some(c as int) else None
  {
    var s := EscapeCode(c) + rest;
    if ShortFor(c).Some? {
      assert s[1] == ShortFor(c).value;
    } else if 32 <= c <= 126 {
      assert s[0] == c;
    } else if c < 0x10000 {
      HexRead(c, rest);
    } else {
      assert s == UnicodeEscape(HighUnit(c)) + (UnicodeEscape(LowUnit(c)) + rest);
      HexRead(HighUnit(c), UnicodeEscape(LowUnit(c)) + rest);
    }
  }

  /** An escaped unit reads as itself unless a high one is followed by a low one. */
  lemma ReadUnit(n: int, rest: Text)
    requires 0 <= n < 0x10000 && (IsHigh(n) ==> SecondUnit(rest).None?)
    ensures ReadString(UnicodeEscape(n) + rest) == PutFirst(n, ReadString(rest))
  {
    HexRead(n, rest);
    assert ShortEscape(LETTER_U).None?;
  }

  /** An escaped pair of units reads as one character. */
  lemma ReadPair(high: int, low: int, after: Text)
    requires IsHigh(high) && IsLow(low)
    ensures ReadString(UnicodeEscape(high) + (UnicodeEscape(low) + after)) == PutFirst(Joined(high, low), ReadString(after))
  {
    var tail := UnicodeEscape(low) + after;
    var whole := UnicodeEscape(high) + tail;
    HexRead(high, tail);
    HexRead(low, after);
    assert whole[12..] == after by {
      assert whole[6..][6..] == whole[12..];
    }
    assert ShortEscape(LETTER_U).None?;
  }

  lemma ReadShort(c: Code, rest: Text)
    requires ShortFor(c).Some?
    ensures ReadString([BACKSLASH, ShortFor(c).value] + rest) == PutFirst(c, ReadString(rest))
  {
    var whole := [BACKSLASH, ShortFor(c).value] + rest;
    assert whole[2..] == rest;
    assert ShortEscape(ShortFor(c).value) == Some(c);
  }

  /** A character that does not start a pair is read back as itself. */
  lemma ReadOne(c: Code, rest: Text)
    requires IsHigh(c) ==> SecondUnit(rest).None?
    ensures ReadString(EscapeCode(c) + rest) == PutFirst(c, ReadString(rest))
  {
    if ShortFor(c).Some? {
      ReadShort(c, rest);
    } else if 32 <= c <= 126 {
      assert ([c] + rest)[1..] == rest;
    } else if c < 0x10000 {
      ReadUnit(c, rest);
    } else {
      assert EscapeCode(c) + rest == UnicodeEscape(HighUnit(c)) + (UnicodeEscape(LowUnit(c)) + rest);
      ReadPair(HighUnit(c), LowUnit(c), rest);
    }
  }

  /** A string after its opening quote. */
  function Literal(t: Text, tail: Text): Text {
    Escape(t) + ([QUOTE] + tail)
  }

  lemma LiteralStep(t: Text, tail: Text)
    requires t != []
    ensures Literal(t, tail) == EscapeCode(t[0]) + Literal(t[1..], tail)
  {
  }

  lemma LiteralStart(t: Text, tail: Text)
    ensures SecondUnit(Literal(t, tail)) == if t != [] && IsLow(t[0]) then Some(t[0] as int) else None
  {
    if t == [] {
      assert Literal(t, tail)[0] == QUOTE;
    } else {
      LiteralStep(t, tail);
      NextUnit(t[0], Literal(t[1..], tail));
    }
  }

  lemma ReadEscapedPair(high: Code, low: Code, after: Text)
    requires IsHigh(high) && IsLow(low)
    ensures ReadString(EscapeCode(high) + (EscapeCode(low) + after)) == PutFirst(Joined(high, low), ReadString(after))
  {
    assert EscapeCode(high) == UnicodeEscape(high) && EscapeCode(low) == UnicodeEscape(low);
    ReadPair(high, low, after);
  }

  lemma LiteralPair(t: Text, tail: Text)
    requires |t| >= 2 && IsHigh(t[0]) && IsLow(t[1])
    ensures ReadString(Literal(t, tail)) == PutFirst(Joined(t[0], t[1]), ReadString(Literal(t[2..], tail)))
  {
    LiteralStep(t, tail);
    LiteralStep(t[1..], tail);
    assert t[1..][0] == t[1] && t[1..][1..] == t[2..];
    ReadEscapedPair(t[0], t[1], Literal(t[2..], tail));
  }

  lemma {:induction false} StringRoundTrip(t: Text, tail: Text)
    ensures ReadString(Literal(t, tail)) == Some((Merged(t), tail))
    decreases |t|
  {
    if t == [] {
      assert Literal(t, tail) == [QUOTE] + tail;
    } else if |t| >= 2 && IsHigh(t[0]) && IsLow(t[1]) {
      StringRoundTrip(t[2..], tail);
      LiteralPair(t, tail);
    } else {
      StringRoundTrip(t[1..], tail);
      LiteralStep(t, tail);
      LiteralStart(t[1..], tail);
      ReadOne(t[0], Literal(t[1..], tail));
    }
  }

  // ---- cursor round trip ----

  lemma MemberRoundTrip(key: Text, value: Text, tail: Text, other: Other)
    requires tail != [] && !IsSpace(tail[0])
    ensures ReadMember(Member(key, value) + tail, other) == Some(((Merged(key), Merged(value)), tail))
  {
    var quoted := [QUOTE] + Literal(value, tail);
    MemberText(key, value, tail);
    ValueRoundTrip(value, tail, other);
    MemberReads(key, quoted, Merged(value), tail, other);
  }

  lemma MemberText(key: Text, value: Text, tail: Text)
    ensures Member(key, value) + tail == [QUOTE] + Literal(key, [COLON] + ([QUOTE] + Literal(value, tail)))
  {
  }

  /** A name and a colon before a text that reads as a value. */
  lemma MemberReads(key: Text, quoted: Text, value: Text, tail: Text, other: Other)
    requires quoted != [] && quoted[0] == QUOTE && tail != [] && !IsSpace(tail[0])
    requires ReadValue(quoted, other) == Some((value, tail))
    ensures ReadMember([QUOTE] + Literal(key, [COLON] + quoted), other) == Some(((Merged(key), value), tail))
  {
    var afterKey := [COLON] + quoted;
    StringRoundTrip(key, afterKey);
    assert ([QUOTE] + Literal(key, afterKey))[1..] == Literal(key, afterKey);
    assert Skip(afterKey) == afterKey && afterKey[1..] == quoted && Skip(quoted) == quoted;
    assert Skip(tail) == tail;
  }

  lemma ValueRoundTrip(value: Text, tail: Text, other: Other)
    ensures ReadValue([QUOTE] + Literal(value, tail), other) == Some((Merged(value), tail))
  {
    assert ([QUOTE] + Literal(value, tail))[1..] == Literal(value, tail);
    StringRoundTrip(value, tail);
  }

  /** Two members and the closing brace. */
  lemma MembersRoundTrip(k1: Text, v1: Text, k2: Text, v2: Text, other: Other)
    ensures ReadMembers(Member(k1, v1) + ([COMMA] + (Member(k2, v2) + [CLOSE])), other)
            == Some((map[Merged(k1) := Merged(v1)] + map[Merged(k2) := Merged(v2)], []))
  {
    var second := Member(k2, v2) + [CLOSE];
    var rest := [COMMA] + second;
    MemberRoundTrip(k1, v1, rest, other);
    MemberRoundTrip(k2, v2, [CLOSE], other);
    assert [CLOSE][1..] == [];
    assert ReadMembers(second, other) == Some((map[Merged(k2) := Merged(v2)], []));
    assert rest[1..] == second && second[0] == QUOTE && Skip(second) == second;
  }

  lemma PayloadRoundTrip(v: Text, id: Text, other: Other)
    ensures ReadObject(Payload(v, id), other) == Some(map[KEY_V := Merged(v)] + map[KEY_ID := Merged(id)])
  {
    var inner := Member(KEY_V, v) + ([COMMA] + (Member(KEY_ID, id) + [CLOSE]));
    var s := [OPEN] + inner;
    KeysArePlain();
    MembersRoundTrip(KEY_V, v, KEY_ID, id, other);
    assert inner[0] == QUOTE && s[1..] == inner;
    assert Skip(s) == s && Skip(inner) == inner;
  }

  lemma KeysArePlain()
    ensures Merged(KEY_V) == KEY_V && Merged(KEY_ID) == KEY_ID
  {
    MergedIff(KEY_V);
    MergedIff(KEY_ID);
  }

  lemma Encode64IsAscii(bytes: seq<Byte>)
    ensures Ascii(Encode64(bytes))
  {
  }

  /** ASCII text goes through both transport encodings unchanged. */
  lemma AsciiRoundTrip(t: Text)
    requires Ascii(t) && forall i :: 0 <= i < |t| ==> 0 <= t[i] < 256
    ensures Decode64(Encode64(t), 0, 0, 0) == Some(t) && DecodeUtf8(t) == Some(t) && Ascii(Encode64(t))
  {
    Base64RoundTrip(t);
    AsciiUtf8(t);
    Encode64IsAscii(t);
  }

  lemma ReadsBack(cursor: Text, payload: Text, data: map<Text, Text>, other: Other)
    requires Ascii(cursor) && Ascii(payload) && KEY_V in data && KEY_ID in data
    requires Decode64(cursor, 0, 0, 0) == Some(payload) && DecodeUtf8(payload) == Some(payload)
    requires ReadObject(payload, other) == Some(data)
    ensures DecodeCursor(cursor, other) == Some((data[KEY_V], data[KEY_ID]))
  {
  }

  /** What comes back is what went in, with split surrogate pairs joined. */
  lemma CursorComesBack(v: Text, id: Text, other: Other)
    ensures DecodeCursor(EncodeCursor(v, id), other) == Some((Merged(v), Merged(id)))
  {
    var payload := Payload(v, id);
    PayloadIsAscii(v, id);
    AsciiBytes(payload);
    AsciiRoundTrip(payload);
    PayloadRoundTrip(v, id, other);
    assert |KEY_V| != |KEY_ID|;
    ReadsBack(Encode64(payload), payload, map[KEY_V := Merged(v)] + map[KEY_ID := Merged(id)], other);
  }

  /**
   Decoding an encoded cursor gives back the pair exactly when neither text holds a high surrogate
   directly followed by a low one; no text of Unicode scalar values does.
   */
  lemma CursorRoundTripIff(v: Text, id: Text, other: Other)
    ensures DecodeCursor(EncodeCursor(v, id), other) == Some((v, id)) <==> !SplitPair(v) && !SplitPair(id)
  {
    CursorComesBack(v, id, other);
    MergedIff(v);
    MergedIff(id);
  }
}
