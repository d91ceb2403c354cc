/**
 What a cursor looks like on the wire, and what the decoder reads besides the encoder's own output: both base64
 alphabets (sections 4 and 5 of RFC 4648), all of UTF-8 (section 3 of RFC 3629), and JSON with white space and members in
 either order (section 2 of RFC 8259). backend/app/core/pagination.py:40-73.
 */
module CursorReading {
  import opened Common
  import opened Cursor

  // ---- the characters of a cursor ----

  /** Letters, digits, hyphen and underscore: the characters a URL carries unescaped. */
  predicate UrlSafe(c: Code) {
    || 'A' as int <= c <= 'Z' as int || 'a' as int <= c <= 'z' as int || '0' as int <= c <= '9' as int
    || c == '-' as int || c == '_' as int
  }

  /** The 64 letters in the order of their values: capitals, small letters, digits, hyphen, underscore. */
  lemma Alphabet(d: int)
    requires 0 <= d < 64
    ensures UrlSafe(Letter(d))
    ensures 'A' as int <= Letter(d) <= 'Z' as int <==> d <= 25
    ensures 'a' as int <= Letter(d) <= 'z' as int <==> 26 <= d <= 51
    ensures '0' as int <= Letter(d) <= '9' as int <==> 52 <= d <= 61
    ensures Letter(d) == '-' as int <==> d == 62
    ensures Letter(d) == '_' as int <==> d == 63
    ensures d !in {25, 51, 61, 62, 63} ==> Letter(d + 1) == Letter(d) + 1
  {
  }

  ghost predicate Shaped(bytes: seq<Byte>, body: Text, pads: nat) {
    && Encode64(bytes) == body + seq(pads, _ => '=' as int)
    && (forall c :: c in body ==> UrlSafe(c))
    && pads < 3 && 3 * |body| == 4 * |bytes| + pads
  }

  lemma OneShaped(a: Byte)
    ensures Shaped([a], Quad(a, 0, 0)[..2], 2)
  {
    Alphabet(a / 4);
    Alphabet(a % 4 * 16);
  }

  lemma TwoShaped(a: Byte, b: Byte)
    ensures Shaped([a, b], Quad(a, b, 0)[..3], 1)
  {
    QuadIsSafe(a, b, 0);
  }

  lemma ThreeShaped(a: Byte, b: Byte, c: Byte, rest: seq<Byte>, body: Text, pads: nat)
    requires Shaped(rest, body, pads)
    ensures Shaped([a, b, c] + rest, Quad(a, b, c) + body, pads)
  {
    QuadIsSafe(a, b, c);
    ThreeBytes(a, b, c, rest);
    Associate(Quad(a, b, c), body, seq(pads, _ => '=' as int));
  }

  /** Characters of the alphabet, then as many padding characters as bring the length to a multiple of four. */
  lemma {:induction false} EncodedShape(bytes: seq<Byte>) returns (body: Text, pads: nat)
    ensures Encode64(bytes) == body + seq(pads, _ => '=' as int)
    ensures forall c :: c in body ==> UrlSafe(c)
    ensures pads < 3 && 3 * |body| == 4 * |bytes| + pads && |Encode64(bytes)| % 4 == 0
    decreases |bytes|
  {
    if |bytes| == 0 {
      body, pads := [], 0;
    } else if |bytes| == 1 {
      body, pads := Quad(bytes[0], 0, 0)[..2], 2;
      OneShaped(bytes[0]);
      assert bytes == [bytes[0]];
    } else if |bytes| == 2 {
      body, pads := Quad(bytes[0], bytes[1], 0)[..3], 1;
      TwoShaped(bytes[0], bytes[1]);
      assert bytes == [bytes[0], bytes[1]];
    } else {
      body, pads := EncodedShape(bytes[3..]);
      ThreeShaped(bytes[0], bytes[1], bytes[2], bytes[3..], body, pads);
      body := Quad(bytes[0], bytes[1], bytes[2]) + body;
      assert bytes == [bytes[0], bytes[1], bytes[2]] + bytes[3..];
    }
    assert Shaped(bytes, body, pads);
  }

  lemma Associate(a: Text, b: Text, c: Text)
    ensures a + (b + c) == (a + b) + c
  {
  }

  lemma QuadIsSafe(a: Byte, b: Byte, c: Byte)
    ensures forall x :: x in Quad(a, b, c) ==> UrlSafe(x)
  {
    Alphabet(a / 4);
    Alphabet(a % 4 * 16 + b / 16);
    Alphabet(b % 16 * 4 + c / 64);
    Alphabet(c % 64);
  }

  /** A cursor holds nothing that a query parameter would have to escape but its padding. */
  lemma CursorIsUrlSafe(v: Text, id: Text)
    ensures CarriedByUrl(EncodeCursor(v, id))
  {
    PayloadIsAscii(v, id);
    AsciiBytes(Payload(v, id));
    EncodedIsUrlSafe(Payload(v, id));
  }

  predicate CarriedByUrl(s: Text) {
    |s| % 4 == 0 && forall i :: 0 <= i < |s| ==> UrlSafe(s[i]) || s[i] == '=' as int
  }

  lemma EncodedIsUrlSafe(bytes: seq<Byte>)
    ensures CarriedByUrl(Encode64(bytes))
  {
    var body, pads := EncodedShape(bytes);
    forall i | 0 <= i < |Encode64(bytes)| ensures UrlSafe(Encode64(bytes)[i]) || Encode64(bytes)[i] == '=' as int {
      assert i < |body| ==> Encode64(bytes)[i] == body[i] && body[i] in body;
    }
  }

  /** The test vectors of section 10 of RFC 4648 for "f", "fo" and "foobar". */
  lemma TestVectors()
    ensures Encode64([102]) == [90, 103, 61, 61]
    ensures Encode64([102, 111]) == [90, 109, 56, 61]
    ensures Encode64([102, 111, 111] + [98, 97, 114]) == [90, 109, 57, 118] + [89, 109, 70, 121]
  {
    ThreeBytes(98, 97, 114, []);
    ThreeBytes(102, 111, 111, [98, 97, 114]);
    assert [98, 97, 114] + [] == [98, 97, 114];
  }

  lemma ThreeBytes(a: Byte, b: Byte, c: Byte, rest: seq<Byte>)
    ensures Encode64([a, b, c] + rest) == Quad(a, b, c) + Encode64(rest)
  {
    assert ([a, b, c] + rest)[3..] == rest;
  }

  /** The standard alphabet's plus and slash in place of hyphen and underscore. */
  function Standard(s: Text): Text {
    seq(|s|, i requires 0 <= i < |s| => if s[i] == 45 then 43 else if s[i] == 95 then 47 else s[i])
  }

  /** The decoder reads both alphabets alike. */
  lemma {:induction false} BothAlphabets(s: Text, quad: int, left: int, pads: int)
    requires 0 <= quad < 4 && 0 <= left < 64 && (quad == 2 ==> left < 16) && (quad == 3 ==> left < 4)
    ensures Decode64(Standard(s), quad, left, pads) == Decode64(s, quad, left, pads)
    decreases |s|
  {
    if s != [] {
      assert Standard(s)[1..] == Standard(s[1..]);
      assert Sextet(Standard(s)[0]) == Sextet(s[0]) && (Standard(s)[0] == PAD <==> s[0] == PAD);
      if s[0] == PAD {
        if !(quad >= 2 && quad + pads + 1 >= 4) {
          BothAlphabets(s[1..], quad, left, if quad >= 2 then pads + 1 else pads);
        }
      } else if Sextet(s[0]).None? {
        BothAlphabets(s[1..], quad, left, pads);
      } else {
        var d := Sextet(s[0]).value;
        BothAlphabets(s[1..], (quad + 1) % 4, if quad == 0 then d else if quad == 1 then d % 16 else if quad == 2 then d % 4 else 0, 0);
      }
    }
  }

  predicate IsLetter(c: Code) {
    UrlSafe(c) || c == '+' as int || c == '/' as int
  }

  lemma LettersHaveValues(c: Code)
    ensures IsLetter(c) <==> Sextet(c).Some?
    ensures IsLetter(c) ==> c != PAD
  {
  }

  /** The letters and the padding of a text. */
  function Kept(s: Text): Text {
    if s == [] then [] else (if IsLetter(s[0]) || s[0] == '=' as int then [s[0]] else []) + Kept(s[1..])
  }

  /** Anything else is read over. */
  lemma {:induction false} NoiseIgnored(s: Text, quad: int, left: int, pads: int)
    requires 0 <= quad < 4 && 0 <= left < 64 && (quad == 2 ==> left < 16) && (quad == 3 ==> left < 4)
    ensures Decode64(Kept(s), quad, left, pads) == Decode64(s, quad, left, pads)
    decreases |s|
  {
    if s != [] {
      LettersHaveValues(s[0]);
      assert (([s[0]]) + Kept(s[1..]))[1..] == Kept(s[1..]);
      if s[0] == PAD {
        if !(quad >= 2 && quad + pads + 1 >= 4) {
          NoiseIgnored(s[1..], quad, left, if quad >= 2 then pads + 1 else pads);
        }
      } else if Sextet(s[0]).None? {
        assert Kept(s) == Kept(s[1..]);
        NoiseIgnored(s[1..], quad, left, pads);
      } else {
        var d := Sextet(s[0]).value;
        NoiseIgnored(s[1..], (quad + 1) % 4, if quad == 0 then d else if quad == 1 then d % 16 else if quad == 2 then d % 4 else 0, 0);
      }
    }
  }

  /** Letters alone are malformed unless they come in fours. */
  lemma {:induction false} PaddingNeeded(s: Text, quad: int, left: int, pads: int)
    requires 0 <= quad < 4 && 0 <= left < 64 && (quad == 2 ==> left < 16) && (quad == 3 ==> left < 4)
    requires forall i :: 0 <= i < |s| ==> IsLetter(s[i])
    ensures Decode64(s, quad, left, pads).Some? <==> (quad + |s|) % 4 == 0
    decreases |s|
  {
    if s != [] {
      LettersHaveValues(s[0]);
      var d := Sextet(s[0]).value;
      PaddingNeeded(s[1..], (quad + 1) % 4, if quad == 0 then d else if quad == 1 then d % 16 else if quad == 2 then d % 4 else 0, 0);
    }
  }

  /** Padding that completes a quad ends the text, whatever follows; before that it is read over. */
  lemma PaddingEnds(left: int, rest: Text)
    requires 0 <= left < 4
    ensures Decode64(['=' as int, '=' as int] + rest, 2, left, 0) == Some([])
    ensures Decode64(['=' as int] + rest, 3, left, 0) == Some([])
    ensures Decode64(['=' as int] + rest, 0, left, 0) == Decode64(rest, 0, left, 0)
    ensures Decode64(['=' as int] + rest, 1, left, 0) == Decode64(rest, 1, left, 0)
  {
    var one, two := ['=' as int] + rest, ['=' as int, '=' as int] + rest;
    assert one[1..] == rest && two[1..] == one;
    assert Decode64(one, 2, left, 1) == Some([]);
  }

  // ---- the payload ----

  /** {"v":"...","id":"..."} with nothing between the tokens. */
  lemma PayloadText(v: Text, id: Text)
    ensures Payload(v, id)
            == [123, 34, 118, 34, 58, 34] + Escape(v) + [34, 44, 34, 105, 100, 34, 58, 34] + Escape(id) + [34, 125]
  {
    KeysEscape();
    MemberWritten([118], [118], v);
    MemberWritten([105, 100], [105, 100], id);
    Enclosed(Escape(v), Escape(id));
  }

  lemma MemberWritten(key: Text, written: Text, value: Text)
    requires Escape(key) == written
    ensures Member(key, value) == [34] + written + [34, 58, 34] + Escape(value) + [34]
  {
  }

  lemma Enclosed(a: Text, b: Text)
    ensures [123] + (([34] + [118] + [34, 58, 34] + a + [34]) + ([44] + (([34] + [105, 100] + [34, 58, 34] + b + [34]) + [125])))
            == [123, 34, 118, 34, 58, 34] + a + [34, 44, 34, 105, 100, 34, 58, 34] + b + [34, 125]
  {
  }

  lemma KeysEscape()
    ensures Escape([118]) == [118] && Escape([105, 100]) == [105, 100]
  {
    PlainEscape(118);
    PlainEscape(105);
    PlainEscape(100);
    assert [105, 100][1..] == [100] && [100][1..] == [] && [118][1..] == [];
    assert Escape([100]) == [100] && Escape([105, 100]) == [105] + Escape([100]);
  }

  lemma PlainEscape(c: Code)
    requires 32 <= c <= 126 && c != 34 && c != 92
    ensures EscapeCode(c) == [c]
  {
  }

  predicate SmallHex(c: Code) {
    '0' as int <= c <= '9' as int || 'a' as int <= c <= 'f' as int
  }

  /** A backslash, "u" and four small hexadecimal digits that say n. */
  predicate SaysUnit(s: Text, n: int) {
    && |s| == 6 && s[0] == '\\' as int && s[1] == 'u' as int
    && (forall i :: 2 <= i < 6 ==> SmallHex(s[i]))
    && ReadUnicode(s) == Some(n)
  }

  /** Printable ASCII stands for itself but quote and backslash; five controls have letters; all else is written in units. */
  lemma EscapesWritten(c: Code)
    ensures 32 <= c <= 126 && c != 34 && c != 92 ==> EscapeCode(c) == [c]
    ensures c == 34 || c == 92 ==> EscapeCode(c) == [92, c]
    ensures EscapeCode(8) == [92, 'b' as int] && EscapeCode(9) == [92, 't' as int] && EscapeCode(10) == [92, 'n' as int]
    ensures EscapeCode(12) == [92, 'f' as int] && EscapeCode(13) == [92, 'r' as int]
    ensures (c < 32 && c !in {8, 9, 10, 12, 13}) || 127 <= c < 0x10000 ==> SaysUnit(EscapeCode(c), c)
    ensures c >= 0x10000 ==>
              |EscapeCode(c)| == 12
              && exists high, low :: IsHigh(high) && IsLow(low) && Joined(high, low) == c
                                     && SaysUnit(EscapeCode(c)[..6], high) && SaysUnit(EscapeCode(c)[6..], low)
  {
    if c >= 0x10000 {
      UnitWritten(HighUnit(c));
      UnitWritten(LowUnit(c));
      assert EscapeCode(c)[..6] == UnicodeEscape(HighUnit(c)) && EscapeCode(c)[6..] == UnicodeEscape(LowUnit(c));
      assert Joined(HighUnit(c), LowUnit(c)) == c;
    } else if ShortFor(c).None? && !(32 <= c <= 126) {
      UnitWritten(c);
    }
  }

  lemma UnitWritten(n: int)
    requires 0 <= n < 0x10000
    ensures SaysUnit(UnicodeEscape(n), n)
  {
    HexRead(n, []);
    assert UnicodeEscape(n) + [] == UnicodeEscape(n);
  }

  /** Any character from the space on but quote and backslash stands for itself; what comes below it, and an open end, is refused. */
  lemma PlainRead(c: Code, rest: Text)
    ensures c >= 32 && c != 34 && c != 92 ==> ReadString([c] + rest) == PutFirst(c, ReadString(rest))
    ensures c < 32 ==> ReadString([c] + rest).None?
    ensures ReadString([]).None? && ReadString([34] + rest) == Some(([], rest))
  {
    assert ([c] + rest)[1..] == rest && ([34] + rest)[1..] == rest;
  }

  /** The eight short escapes, the slash among them. */
  lemma ShortRead(letter: Code, c: Code, rest: Text)
    requires || (letter == c && (c == 34 || c == 92 || c == '/' as int))
             || (letter == 'b' as int && c == 8) || (letter == 't' as int && c == 9) || (letter == 'n' as int && c == 10)
             || (letter == 'f' as int && c == 12) || (letter == 'r' as int && c == 13)
    ensures ReadString([92, letter] + rest) == PutFirst(c, ReadString(rest))
  {
    assert ([92, letter] + rest)[2..] == rest;
    assert ShortEscape(letter) == Some(c);
  }

  /** Hexadecimal digits are read in both cases. */
  lemma BothCases(c: Code)
    ensures HexValue(c).Some? <==> '0' as int <= c <= '9' as int || 'a' as int <= c <= 'f' as int || 'A' as int <= c <= 'F' as int
    ensures 'a' as int <= c <= 'f' as int ==> HexValue(c) == HexValue(c - 32) == Some(10 + c - 'a' as int)
    ensures '0' as int <= c <= '9' as int ==> HexValue(c) == Some(c - '0' as int)
  {
  }

  // ---- UTF-8 ----

  predicate IsScalar(c: Code) {
    !IsHigh(c) && !IsLow(c)
  }

  /** The one form of a scalar value. */
  function Utf8(c: Code): seq<Byte>
    requires IsScalar(c)
  {
    if c < 0x80 then [c]
    else if c < 0x800 then [0xc0 + c / 64, 0x80 + c % 64]
    else if c < 0x10000 then [0xe0 + c / 4096, 0x80 + c / 64 % 64, 0x80 + c % 64]
    else [0xf0 + c / 262144, 0x80 + c / 4096 % 64, 0x80 + c / 64 % 64, 0x80 + c % 64]
  }

  predicate Scalars(t: Text) {
    forall i :: 0 <= i < |t| ==> IsScalar(t[i])
  }

  function EncodeUtf8(t: Text): seq<Byte>
    requires Scalars(t)
  {
    if t == [] then [] else Utf8(t[0]) + EncodeUtf8(t[1..])
  }

  lemma Digits64(c: int)
    requires 0 <= c
    ensures c == c / 64 * 64 + c % 64
    ensures c == c / 4096 * 4096 + c / 64 % 64 * 64 + c % 64
    ensures c == c / 262144 * 262144 + c / 4096 % 64 * 4096 + c / 64 % 64 * 64 + c % 64
  {
    TwiceDivided(c);
    TwiceDivided(c / 64);
    assert c / 64 / 4096 == c / 262144;
  }

  lemma TwiceDivided(c: int)
    requires 0 <= c
    ensures c / 64 / 64 == c / 4096 && c / 64 == c / 4096 * 64 + c / 64 % 64
  {
  }

  /** The decoder takes one scalar value off the front. */
  lemma DecodeFirst(c: Code, tail: seq<Byte>)
    requires IsScalar(c)
    ensures DecodeUtf8(Utf8(c) + tail) == Cons(c, DecodeUtf8(tail))
  {
    var s := Utf8(c) + tail;
    Digits64(c);
    if c < 0x80 {
      assert s[1..] == tail;
    } else if c < 0x800 {
      assert s[2..] == tail;
    } else if c < 0x10000 {
      assert s[3..] == tail;
    } else {
      assert s[4..] == tail;
    }
  }

  lemma {:induction false} Utf8Decodes(t: Text)
    requires Scalars(t)
    ensures DecodeUtf8(EncodeUtf8(t)) == Some(t)
    decreases |t|
  {
    if t != [] {
      Utf8Decodes(t[1..]);
      DecodeFirst(t[0], EncodeUtf8(t[1..]));
      assert t == [t[0]] + t[1..];
    }
  }

  /** The length of the form at the front of bytes the decoder accepts. */
  function Width(s: seq<Byte>): (n: nat)
    requires s != []
  {
    if s[0] < 0x80 then 1 else if s[0] < 0xe0 then 2 else if s[0] < 0xf0 then 3 else 4
  }

  function Two(a: int, b: int): int {
    (a - 0xc0) * 64 + (b - 0x80)
  }

  function Three(a: int, b: int, c: int): int {
    (a - 0xe0) * 4096 + (b - 0x80) * 64 + (c - 0x80)
  }

  function Four(a: int, b: int, c: int, d: int): int {
    (a - 0xf0) * 262144 + (b - 0x80) * 4096 + (c - 0x80) * 64 + (d - 0x80)
  }

  /** One code point has been taken off the front, and its form are the bytes taken. */
  ghost predicate Taken(s: seq<Byte>, n: nat) {
    && 0 < n <= |s| && DecodeUtf8(s).Some?
    && var t := DecodeUtf8(s).value;
    && t != [] && IsScalar(t[0]) && Utf8(t[0]) == s[..n] && DecodeUtf8(s[n..]) == Some(t[1..])
  }

  lemma TailDecoded(s: seq<Byte>, n: nat, c: Code)
    requires 0 < n <= |s| && DecodeUtf8(s).Some? && DecodeUtf8(s) == Cons(c, DecodeUtf8(s[n..]))
    requires IsScalar(c) && Utf8(c) == s[..n]
    ensures Taken(s, n)
  {
    assert DecodeUtf8(s).value == [c] + DecodeUtf8(s[n..]).value;
  }

  lemma TwoTaken(s: seq<Byte>)
    requires s != [] && 0x80 <= s[0] < 0xe0 && DecodeUtf8(s).Some?
    ensures Taken(s, 2)
  {
    assert |s| >= 2 && 0xc2 <= s[0] && Continues(s[1]);
    var c := Two(s[0], s[1]);
    TwoDigits64(s[0] - 0xc0, s[1] - 0x80);
    assert Utf8(c) == s[..2];
    TailDecoded(s, 2, c);
  }

  lemma ThreeTaken(s: seq<Byte>)
    requires s != [] && 0xe0 <= s[0] < 0xf0 && DecodeUtf8(s).Some?
    ensures Taken(s, 3)
  {
    assert |s| >= 3 && Continues(s[1]) && Continues(s[2]);
    var c := Three(s[0], s[1], s[2]);
    ThreeDigits64(s[0] - 0xe0, s[1] - 0x80, s[2] - 0x80);
    assert c >= 0x800 && IsScalar(c);
    assert Utf8(c) == s[..3];
    TailDecoded(s, 3, c);
  }

  lemma FourTaken(s: seq<Byte>)
    requires s != [] && 0xf0 <= s[0] && DecodeUtf8(s).Some?
    ensures Taken(s, 4)
  {
    assert |s| >= 4 && Continues(s[1]) && Continues(s[2]) && Continues(s[3]);
    var c := Four(s[0], s[1], s[2], s[3]);
    FourDigits64(s[0] - 0xf0, s[1] - 0x80, s[2] - 0x80, s[3] - 0x80);
    assert 0x10000 <= c < 0x110000;
    assert Utf8(c) == s[..4];
    TailDecoded(s, 4, c);
  }

  lemma FirstForm(s: seq<Byte>)
    requires s != [] && DecodeUtf8(s).Some?
    ensures Taken(s, Width(s))
  {
    if s[0] < 0x80 {
      assert Utf8(s[0]) == s[..1];
      TailDecoded(s, 1, s[0]);
    } else if s[0] < 0xe0 {
      TwoTaken(s);
    } else if s[0] < 0xf0 {
      ThreeTaken(s);
    } else {
      FourTaken(s);
    }
  }

  lemma TwoDigits64(a: int, b: int)
    requires 0 <= a && 0 <= b < 64
    ensures (a * 64 + b) / 64 == a && (a * 64 + b) % 64 == b
  {
  }

  lemma ThreeDigits64(a: int, b: int, c: int)
    requires 0 <= a && 0 <= b < 64 && 0 <= c < 64
    ensures var n := a * 4096 + b * 64 + c; n / 4096 == a && n / 64 % 64 == b && n % 64 == c
  {
    TwoDigits64(a * 64 + b, c);
    TwoDigits64(a, b);
  }

  lemma FourDigits64(a: int, b: int, c: int, d: int)
    requires 0 <= a && 0 <= b < 64 && 0 <= c < 64 && 0 <= d < 64
    ensures var n := a * 262144 + b * 4096 + c * 64 + d;
            n / 262144 == a && n / 4096 % 64 == b && n / 64 % 64 == c && n % 64 == d
  {
    TwoDigits64(a * 4096 + b * 64 + c, d);
    ThreeDigits64(a, b, c);
  }

  /** The decoder accepts exactly the UTF-8 forms of texts of scalar values, and reads each as its text. */
  lemma {:induction false} Utf8Iff(s: seq<Byte>, t: Text)
    ensures DecodeUtf8(s) == Some(t) <==> Scalars(t) && s == EncodeUtf8(t)
    decreases |s|
  {
    if Scalars(t) {
      Utf8Decodes(t);
    }
    if s != [] && DecodeUtf8(s) == Some(t) {
      FirstForm(s);
      Utf8Iff(s[Width(s)..], t[1..]);
      assert t == [t[0]] + t[1..];
      assert s == s[..Width(s)] + s[Width(s)..];
    }
  }

  // ---- objects ----

  predicate Blank(w: Text) {
    forall i :: 0 <= i < |w| ==> w[i] == 32 || w[i] == 9 || w[i] == 10 || w[i] == 13
  }

  lemma {:induction false} SkipBlank(w: Text, s: Text)
    requires Blank(w) && (s == [] || !IsSpace(s[0]))
    ensures Skip(w + s) == s
    decreases |w|
  {
    if w == [] {
      assert w + s == s;
    } else {
      assert (w + s)[1..] == w[1..] + s;
      SkipBlank(w[1..], s);
    }
  }

  /** A member with white space around the colon and after the value. */
  function Spaced(key: Text, a: Text, b: Text, value: Text, c: Text, tail: Text): Text {
    [QUOTE] + Literal(key, a + ([COLON] + (b + ([QUOTE] + Literal(value, c + tail)))))
  }

  lemma SpacedMember(key: Text, a: Text, b: Text, value: Text, c: Text, tail: Text, other: Other)
    requires Blank(a) && Blank(b) && Blank(c) && tail != [] && !IsSpace(tail[0])
    ensures ReadMember(Spaced(key, a, b, value, c, tail), other) == Some(((Merged(key), Merged(value)), tail))
  {
    var quoted := [QUOTE] + Literal(value, c + tail);
    var colon := [COLON] + (b + quoted);
    StringRoundTrip(key, a + colon);
    assert ([QUOTE] + Literal(key, a + colon))[1..] == Literal(key, a + colon);
    SkipBlank(a, colon);
    assert colon[1..] == b + quoted;
    SkipBlank(b, quoted);
    ValueRoundTrip(value, c + tail, other);
    SkipBlank(c, tail);
  }

  /** An object of two members with white space wherever JSON allows it. */
  function SpacedObject(k1: Text, v1: Text, k2: Text, v2: Text, w: seq<Text>): Text
    requires |w| == 10
  {
    w[0] + ([OPEN] + (w[1] + Spaced(k1, w[2], w[3], v1, w[4],
      [COMMA] + (w[5] + Spaced(k2, w[6], w[7], v2, w[8], [CLOSE] + w[9])))))
  }

  lemma SpacedMembers(k1: Text, v1: Text, k2: Text, v2: Text, w: seq<Text>, other: Other)
    requires |w| == 10 && forall i :: 0 <= i < 10 ==> Blank(w[i])
    ensures ReadMembers(Spaced(k1, w[2], w[3], v1, w[4], [COMMA] + (w[5] + Spaced(k2, w[6], w[7], v2, w[8], [CLOSE] + w[9]))), other)
            == Some((map[Merged(k1) := Merged(v1)] + map[Merged(k2) := Merged(v2)], w[9]))
  {
    var end := [CLOSE] + w[9];
    var second := Spaced(k2, w[6], w[7], v2, w[8], end);
    var rest := [COMMA] + (w[5] + second);
    SpacedMember(k1, w[2], w[3], v1, w[4], rest, other);
    SpacedMember(k2, w[6], w[7], v2, w[8], end, other);
    assert end[1..] == w[9] && rest[1..] == w[5] + second;
    assert ReadMembers(second, other) == Some((map[Merged(k2) := Merged(v2)], w[9]));
    SkipBlank(w[5], second);
  }

  /** White space and the order of the members make no difference; of two members of one name the last counts. */
  lemma SpacedObjectRead(k1: Text, v1: Text, k2: Text, v2: Text, w: seq<Text>, other: Other)
    requires |w| == 10 && forall i :: 0 <= i < 10 ==> Blank(w[i])
    ensures ReadObject(SpacedObject(k1, v1, k2, v2, w), other)
            == Some(map[Merged(k1) := Merged(v1)] + map[Merged(k2) := Merged(v2)])
  {
    var inner := Spaced(k1, w[2], w[3], v1, w[4], [COMMA] + (w[5] + Spaced(k2, w[6], w[7], v2, w[8], [CLOSE] + w[9])));
    var open := [OPEN] + (w[1] + inner);
    SkipBlank(w[0], open);
    assert open[1..] == w[1] + inner;
    SkipBlank(w[1], inner);
    SpacedMembers(k1, v1, k2, v2, w, other);
    SkipBlank(w[9], []);
    assert w[9] + [] == w[9];
  }

  /** Anything after the object is refused. */
  lemma NothingAfter(v: Text, id: Text, extra: Text, other: Other)
    requires extra != [] && !IsSpace(extra[0])
    ensures ReadObject(Payload(v, id) + extra, other).None?
  {
    var end := [CLOSE] + extra;
    var inner := Member(KEY_V, v) + ([COMMA] + (Member(KEY_ID, id) + end));
    var s := Payload(v, id) + extra;
    assert s == [OPEN] + inner;
    MembersThen(KEY_V, v, KEY_ID, id, extra, other);
    assert inner[0] == QUOTE && s[1..] == inner && Skip(s) == s && Skip(inner) == inner;
    assert Skip(extra) == extra;
  }

  lemma MembersThen(k1: Text, v1: Text, k2: Text, v2: Text, extra: Text, other: Other)
    ensures ReadMembers(Member(k1, v1) + ([COMMA] + (Member(k2, v2) + ([CLOSE] + extra))), other)
            == Some((map[Merged(k1) := Merged(v1)] + map[Merged(k2) := Merged(v2)], extra))
  {
    LastMember(k2, v2, extra, other);
    FirstMember(k1, v1, Member(k2, v2) + ([CLOSE] + extra), map[Merged(k2) := Merged(v2)], extra, other);
  }

  lemma LastMember(key: Text, value: Text, extra: Text, other: Other)
    ensures ReadMembers(Member(key, value) + ([CLOSE] + extra), other) == Some((map[Merged(key) := Merged(value)], extra))
  {
    MemberRoundTrip(key, value, [CLOSE] + extra, other);
    assert ([CLOSE] + extra)[1..] == extra;
  }

  lemma FirstMember(key: Text, value: Text, second: Text, read: map<Text, Text>, extra: Text, other: Other)
    requires second != [] && second[0] == QUOTE && ReadMembers(second, other) == Some((read, extra))
    ensures ReadMembers(Member(key, value) + ([COMMA] + second), other) == Some((map[Merged(key) := Merged(value)] + read, extra))
  {
    MemberRoundTrip(key, value, [COMMA] + second, other);
    assert ([COMMA] + second)[1..] == second && Skip(second) == second;
  }

  /** A cursor whose object lacks the value or the id is malformed. */
  lemma BothMembersNeeded(payload: Text, other: Other, data: map<Text, Text>)
    requires Scalars(payload) && ReadObject(payload, other) == Some(data)
    ensures DecodeCursor(Encode64(EncodeUtf8(payload)), other)
            == if KEY_V in data && KEY_ID in data then Some((data[KEY_V], data[KEY_ID])) else None
  {
    Utf8Decodes(payload);
    Base64RoundTrip(EncodeUtf8(payload));
    Encode64IsAscii(EncodeUtf8(payload));
  }

  /** Bytes that are no UTF-8, text with a surrogate, and text that is no base64 are malformed. */
  lemma MalformedCursor(cursor: Text, other: Other)
    ensures (exists c :: c in cursor && 0xd800 <= c < 0xe000) ==> DecodeCursor(cursor, other).None?
    ensures Decode64(cursor, 0, 0, 0).None? ==> DecodeCursor(cursor, other).None?
    ensures Decode64(cursor, 0, 0, 0).Some? && (forall t: Text :: Scalars(t) ==> Decode64(cursor, 0, 0, 0).value != EncodeUtf8(t)) ==>
              DecodeCursor(cursor, other).None?
  {
    if c :| c in cursor && 0xd800 <= c < 0xe000 {
      assert IsHigh(c) || IsLow(c);
    }
    if Decode64(cursor, 0, 0, 0).Some? && DecodeUtf8(Decode64(cursor, 0, 0, 0).value).Some? {
      var bytes := Decode64(cursor, 0, 0, 0).value;
      Utf8Iff(bytes, DecodeUtf8(bytes).value);
    }
  }
}
