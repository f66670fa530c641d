/**
 The hand-written base64 encoder of the command provider (crates/vinpst-asr/src/command.rs)
 against section 4 of RFC 4648. Shifts and masks of bytes are written as divisions and
 remainders by powers of two.
 */
module Base64 {
  import opened Wrappers
  import opened Bytes

  type sextet = x: int | 0 <= x < 64

  /** The encoder's table: upper case, lower case, digits, plus, solidus. */
  function Letter(v: sextet): char {
    if v < 26 then 'A' + v as char
    else if v < 52 then 'a' + (v - 26) as char
    else if v < 62 then '0' + (v - 52) as char
    else if v == 62 then '+'
    else '/'
  }

  // ---- Encoder ----

  /** The four six-bit groups of three bytes. */
  function Sextet0(b0: byte): sextet { b0 / 4 }

  function Sextet1(b0: byte, b1: byte): sextet { b0 % 4 * 16 + b1 / 16 }

  function Sextet2(b1: byte, b2: byte): sextet { b1 % 16 * 4 + b2 / 64 }

  function Sextet3(b2: byte): sextet { b2 % 64 }

  /** The four characters for a chunk of one to three bytes. */
  function Quad(chunk: seq<byte>): (quad: string)
    requires 1 <= |chunk| <= 3
    ensures |quad| == 4
  {
    var b0 := chunk[0];
    var b1: byte := if |chunk| > 1 then chunk[1] else 0;
    var b2: byte := if |chunk| > 2 then chunk[2] else 0;
    [Letter(Sextet0(b0)),
     Letter(Sextet1(b0, b1)),
     if |chunk| > 1 then Letter(Sextet2(b1, b2)) else '=',
     if |chunk| > 2 then Letter(Sextet3(b2)) else '=']
  }

  function Encoded(bytes: seq<byte>): string {
    if bytes == [] then "" else Quad(bytes[..Min(3, |bytes|)]) + Encoded(bytes[Min(3, |bytes|)..])
  }

  lemma EncodedFrom(bytes: seq<byte>, start: nat, end: nat)
    requires start < |bytes| && end == Min(start + 3, |bytes|)
    ensures Encoded(bytes[start..]) == Quad(bytes[start..end]) + Encoded(bytes[end..])
  {
    var rest := bytes[start..];
    var n := Min(3, |rest|);
    assert rest[..n] == bytes[start..end] && rest[n..] == bytes[end..];
  }

  lemma Regroup(done: string, quad: string, rest: string)
    ensures done + (quad + rest) == (done + quad) + rest
  {
  }

  lemma AppendFour(s: string, a: char, b: char, c: char, d: char)
    ensures s + [a] + [b] + [c] + [d] == s + [a, b, c, d]
  {
  }

  method EncodeBase64(bytes: seq<byte>) returns (output: string)
    ensures output == Encoded(bytes)
    ensures Decode(output) == Some(bytes)
  {
    output := "";
    var start := 0;
    while start < |bytes|
      invariant 0 <= start <= |bytes|
      invariant output + Encoded(bytes[start..]) == Encoded(bytes)
    {
      var end := Min(start + 3, |bytes|);
      var chunk := bytes[start..end];
      var b0: byte := chunk[0];
      var b1: byte := if 1 < |chunk| then chunk[1] else 0;
      var b2: byte := if 2 < |chunk| then chunk[2] else 0;
      ghost var quad := Quad(chunk);
      AppendFour(output, quad[0], quad[1], quad[2], quad[3]);
      Regroup(output, quad, Encoded(bytes[end..]));
      output := output + [Letter(Sextet0(b0))];
      output := output + [Letter(Sextet1(b0, b1))];
      output := output + [if |chunk| > 1 then Letter(Sextet2(b1, b2)) else '='];
      output := output + [if |chunk| > 2 then Letter(Sextet3(b2)) else '='];
      assert quad == [quad[0], quad[1], quad[2], quad[3]];
      EncodedFrom(bytes, start, end);
      start := end;
    }
    DecodeOfEncoded(bytes);
  }

  // ---- Reference decoder ----

  /** The value of a character, by Table 1 of the standard. */
  function Value(c: char): Option<sextet> {
    if 'A' <= c <= 'Z' then Some(c as int - 'A' as int)
    else if 'a' <= c <= 'z' then Some(26 + (c as int - 'a' as int))
    else if '0' <= c <= '9' then Some(52 + (c as int - '0' as int))
    else if c == '+' then Some(62)
    else if c == '/' then Some(63)
    else None
  }

  /** The bits of four six-bit groups, cut anew into three bytes. */
  function Byte0(a: sextet, b: sextet): byte { (a as int) * 4 + b / 16 }

  function Byte1(b: sextet, c: sextet): byte { b % 16 * 16 + c / 4 }

  function Byte2(c: sextet, d: sextet): byte { c % 4 * 64 + d }

  /** Which is to say that both are the same 24-bit number. */
  lemma SameGroup(a: sextet, b: sextet, c: sextet, d: sextet)
    ensures (Byte0(a, b) as int) * 0x1_0000 + (Byte1(b, c) as int) * 0x100 + Byte2(c, d)
         == (a as int) * 0x4_0000 + (b as int) * 0x1000 + (c as int) * 0x40 + d
  {
    assert b == b / 16 * 16 + b % 16;
    assert c == c / 4 * 4 + c % 4;
  }

  /** Three bytes from four values; two or one when the last one or two are absent and the unused bits zero. */
  function DecodeValues(a: Option<sextet>, b: Option<sextet>, c: Option<sextet>, d: Option<sextet>): Option<seq<byte>> {
    if a.None? || b.None? then None
    else if c.Some? && d.Some? then
      Some([Byte0(a.value, b.value), Byte1(b.value, c.value), Byte2(c.value, d.value)])
    else if c.Some? then
      if c.value % 4 == 0 then Some([Byte0(a.value, b.value), Byte1(b.value, c.value)]) else None
    else if d.None? then
      if b.value % 16 == 0 then Some([Byte0(a.value, b.value)]) else None
    else None
  }

  /** Only the last quad may be padded, with one or two pads. */
  function DecodeQuad(quad: string, last: bool): Option<seq<byte>>
    requires |quad| == 4
  {
    var c, d := Value(quad[2]), Value(quad[3]);
    if (c.None? && quad[2] != '=') || (d.None? && quad[3] != '=') || (d.None? && !last) then None
    else DecodeValues(Value(quad[0]), Value(quad[1]), c, d)
  }

  function Decode(s: string): Option<seq<byte>> {
    if s == "" then Some([])
    else if |s| < 4 then None
    else
      var first := DecodeQuad(s[..4], |s| == 4);
      var rest := Decode(s[4..]);
      if first.None? || rest.None? then None else Some(first.value + rest.value)
  }

  // ---- Inverse both ways ----

  lemma ValueOfLetter(v: sextet)
    ensures Value(Letter(v)) == Some(v) && Letter(v) != '='
  {
  }

  lemma LetterOfValue(c: char)
    requires Value(c).Some?
    ensures Letter(Value(c).value) == c
  {
  }

  lemma QuadValues(chunk: seq<byte>)
    requires 1 <= |chunk| <= 3
    ensures var b1: byte := if |chunk| > 1 then chunk[1] else 0;
            var b2: byte := if |chunk| > 2 then chunk[2] else 0;
            && Value(Quad(chunk)[0]) == Some(Sextet0(chunk[0]))
            && Value(Quad(chunk)[1]) == Some(Sextet1(chunk[0], b1))
            && Value(Quad(chunk)[2]) == (if |chunk| > 1 then Some(Sextet2(b1, b2)) else None)
            && Value(Quad(chunk)[3]) == (if |chunk| > 2 then Some(Sextet3(b2)) else None)
            && (|chunk| <= 1 ==> Quad(chunk)[2] == '=')
            && (|chunk| <= 2 ==> Quad(chunk)[3] == '=')
  {
    var b1: byte := if |chunk| > 1 then chunk[1] else 0;
    var b2: byte := if |chunk| > 2 then chunk[2] else 0;
    ValueOfLetter(Sextet0(chunk[0]));
    ValueOfLetter(Sextet1(chunk[0], b1));
    ValueOfLetter(Sextet2(b1, b2));
    ValueOfLetter(Sextet3(b2));
  }

  /** Cutting bytes into six-bit groups and back, one byte at a time. */
  lemma BytesOfSextets(b0: byte, b1: byte, b2: byte)
    ensures Byte0(Sextet0(b0), Sextet1(b0, b1)) == b0
    ensures Byte1(Sextet1(b0, b1), Sextet2(b1, b2)) == b1
    ensures Byte2(Sextet2(b1, b2), Sextet3(b2)) == b2
  {
  }

  lemma ValuesOfOne(a: sextet, b: sextet, b0: byte)
    requires Byte0(a, b) == b0 && b % 16 == 0
    ensures DecodeValues(Some(a), Some(b), None, None) == Some([b0])
  {
  }

  lemma ValuesOfTwo(a: sextet, b: sextet, c: sextet, b0: byte, b1: byte)
    requires Byte0(a, b) == b0 && Byte1(b, c) == b1 && c % 4 == 0
    ensures DecodeValues(Some(a), Some(b), Some(c), None) == Some([b0, b1])
  {
  }

  lemma ValuesOfThree(a: sextet, b: sextet, c: sextet, d: sextet, b0: byte, b1: byte, b2: byte)
    requires Byte0(a, b) == b0 && Byte1(b, c) == b1 && Byte2(c, d) == b2
    ensures DecodeValues(Some(a), Some(b), Some(c), Some(d)) == Some([b0, b1, b2])
  {
  }

  lemma PaddingIsZero(b0: byte, b1: byte)
    ensures Sextet1(b0, 0) % 16 == 0 && Sextet2(b1, 0) % 4 == 0
  {
  }

  lemma DecodeOne(b0: byte)
    ensures DecodeValues(Some(Sextet0(b0)), Some(Sextet1(b0, 0)), None, None) == Some([b0])
  {
    BytesOfSextets(b0, 0, 0);
    PaddingIsZero(b0, 0);
    ValuesOfOne(Sextet0(b0), Sextet1(b0, 0), b0);
  }

  lemma DecodeTwo(b0: byte, b1: byte)
    ensures DecodeValues(Some(Sextet0(b0)), Some(Sextet1(b0, b1)), Some(Sextet2(b1, 0)), None) == Some([b0, b1])
  {
    BytesOfSextets(b0, b1, 0);
    PaddingIsZero(b0, b1);
    ValuesOfTwo(Sextet0(b0), Sextet1(b0, b1), Sextet2(b1, 0), b0, b1);
  }

  lemma DecodeThree(b0: byte, b1: byte, b2: byte)
    ensures DecodeValues(Some(Sextet0(b0)), Some(Sextet1(b0, b1)), Some(Sextet2(b1, b2)), Some(Sextet3(b2)))
         == Some([b0, b1, b2])
  {
    BytesOfSextets(b0, b1, b2);
    ValuesOfThree(Sextet0(b0), Sextet1(b0, b1), Sextet2(b1, b2), Sextet3(b2), b0, b1, b2);
  }

  lemma DecodeOfQuad(chunk: seq<byte>, last: bool)
    requires 1 <= |chunk| <= 3 && (|chunk| < 3 ==> last)
    ensures DecodeQuad(Quad(chunk), last) == Some(chunk)
  {
    QuadValues(chunk);
    if |chunk| == 1 {
      DecodeOne(chunk[0]);
      assert chunk == [chunk[0]];
    } else if |chunk| == 2 {
      DecodeTwo(chunk[0], chunk[1]);
      assert chunk == [chunk[0], chunk[1]];
    } else {
      DecodeThree(chunk[0], chunk[1], chunk[2]);
      assert chunk == [chunk[0], chunk[1], chunk[2]];
    }
  }

  lemma DecodeFirstQuad(quad: string, text: string)
    requires |quad| == 4
    ensures var first, rest := DecodeQuad(quad, text == ""), Decode(text);
            Decode(quad + text) == if first.None? || rest.None? then None else Some(first.value + rest.value)
  {
    assert (quad + text)[..4] == quad && (quad + text)[4..] == text;
  }

  lemma DecodeQuadThen(chunk: seq<byte>, text: string, rest: seq<byte>)
    requires 1 <= |chunk| <= 3 && (|chunk| < 3 ==> text == "") && Decode(text) == Some(rest)
    ensures Decode(Quad(chunk) + text) == Some(chunk + rest)
  {
    DecodeFirstQuad(Quad(chunk), text);
    DecodeOfQuad(chunk, text == "");
  }

  lemma {:induction false} DecodeOfEncoded(bytes: seq<byte>)
    ensures Decode(Encoded(bytes)) == Some(bytes)
  {
    if bytes != [] {
      var n := Min(3, |bytes|);
      DecodeOfEncoded(bytes[n..]);
      DecodeQuadThen(bytes[..n], Encoded(bytes[n..]), bytes[n..]);
      assert bytes[..n] + bytes[n..] == bytes;
    }
  }

  /** And the other way round. */
  lemma SextetsOfBytes(a: sextet, b: sextet, c: sextet, d: sextet)
    ensures Sextet0(Byte0(a, b)) == a
    ensures Sextet1(Byte0(a, b), Byte1(b, c)) == b
    ensures Sextet2(Byte1(b, c), Byte2(c, d)) == c
    ensures Sextet3(Byte2(c, d)) == d
  {
  }

  lemma UnusedBitsAreZero(a: sextet, b: sextet, c: sextet)
    ensures c % 4 == 0 ==> Sextet2(Byte1(b, c), 0) == c
    ensures b % 16 == 0 ==> Sextet1(Byte0(a, b), 0) == b
  {
  }

  /** A quad of four letters, of three and a pad, and of two and two pads, from its values. */
  lemma ThreeOfValues(a: sextet, b: sextet, c: sextet, d: sextet)
    ensures Quad([Byte0(a, b), Byte1(b, c), Byte2(c, d)]) == [Letter(a), Letter(b), Letter(c), Letter(d)]
  {
    SextetsOfBytes(a, b, c, d);
  }

  lemma TwoOfValues(a: sextet, b: sextet, c: sextet)
    requires c % 4 == 0
    ensures Quad([Byte0(a, b), Byte1(b, c)]) == [Letter(a), Letter(b), Letter(c), '=']
  {
    SextetsOfBytes(a, b, c, 0);
    UnusedBitsAreZero(a, b, c);
  }

  lemma OneOfValues(a: sextet, b: sextet)
    requires b % 16 == 0
    ensures Quad([Byte0(a, b)]) == [Letter(a), Letter(b), '=', '=']
  {
    SextetsOfBytes(a, b, 0, 0);
    UnusedBitsAreZero(a, b, 0);
  }

  /** Every character with a value is the letter of that value. */
  lemma LettersOfQuad(quad: string)
    requires |quad| == 4
    ensures forall i :: 0 <= i < 4 && Value(quad[i]).Some? ==> Letter(Value(quad[i]).value) == quad[i]
  {
    forall i | 0 <= i < 4 && Value(quad[i]).Some?
      ensures Letter(Value(quad[i]).value) == quad[i]
    {
      LetterOfValue(quad[i]);
    }
  }

  lemma QuadOfDecode(quad: string, last: bool)
    requires |quad| == 4 && DecodeQuad(quad, last).Some?
    ensures var chunk := DecodeQuad(quad, last).value;
            1 <= |chunk| <= 3 && (|chunk| < 3 ==> last) && Quad(chunk) == quad
  {
    LettersOfQuad(quad);
    var a, b, c, d := Value(quad[0]), Value(quad[1]), Value(quad[2]), Value(quad[3]);
    assert quad == [quad[0], quad[1], quad[2], quad[3]];
    if c.Some? && d.Some? {
      ThreeOfValues(a.value, b.value, c.value, d.value);
    } else if c.Some? {
      TwoOfValues(a.value, b.value, c.value);
    } else {
      OneOfValues(a.value, b.value);
    }
  }

  /** The encoder's output is the only text the reference decoder reads as these bytes. */
  lemma {:induction false} EncodedOfDecode(s: string)
    requires Decode(s).Some?
    ensures Encoded(Decode(s).value) == s
  {
    if s != "" {
      var chunk := DecodeQuad(s[..4], |s| == 4).value;
      var rest := Decode(s[4..]).value;
      QuadOfDecode(s[..4], |s| == 4);
      EncodedOfDecode(s[4..]);
      if |s| == 4 {
        assert s[4..] == "" && rest == [] && chunk + rest == chunk;
        assert chunk[..|chunk|] == chunk && chunk[|chunk|..] == [];
      } else {
        assert (chunk + rest)[..3] == chunk && (chunk + rest)[3..] == rest;
      }
      assert s[..4] + s[4..] == s;
    }
  }

  // ---- Shape ----

  /** The pads for `n` bytes. */
  function PadCount(n: nat): nat {
    (3 - n % 3) % 3
  }

  lemma OneMoreQuad(n: nat, rest: nat)
    requires 1 <= n <= 3 && (n < 3 ==> rest == 0)
    ensures (n + rest + 2) / 3 == 1 + (rest + 2) / 3
    ensures PadCount(n + rest) == 3 - n + PadCount(rest)
  {
  }

  /** Characters of the alphabet, then `pads` pads. */
  predicate EndsInPads(s: string, pads: nat) {
    && pads <= |s|
    && (forall i :: 0 <= i < |s| - pads ==> Value(s[i]).Some?)
    && (forall i :: |s| - pads <= i < |s| ==> s[i] == '=')
  }

  /** 4 * ceil(n / 3) characters. */
  lemma {:induction false} LengthOfEncoded(bytes: seq<byte>)
    ensures |Encoded(bytes)| == (|bytes| + 2) / 3 * 4
  {
    if bytes != [] {
      var n := Min(3, |bytes|);
      LengthOfEncoded(bytes[n..]);
      OneMoreQuad(n, |bytes| - n);
    }
  }

  /** Characters of the alphabet, but for the pads that end the text. */
  lemma {:induction false} ShapeOfEncoded(bytes: seq<byte>)
    ensures EndsInPads(Encoded(bytes), PadCount(|bytes|))
  {
    if bytes != [] {
      var n := Min(3, |bytes|);
      ShapeOfEncoded(bytes[n..]);
      QuadShape(bytes[..n]);
      JoinPads(Quad(bytes[..n]), 3 - n, Encoded(bytes[n..]), PadCount(|bytes| - n));
      OneMoreQuad(n, |bytes| - n);
    }
  }

  lemma QuadShape(chunk: seq<byte>)
    requires 1 <= |chunk| <= 3
    ensures EndsInPads(Quad(chunk), 3 - |chunk|)
  {
    QuadValues(chunk);
  }

  lemma JoinPads(a: string, padsA: nat, b: string, padsB: nat)
    requires EndsInPads(a, padsA) && EndsInPads(b, padsB) && (b == "" || padsA == 0)
    ensures EndsInPads(a + b, padsA + padsB)
  {
  }

  /** The samples of an audio line are recovered exactly. */
  lemma AudioSurvives(samples: seq<i16>)
    ensures var payload := Decode(Encoded(SamplesToBytes(samples)));
            payload.Some? && BytesToSamples(payload.value) == samples
  {
    DecodeOfEncoded(SamplesToBytes(samples));
    BytesToSamplesOfSamplesToBytes(samples);
  }
}
