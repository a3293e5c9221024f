/**
 * `String.getBytes(StandardCharsets.UTF_8)`: each Unicode scalar value
 * written as one to four bytes (RFC 3629, section 3), and the decoder
 * that undoes it.
 */
module Utf8 {
  import opened JavaText

  /** The encoding of one scalar value. */
  function EncodeChar(c: char): (r: seq<Octet>)
    ensures 1 <= |r| <= 4
  {
    var v := c as int;
    if v < 0x80 then [v]
    else if v < 0x800 then [(0xC0 + v / 64), (0x80 + v % 64)]
    else if v < 0x1_0000 then [(0xE0 + v / 4096), (0x80 + v / 64 % 64), (0x80 + v % 64)]
    else [(0xF0 + v / 262144), (0x80 + v / 4096 % 64), (0x80 + v / 64 % 64), (0x80 + v % 64)]
  }

  /** The encoding of a string: the encodings of its characters, in order. */
  function Encode(s: string): (r: seq<Octet>)
    ensures |r| >= |s|
  {
    if s == [] then [] else EncodeChar(s[0]) + Encode(s[1..])
  }

  predicate IsContinuation(b: Octet) {
    0x80 <= b < 0xC0
  }

  /** The low six bits of a continuation byte. */
  function Payload(b: Octet): int {
    b % 64
  }

  /** A code point that is a scalar value, so a `char`. */
  function ToChar(v: int): Option<char> {
    if 0 <= v < 0xD800 || 0xE000 <= v < 0x11_0000 then Some(v as char) else None
  }

  /** The first character of `bytes` and how many bytes it takes, if they start with a well-formed sequence. */
  function DecodeFirst(bytes: seq<Octet>): (r: Option<(char, nat)>)
    ensures r.Some? ==> 1 <= r.value.1 <= |bytes|
  {
    if bytes == [] then None
    else
      var b0 := bytes[0];
      if b0 < 0x80 then Some((b0 as char, 1))
      else if 0xC0 <= b0 < 0xE0 then
        if |bytes| < 2 || !IsContinuation(bytes[1]) then None
        else
          var v := (b0 - 0xC0) * 64 + Payload(bytes[1]);
          if v < 0x80 then None
          else match ToChar(v) case Some(c) => Some((c, 2)) case None => None
      else if 0xE0 <= b0 < 0xF0 then
        if |bytes| < 3 || !IsContinuation(bytes[1]) || !IsContinuation(bytes[2]) then None
        else
          var v := (b0 - 0xE0) * 4096 + Payload(bytes[1]) * 64 + Payload(bytes[2]);
          if v < 0x800 then None
          else match ToChar(v) case Some(c) => Some((c, 3)) case None => None
      else if 0xF0 <= b0 < 0xF8 then
        if |bytes| < 4 || !IsContinuation(bytes[1]) || !IsContinuation(bytes[2]) || !IsContinuation(bytes[3]) then None
        else
          var v := (b0 - 0xF0) * 262144 + Payload(bytes[1]) * 4096 + Payload(bytes[2]) * 64 + Payload(bytes[3]);
          if v < 0x1_0000 then None
          else match ToChar(v) case Some(c) => Some((c, 4)) case None => None
      else None
  }

  /** The text the bytes encode, or `None` when they are not well-formed UTF-8; every character takes a byte at least. */
  function Decode(bytes: seq<Octet>): (r: Option<string>)
    ensures r.Some? ==> |r.value| <= |bytes|
    decreases |bytes|
  {
    if bytes == [] then Some([])
    else
      match DecodeFirst(bytes)
      case None => None
      case Some((c, n)) =>
        match Decode(bytes[n..])
        case None => None
        case Some(rest) => Some([c] + rest)
  }

  /** The decoder reads back exactly the character an encoding starts with, whatever follows. */
  lemma DecodeFirstEncodeChar(c: char, rest: seq<Octet>)
    ensures DecodeFirst(EncodeChar(c) + rest) == Some((c, |EncodeChar(c)|))
  {
    var v := c as int;
    assert ToChar(v) == Some(c);
    if v < 0x80 {
    } else if v < 0x800 {
      TwoOctets(v, EncodeChar(c) + rest);
    } else if v < 0x1_0000 {
      ThreeOctets(v, EncodeChar(c) + rest);
    } else {
      FourOctets(v, EncodeChar(c) + rest);
    }
  }

  lemma TwoOctets(v: int, bytes: seq<Octet>)
    requires 0x80 <= v < 0x800 && |bytes| >= 2
    requires bytes[0] == 0xC0 + v / 64 && bytes[1] == 0x80 + v % 64
    ensures 0xC0 <= bytes[0] < 0xE0 && IsContinuation(bytes[1])
    ensures (bytes[0] - 0xC0) * 64 + Payload(bytes[1]) == v
  {
    ContinuationByte(v % 64);
  }

  lemma ThreeOctets(v: int, bytes: seq<Octet>)
    requires 0x800 <= v < 0x1_0000 && |bytes| >= 3
    requires bytes[0] == 0xE0 + v / 4096 && bytes[1] == 0x80 + v / 64 % 64 && bytes[2] == 0x80 + v % 64
    ensures 0xE0 <= bytes[0] < 0xF0 && IsContinuation(bytes[1]) && IsContinuation(bytes[2])
    ensures (bytes[0] - 0xE0) * 4096 + Payload(bytes[1]) * 64 + Payload(bytes[2]) == v
  {
    SplitIntoSextets(v);
    ContinuationByte(v / 64 % 64);
    ContinuationByte(v % 64);
  }

  lemma FourOctets(v: int, bytes: seq<Octet>)
    requires 0x1_0000 <= v < 0x11_0000 && |bytes| >= 4
    requires bytes[0] == 0xF0 + v / 262144 && bytes[1] == 0x80 + v / 4096 % 64
    requires bytes[2] == 0x80 + v / 64 % 64 && bytes[3] == 0x80 + v % 64
    ensures 0xF0 <= bytes[0] < 0xF8 && IsContinuation(bytes[1]) && IsContinuation(bytes[2]) && IsContinuation(bytes[3])
    ensures (bytes[0] - 0xF0) * 262144 + Payload(bytes[1]) * 4096 + Payload(bytes[2]) * 64 + Payload(bytes[3]) == v
  {
    SplitIntoSextets(v);
    ContinuationByte(v / 4096 % 64);
    ContinuationByte(v / 64 % 64);
    ContinuationByte(v % 64);
  }

  /** A continuation byte carries its six payload bits. */
  lemma ContinuationByte(x: int)
    requires 0 <= x < 64
    ensures IsContinuation(0x80 + x) && Payload(0x80 + x) == x
  {
  }

  /** Decoding undoes encoding: no string is lost or altered on the way through bytes. */
  lemma {:induction false} DecodeEncode(s: string)
    ensures Decode(Encode(s)) == Some(s)
  {
    if s != [] {
      var head := EncodeChar(s[0]);
      var tail := Encode(s[1..]);
      DecodeFirstEncodeChar(s[0], tail);
      assert (head + tail)[|head|..] == tail;
      DecodeEncode(s[1..]);
      assert [s[0]] + s[1..] == s;
    }
  }

  /** Hence different strings have different encodings. */
  lemma EncodeInjective(s: string, t: string)
    requires Encode(s) == Encode(t)
    ensures s == t
  {
    DecodeEncode(s);
    DecodeEncode(t);
  }

  /** Text made of ASCII characters only is encoded one byte per character, as the characters' codes. */
  lemma AsciiIsOneBytePerChar(s: string)
    requires forall i :: 0 <= i < |s| ==> s[i] as int < 0x80
    ensures |Encode(s)| == |s|
    ensures forall i :: 0 <= i < |s| ==> Encode(s)[i] == s[i] as int
  {
    if s != [] {
      AsciiIsOneBytePerChar(s[1..]);
      assert forall i :: 1 <= i < |s| ==> Encode(s)[i] == Encode(s[1..])[i - 1];
    }
  }
}
