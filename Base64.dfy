/**
 * `Base64.getEncoder().encodeToString(bytes)`: the base 64 encoding of
 * section 4 of RFC 4648, with `=` padding, and the decoder that undoes it.
 */
module Base64 {
  import opened JavaText

  /** The digit for a six-bit value, by table 1 of RFC 4648. */
  function Digit(n: int): char
    requires 0 <= n < 64
  {
    if n < 26 then ('A' as int + n) as char
    else if n < 52 then ('a' as int + n - 26) as char
    else if n < 62 then ('0' as int + n - 52) as char
    else if n == 62 then '+'
    else '/'
  }

  /** The six-bit value of a digit; `None` for a character outside the alphabet (`=` included). */
  function DigitValue(c: char): (r: Option<int>)
    ensures r.Some? ==> 0 <= r.value < 64
  {
    if 'A' <= c <= 'Z' then Some(c as int - 'A' as int)
    else if 'a' <= c <= 'z' then Some(c as int - 'a' as int + 26)
    else if '0' <= c <= '9' then Some(c as int - '0' as int + 52)
    else if c == '+' then Some(62)
    else if c == '/' then Some(63)
    else None
  }

  lemma DigitValueOfDigit(n: int)
    requires 0 <= n < 64
    ensures DigitValue(Digit(n)) == Some(n)
  {
  }

  /** The four digits of a 24-bit group, most significant first. */
  function Quartet(n: int): (r: string)
    requires 0 <= n < 0x100_0000
    ensures |r| == 4
  {
    [Digit(n / 262144), Digit(n / 4096 % 64), Digit(n / 64 % 64), Digit(n % 64)]
  }

  /**
   * Three bytes at a time make four digits; a final one or two bytes make
   * two or three digits, padded with `=` to four.
   */
  function Encode(bytes: seq<Octet>): (r: string)
    ensures |r| == 4 * ((|bytes| + 2) / 3)
    decreases |bytes|
  {
    if |bytes| == 0 then []
    else if |bytes| == 1 then Quartet(bytes[0] as int * 65536)[..2] + "=="
    else if |bytes| == 2 then Quartet(bytes[0] as int * 65536 + bytes[1] as int * 256)[..3] + "="
    else
      var rest := Encode(bytes[3..]);
      assert (|bytes| + 2) / 3 == (|bytes| - 1) / 3 + 1;
      Quartet(bytes[0] as int * 65536 + bytes[1] as int * 256 + bytes[2]) + rest
  }

  /** The 24-bit value of the first `k` digits of `s`, the others counting as zero; `None` if one is not a digit. */
  function GroupValue(s: string, k: nat): (r: Option<int>)
    requires 2 <= k <= 4 <= |s|
    ensures r.Some? ==> 0 <= r.value < 0x100_0000
  {
    if forall i :: 0 <= i < k ==> DigitValue(s[i]).Some? then
      var d2 := if k > 2 then DigitValue(s[2]).value else 0;
      var d3 := if k > 3 then DigitValue(s[3]).value else 0;
      Some(DigitValue(s[0]).value * 262144 + DigitValue(s[1]).value * 4096 + d2 * 64 + d3)
    else None
  }

  /**
   * The bytes a text decodes to, or `None` if it is not a padded encoding.
   * Only a text of whole four-digit groups decodes, each group to three
   * bytes but the last, which may give one or two.
   */
  function Decode(s: string): (r: Option<seq<Octet>>)
    ensures r.Some? ==> |s| % 4 == 0 && 3 * (|s| / 4) - 2 <= |r.value| <= 3 * (|s| / 4)
    decreases |s|
  {
    if s == [] then Some([])
    else if |s| < 4 then None
    else if |s| == 4 && s[2..] == "==" then
      match GroupValue(s, 2)
      case Some(n) => Some([n / 65536])
      case None => None
    else if |s| == 4 && s[3] == '=' then
      match GroupValue(s, 3)
      case Some(n) => Some([n / 65536, n / 256 % 256])
      case None => None
    else
      match (GroupValue(s, 4), Decode(s[4..]))
      case (Some(n), Some(rest)) => Some([n / 65536, n / 256 % 256, n % 256] + rest)
      case _ => None
  }

  /** Splitting a 24-bit value into four digits and reading them back gives the value. */
  lemma QuartetValue(n: int)
    requires 0 <= n < 0x100_0000
    ensures GroupValue(Quartet(n), 4) == Some(n)
  {
    var q := Quartet(n);
    DigitValueOfDigit(n / 262144);
    DigitValueOfDigit(n / 4096 % 64);
    DigitValueOfDigit(n / 64 % 64);
    DigitValueOfDigit(n % 64);
    assert forall i :: 0 <= i < 4 ==> DigitValue(q[i]).Some?;
    SplitIntoSextets(n);
  }

  /** Three bytes make a 24-bit value from which they are read back. */
  lemma BytesOfGroup(b0: Octet, b1: Octet, b2: Octet)
    ensures var n := b0 as int * 65536 + b1 as int * 256 + b2;
      0 <= n < 0x100_0000 && n / 65536 == b0 && n / 256 % 256 == b1 && n % 256 == b2
  {
  }

  /** Decoding undoes encoding, padding included. */
  lemma {:induction false} DecodeEncode(bytes: seq<Octet>)
    ensures Decode(Encode(bytes)) == Some(bytes)
    decreases |bytes|
  {
    if |bytes| == 1 {
      DecodeOneByte(bytes[0]);
      assert bytes == [bytes[0]];
    } else if |bytes| == 2 {
      DecodeTwoBytes(bytes[0], bytes[1]);
      assert bytes == [bytes[0], bytes[1]];
    } else if |bytes| >= 3 {
      var n := bytes[0] as int * 65536 + bytes[1] as int * 256 + bytes[2];
      var s := Encode(bytes);
      var rest := Encode(bytes[3..]);
      assert s == Quartet(n) + rest;
      DecodeEncode(bytes[3..]);
      DecodeFullGroup(n, bytes[0], bytes[1], bytes[2], rest);
      FirstThreeAndRest(bytes);
    }
  }

  lemma FirstThreeAndRest(bytes: seq<Octet>)
    requires |bytes| >= 3
    ensures [bytes[0], bytes[1], bytes[2]] + bytes[3..] == bytes
  {
  }

  lemma DecodeOneByte(b0: Octet)
    ensures Decode(Encode([b0])) == Some([b0])
  {
    var n := b0 as int * 65536;
    var s := Encode([b0]);
    QuartetValue(n);
    assert s[..2] == Quartet(n)[..2] && s[2..] == "==";
    assert GroupValue(s, 2) == GroupValue(Quartet(n), 2);
    MultipleOfSixtyFour(n, b0 as int * 1024);
    assert n / 64 == b0 as int * 1024;
    MultipleOfSixtyFour(n / 64, b0 as int * 16);
  }

  lemma MultipleOfSixtyFour(n: int, k: int)
    requires n == 64 * k
    ensures n % 64 == 0 && n / 64 == k
  {
  }

  lemma DecodeTwoBytes(b0: Octet, b1: Octet)
    ensures Decode(Encode([b0, b1])) == Some([b0, b1])
  {
    var n := b0 as int * 65536 + b1 as int * 256;
    var s := Encode([b0, b1]);
    MultipleOfSixtyFour(n, b0 as int * 1024 + b1 as int * 4);
    assert s[..3] == Quartet(n)[..3] && s[3] == '=';
    DecodeOnePad(s, n);
    BytesOfGroup(b0, b1, 0);
  }

  /** Three digits of a value whose last digit is zero, then one `=`, decode to its two high bytes. */
  lemma DecodeOnePad(s: string, n: int)
    requires 0 <= n < 0x100_0000 && n % 64 == 0
    requires |s| == 4 && s[..3] == Quartet(n)[..3] && s[3] == '='
    ensures Decode(s) == Some([n / 65536, n / 256 % 256])
  {
    ThreeDigitGroup(n);
    DigitValueOfDigit(n / 64 % 64);
    assert s[2] == Digit(n / 64 % 64);
  }

  /** A 24-bit value whose last digit is zero is read back from its first three digits. */
  lemma ThreeDigitGroup(n: int)
    requires 0 <= n < 0x100_0000 && n % 64 == 0
    ensures forall s: string :: |s| == 4 && s[..3] == Quartet(n)[..3] ==> GroupValue(s, 3) == Some(n)
  {
    QuartetValue(n);
    DigitValueOfDigit(0);
  }

  lemma DecodeFullGroup(n: int, b0: Octet, b1: Octet, b2: Octet, rest: string)
    requires n == b0 as int * 65536 + b1 as int * 256 + b2
    requires Decode(rest).Some?
    ensures Decode(Quartet(n) + rest) == Some([b0, b1, b2] + Decode(rest).value)
  {
    BytesOfGroup(b0, b1, b2);
    QuartetValue(n);
    var s := Quartet(n) + rest;
    assert s[..4] == Quartet(n) && s[4..] == rest;
    assert GroupValue(s, 4) == GroupValue(Quartet(n), 4);
    assert s[3] == Digit(n % 64) && s[3] != '=';
  }
}
