/**
 * The names the renaming transformers generate: a SHA-256 digest written
 * as lower-case hex, with the first character overwritten by a random
 * lower-case letter. The digest of the salted name and the random letter
 * are oracles; only the shape of the result is fixed.
 */
module Naming {

  /** A SHA-256 digest. */
  type Digest = d: seq<bv8> | |d| == 32 witness seq(32, _ => 0 as bv8)

  /** A value of `random.nextInt(26)`. */
  type Letter = n: int | 0 <= n < 26

  /**
   * The sources of unpredictability, indexed by how many names were drawn
   * before: the digest of the original name salted with the clock (and, for
   * fields, a random int), and the letter that replaces the first character.
   */
  datatype Entropy = Entropy(digest: (string, nat) -> Digest, letter: nat -> Letter)

  predicate IsHexDigit(c: char) {
    '0' <= c <= '9' || 'a' <= c <= 'f'
  }

  predicate IsLowerLetter(c: char) {
    'a' <= c <= 'z'
  }

  /** One digit of `String.format("%02x", b)`. */
  function HexDigit(n: int): (c: char)
    requires 0 <= n < 16
    ensures IsHexDigit(c)
  {
    if n < 10 then ('0' as int + n) as char else ('a' as int + n - 10) as char
  }

  /** The digit value of a hex digit; its partner `HexDigit` is inverted by it. */
  function DigitValue(c: char): (n: int)
    ensures 0 <= n < 16
    ensures forall k :: 0 <= k < 16 && c == HexDigit(k) ==> n == k
  {
    if '0' <= c <= '9' then c as int - '0' as int
    else if 'a' <= c <= 'f' then c as int - 'a' as int + 10
    else 0
  }

  /** `String.format("%02x", b)`: two digits, high nibble first. */
  function HexByte(b: bv8): (r: string)
    ensures |r| == 2
  {
    [HexDigit(b as int / 16), HexDigit(b as int % 16)]
  }

  /** The bytes as lower-case hex, two digits per byte, in order. */
  function Hex(bytes: seq<bv8>): (r: string)
    ensures |r| == 2 * |bytes|
    ensures forall i :: 0 <= i < |bytes| ==>
      r[2 * i] == HexDigit(bytes[i] as int / 16) && r[2 * i + 1] == HexDigit(bytes[i] as int % 16)
  {
    if bytes == [] then []
    else
      var init := bytes[..|bytes| - 1];
      var rest := Hex(init);
      assert forall i :: 0 <= i < |init| ==> bytes[i] == init[i];
      rest + HexByte(bytes[|bytes| - 1])
  }

  lemma HexIsHex(bytes: seq<bv8>)
    ensures forall i :: 0 <= i < |Hex(bytes)| ==> IsHexDigit(Hex(bytes)[i])
  {
    var r := Hex(bytes);
    forall i | 0 <= i < |r| ensures IsHexDigit(r[i]) {
      var j := i / 2;
      if i % 2 == 0 {
        assert r[2 * j] == HexDigit(bytes[j] as int / 16);
      } else {
        assert r[2 * j + 1] == HexDigit(bytes[j] as int % 16);
      }
    }
  }

  /** Equal hex text means equal bytes: the encoding loses nothing. */
  lemma HexInjective(a: seq<bv8>, b: seq<bv8>)
    requires Hex(a) == Hex(b)
    ensures a == b
  {
    assert |a| == |b|;
    forall i | 0 <= i < |a| ensures a[i] == b[i] {
      ByteFromDigits(a[i], b[i]);
    }
  }

  lemma ByteFromDigits(x: bv8, y: bv8)
    requires HexDigit(x as int / 16) == HexDigit(y as int / 16)
    requires HexDigit(x as int % 16) == HexDigit(y as int % 16)
    ensures x == y
  {
    NibblesDetermineValue(x as int, y as int);
    SameValueSameByte(x, y);
  }

  lemma NibblesDetermineValue(a: int, b: int)
    requires 0 <= a < 256 && 0 <= b < 256
    requires HexDigit(a / 16) == HexDigit(b / 16) && HexDigit(a % 16) == HexDigit(b % 16)
    ensures a == b
  {
    SameDigitSameNibble(a / 16, b / 16);
    SameDigitSameNibble(a % 16, b % 16);
    EqualByDigits(a, b);
  }

  lemma SameValueSameByte(x: bv8, y: bv8)
    requires x as int == y as int
    ensures x == y
  {
  }

  lemma SameDigitSameNibble(m: int, n: int)
    requires 0 <= m < 16 && 0 <= n < 16 && HexDigit(m) == HexDigit(n)
    ensures m == n
  {
    assert DigitValue(HexDigit(m)) == m;
  }

  lemma EqualByDigits(a: int, b: int)
    requires a / 16 == b / 16 && a % 16 == b % 16
    ensures a == b
  {
  }

  /** `(char) ('a' + letter)`. */
  function LetterChar(letter: Letter): (c: char)
    ensures IsLowerLetter(c)
  {
    ('a' as int + letter) as char
  }

  /** The shape of a generated method name: a letter and 63 hex digits. */
  predicate IsSecureMethodName(s: string) {
    |s| == 64 && IsLowerLetter(s[0]) && forall i :: 1 <= i < |s| ==> IsHexDigit(s[i])
  }

  /** The shape of a generated field name: a letter and 64 hex digits. */
  predicate IsSecureFieldName(s: string) {
    |s| == 65 && IsLowerLetter(s[0]) && forall i :: 1 <= i < |s| ==> IsHexDigit(s[i])
  }

  /** `generateSecureMethodName`: the 64 hex digits of the digest, the first overwritten by the letter. */
  function SecureMethodName(digest: Digest, letter: Letter): (r: string)
    ensures IsSecureMethodName(r)
  {
    HexIsHex(digest);
    [LetterChar(letter)] + Hex(digest)[1..]
  }

  /** `generateSecureFieldName`: `_` and the 64 hex digits, the `_` overwritten by the letter. */
  function SecureFieldName(digest: Digest, letter: Letter): (r: string)
    ensures IsSecureFieldName(r)
  {
    HexIsHex(digest);
    [LetterChar(letter)] + Hex(digest)
  }

  /** The hex text of a non-empty byte sequence starts with the two digits of its first byte. */
  lemma {:induction false} HexCons(d: seq<bv8>)
    requires d != []
    ensures Hex(d) == HexByte(d[0]) + Hex(d[1..])
    decreases |d|
  {
    var init := d[..|d| - 1];
    if |d| == 1 {
      assert init == [] && d[1..] == [];
    } else {
      var last := HexByte(d[|d| - 1]);
      HexCons(init);
      assert init[0] == d[0];
      assert d[1..][..|d| - 2] == init[1..];
      assert Hex(d[1..]) == Hex(init[1..]) + last;
      assert Hex(d) == (HexByte(d[0]) + Hex(init[1..])) + last;
      ConcatAssoc(HexByte(d[0]), Hex(init[1..]), last);
    }
  }

  lemma ConcatAssoc(a: string, b: string, c: string)
    ensures (a + b) + c == a + (b + c)
  {
  }

  lemma MethodNameParts(d: Digest, l: Letter)
    ensures SecureMethodName(d, l) == [LetterChar(l), HexDigit(d[0] as int % 16)] + Hex(d[1..])
  {
    HexCons(d);
  }

  /**
   * A method name keeps everything of its draw except the high nibble of
   * the first digest byte: two draws give the same name exactly when they
   * agree on the letter, on the low nibble of byte 0 and on bytes 1 to 31.
   */
  lemma MethodNameForgetsFirstDigit(d1: Digest, l1: Letter, d2: Digest, l2: Letter)
    ensures SecureMethodName(d1, l1) == SecureMethodName(d2, l2) <==>
      l1 == l2 && d1[0] as int % 16 == d2[0] as int % 16 && d1[1..] == d2[1..]
  {
    MethodNameParts(d1, l1);
    MethodNameParts(d2, l2);
    var n1, n2 := SecureMethodName(d1, l1), SecureMethodName(d2, l2);
    if n1 == n2 {
      assert n1[0] == n2[0] && n1[1] == n2[1] && n1[2..] == n2[2..];
      assert DigitValue(HexDigit(d1[0] as int % 16)) == d1[0] as int % 16;
      assert DigitValue(HexDigit(d2[0] as int % 16)) == d2[0] as int % 16;
      HexInjective(d1[1..], d2[1..]);
    }
  }

  /** A field name determines its draw completely: digest and letter. */
  lemma FieldNameDeterminesDraw(d1: Digest, l1: Letter, d2: Digest, l2: Letter)
    requires SecureFieldName(d1, l1) == SecureFieldName(d2, l2)
    ensures d1 == d2 && l1 == l2
  {
    var n1, n2 := SecureFieldName(d1, l1), SecureFieldName(d2, l2);
    assert LetterChar(l1) == n1[0] && LetterChar(l2) == n2[0];
    assert Hex(d1) == n1[1..] && Hex(d2) == n2[1..];
    HexInjective(d1, d2);
  }

  /** A generated name contains no `.`, so it is a legal member name. */
  lemma SecureNameHasNoDot(s: string)
    requires IsSecureMethodName(s) || IsSecureFieldName(s)
    ensures '.' !in s
  {
    forall i | 0 <= i < |s| ensures s[i] != '.' {
    }
  }

  /** The hex loop of the name generators: each byte appended as two digits. */
  method EncodeHex(bytes: seq<bv8>) returns (text: string)
    ensures text == Hex(bytes)
  {
    text := [];
    for i := 0 to |bytes|
      invariant text == Hex(bytes[..i])
    {
      assert bytes[..i + 1][..i] == bytes[..i];
      text := text + HexByte(bytes[i]);
    }
    assert bytes[..|bytes|] == bytes;
  }
}
