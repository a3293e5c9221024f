/**
 * The string literal transformer. Every `ldc` of a String longer than three
 * UTF-16 units becomes three instructions: `ldc` of the Base64 text of the
 * literal's UTF-8 bytes XOR-ed with a per-literal key and a fixed byte
 * pattern, `ldc` of the key, and a static call to a helper method that the
 * transformer injects once, as its own class file, into the output.
 */
module StringTransformer {
  import opened JavaText
  import opened ClassModel
  import Utf8
  import Base64

  const TransformerName := "StringTransformer"

  /** The descriptor of the helper method: `(String, int) -> String`. */
  const DecryptMethodDesc := "(Ljava/lang/String;I)Ljava/lang/String;"

  /** Literals of at most this many UTF-16 units are left alone. */
  const MaxPlainLength := 3

  /** The three words whose bytes are mixed into the cipher. */
  const Magic: seq<bv64> := [0xDEAD_BEEF, 0xCAFE_BABE, 0xFACE_FEED]

  /** How many keys the constructor draws into its (otherwise unused) key table. */
  const KeyTableSize := 16

  /** The helper the rewritten code calls: its class (internal name) and method name. */
  datatype DecryptCall = DecryptCall(owner: string, name: string)

  // ---------------------------------------------------------------------
  // The cipher

  /** `(int) ((magicValue >>> shift) & 0xFF)`: one byte of a magic word. */
  function MagicByteOf(magicValue: bv64, shift: nat): (r: bv32)
    requires shift <= 24
    ensures r < 0x100
  {
    ((magicValue >> shift) & 0xFF) as bv32
  }

  /** Byte number `i mod 4`, from the low end, of `Magic[i mod 3]`. */
  function MagicByte(i: nat): (r: bv32)
    ensures r < 0x100
  {
    MagicByteOf(Magic[i % |Magic|], (i % 4) * 8)
  }

  /** A Java `byte` (the octet read as signed) widened to `int`. */
  function Widen(b: Octet): bv32 {
    var x := b as bv8 as bv32;
    if b < 0x80 then x else x | 0xFFFF_FF00
  }

  /** The `(byte)` cast: the low eight bits. */
  function Low(x: bv32): bv8 {
    (x & 0xFF) as bv8
  }

  /**
   * `(byte) (bytes[i] ^ key ^ magicByte ^ (i & 0xFF))`, read back as an
   * octet: the byte XOR-ed with the low bytes of the key, the magic byte and
   * the index; the sign extension and the high bytes drop out.
   */
  function EncryptedByte(b: Octet, key: bv32, magicByte: bv32, i: nat): (r: Octet)
    ensures r == Masked(b, Low(key) ^ Low(magicByte) ^ (i % 256) as bv8)
  {
    var w, p := Widen(b), (i % 256) as bv8 as bv32;
    LowXor(w ^ key ^ magicByte, p);
    LowXor(w ^ key, magicByte);
    LowXor(w, key);
    LowWiden(b);
    LowOfByte((i % 256) as bv8);
    Low(w ^ key ^ magicByte ^ p) as int
  }

  /** Byte `i` of the cipher array. */
  function CipherByte(b: Octet, key: bv32, i: nat): Octet {
    EncryptedByte(b, key, MagicByte(i), i)
  }

  /** What byte `i` is XOR-ed with: only the low byte of the key takes part. */
  function Mask(key: bv32, i: nat): bv8 {
    Low(key) ^ Low(MagicByte(i)) ^ (i % 256) as bv8
  }

  lemma LowXor(a: bv32, b: bv32)
    ensures Low(a ^ b) == Low(a) ^ Low(b)
  {
  }

  lemma LowWiden(b: Octet)
    ensures Low(Widen(b)) == b as bv8
  {
  }

  lemma LowOfByte(x: bv8)
    ensures Low(x as bv32) == x
  {
  }

  /** An octet XOR-ed with a mask. */
  function Masked(b: Octet, m: bv8): Octet {
    ((b as bv8) ^ m) as int
  }

  /** The cipher array of `encrypt`: as long as the input, byte `i` masked by `Mask(key, i)`. */
  function Cipher(bytes: seq<Octet>, key: bv32): (r: seq<Octet>)
    ensures |r| == |bytes|
    ensures forall i :: 0 <= i < |bytes| ==> r[i] == Masked(bytes[i], Mask(key, i))
  {
    seq(|bytes|, i requires 0 <= i < |bytes| => CipherByte(bytes[i], key, i))
  }

  lemma IntOfByte(y: bv8)
    ensures (y as int) as bv8 == y
  {
  }

  /** The eight-bit vector of an octet, counted up from zero. */
  function OctetBits(b: Octet): (y: bv8)
    ensures y as int == b
  {
    if b == 0 then 0
    else
      var x := OctetBits(b - 1);
      IncrementBits(x);
      x + 1
  }

  lemma IncrementBits(x: bv8)
    requires x as int < 255
    ensures (x + 1) as int == x as int + 1
  {
  }

  lemma ByteOfOctet(b: Octet)
    ensures (b as bv8) as int == b
  {
    IntOfByte(OctetBits(b));
  }

  lemma MaskTwice(b: Octet, m: bv8)
    ensures Masked(Masked(b, m), m) == b
  {
    IntOfByte((b as bv8) ^ m);
    ByteOfOctet(b);
  }

  /** The same XOR chain applied twice gives the bytes back: the cipher is its own inverse. */
  lemma CipherIsInvolution(bytes: seq<Octet>, key: bv32)
    ensures Cipher(Cipher(bytes, key), key) == bytes
  {
    forall i | 0 <= i < |bytes| ensures Cipher(Cipher(bytes, key), key)[i] == bytes[i] {
      CipherTwiceAt(bytes, key, i);
    }
  }

  lemma CipherTwiceAt(bytes: seq<Octet>, key: bv32, i: nat)
    requires i < |bytes|
    ensures Cipher(Cipher(bytes, key), key)[i] == bytes[i]
  {
    MaskTwice(bytes[i], Mask(key, i));
  }

  /** Two keys give the same cipher of non-empty bytes exactly when their low bytes agree. */
  lemma CipherSeesLowKeyByte(bytes: seq<Octet>, key1: bv32, key2: bv32)
    requires bytes != []
    ensures Cipher(bytes, key1) == Cipher(bytes, key2) <==> key1 & 0xFF == key2 & 0xFF
  {
    if key1 & 0xFF == key2 & 0xFF {
      assert Low(key1) == Low(key2);
      assert forall i :: 0 <= i < |bytes| ==> Mask(key1, i) == Mask(key2, i);
    } else {
      DistinctMasks(bytes[0], key1, key2);
      assert Cipher(bytes, key1)[0] != Cipher(bytes, key2)[0];
    }
  }

  lemma DistinctMasks(b: Octet, key1: bv32, key2: bv32)
    requires key1 & 0xFF != key2 & 0xFF
    ensures Masked(b, Mask(key1, 0)) != Masked(b, Mask(key2, 0))
  {
    assert Low(key1) != Low(key2);
    var c1, c2 := (b as bv8) ^ Mask(key1, 0), (b as bv8) ^ Mask(key2, 0);
    assert c1 != c2;
    IntOfByte(c1);
    IntOfByte(c2);
  }

  /**
   * `encrypt(input, key)`: the Base64 text of the cipher of the UTF-8
   * bytes, four digits for every three bytes begun, so never shorter than
   * the input.
   */
  function EncryptText(input: string, key: bv32): (r: string)
    ensures |r| == 4 * ((|Utf8.Encode(input)| + 2) / 3) && |r| >= |input|
  {
    Base64.Encode(Cipher(Utf8.Encode(input), key))
  }

  /**
   * The decryption that inverts the cipher: Base64-decode, the same XOR
   * chain, UTF-8-decode. It is what the helper must compute; the helper's
   * own instructions are not part of this model.
   */
  function DecryptText(text: string, key: bv32): (r: Option<string>)
    ensures |text| % 4 != 0 ==> r.None?
    ensures r.Some? ==> |r.value| <= 3 * (|text| / 4)
  {
    match Base64.Decode(text)
    case Some(bytes) => Utf8.Decode(Cipher(bytes, key))
    case None => None
  }

  /** Decrypting with the key a literal was encrypted with gives the literal back. */
  lemma DecryptEncrypt(input: string, key: bv32)
    ensures DecryptText(EncryptText(input, key), key) == Some(input)
  {
    var bytes := Utf8.Encode(input);
    Base64.DecodeEncode(Cipher(bytes, key));
    CipherIsInvolution(bytes, key);
    Utf8.DecodeEncode(input);
  }

  /** The key as the Java `int` that the `ldc` pushes. */
  function JavaInt(key: bv32): (r: int)
    ensures -0x8000_0000 <= r < 0x8000_0000
  {
    var v := key as int;
    if v < 0x8000_0000 then v else v - 0x1_0000_0000
  }

  /** The 32 bits of an `int` constant. */
  function KeyOf(n: int): bv32 {
    (n % 0x1_0000_0000) as bv32
  }

  /** The key survives its trip through the `int` constant. */
  lemma KeyOfJavaInt(key: bv32)
    ensures KeyOf(JavaInt(key)) == key
  {
    JavaIntWraps(key);
    WordOfInt(key);
  }

  lemma JavaIntWraps(key: bv32)
    ensures JavaInt(key) % 0x1_0000_0000 == key as int
  {
    WordRange(key);
    Wrap(key as int);
  }

  lemma WordRange(k: bv32)
    ensures 0 <= k as int < 0x1_0000_0000
  {
  }

  lemma WordOfInt(k: bv32)
    ensures (k as int) as bv32 == k
  {
  }

  lemma Wrap(v: int)
    requires 0 <= v < 0x1_0000_0000
    ensures (if v < 0x8000_0000 then v else v - 0x1_0000_0000) % 0x1_0000_0000 == v
  {
  }

  // ---------------------------------------------------------------------
  // Rewriting instructions

  /** `String.length()`: characters outside the basic plane take two UTF-16 units. */
  function Utf16Length(s: string): (r: nat)
    ensures r >= |s|
  {
    if s == [] then 0 else (if s[0] as int >= 0x1_0000 then 2 else 1) + Utf16Length(s[1..])
  }

  /** An `ldc` the transformer replaces. */
  predicate Encryptable(insn: Insn) {
    insn.Ldc? && insn.cst.CString? && Utf16Length(insn.cst.text) > MaxPlainLength
  }

  predicate IsHelperCall(helper: DecryptCall, insn: Insn) {
    insn == MethodInsn(INVOKESTATIC, helper.owner, helper.name, DecryptMethodDesc)
  }

  /** The three instructions that stand for literal `text` encrypted with `key`. */
  function Replacement(helper: DecryptCall, text: string, key: bv32): seq<Insn> {
    [Ldc(CString(EncryptText(text, key))), Ldc(CInt(JavaInt(key))),
     MethodInsn(INVOKESTATIC, helper.owner, helper.name, DecryptMethodDesc)]
  }

  /** How many instructions of the list the transformer replaces. */
  function EncryptableCount(insns: seq<Insn>): (r: nat)
    ensures r <= |insns|
  {
    if insns == [] then 0
    else EncryptableCount(insns[..|insns| - 1]) + (if Encryptable(insns[|insns| - 1]) then 1 else 0)
  }

  lemma {:induction false} NoEncryptableIffCountZero(insns: seq<Insn>)
    ensures EncryptableCount(insns) == 0 <==> forall i :: 0 <= i < |insns| ==> !Encryptable(insns[i])
    decreases |insns|
  {
    if insns != [] {
      var init := insns[..|insns| - 1];
      NoEncryptableIffCountZero(init);
      assert forall i :: 0 <= i < |init| ==> init[i] == insns[i];
    }
  }

  /** The instructions after the loop, and the number of keys drawn. */
  datatype Rewrite = Rewrite(insns: seq<Insn>, draws: nat)

  /**
   * The loop of `transformMethod` over the instructions, in order: each
   * literal it replaces draws the next key.
   */
  function RewriteInsns(nextInt: nat -> bv32, helper: DecryptCall, insns: seq<Insn>, draws: nat): (r: Rewrite)
    ensures |r.insns| == |insns| + 2 * EncryptableCount(insns)
    ensures r.draws == draws + EncryptableCount(insns)
  {
    if insns == [] then Rewrite([], draws)
    else
      var before := RewriteInsns(nextInt, helper, insns[..|insns| - 1], draws);
      var insn := insns[|insns| - 1];
      if Encryptable(insn) then
        Rewrite(before.insns + Replacement(helper, insn.cst.text, nextInt(before.draws)), before.draws + 1)
      else Rewrite(before.insns + [insn], before.draws)
  }

  /** A list without a literal to replace comes out as it went in. */
  lemma {:induction false} NothingToEncrypt(nextInt: nat -> bv32, helper: DecryptCall, insns: seq<Insn>, draws: nat)
    requires forall i :: 0 <= i < |insns| ==> !Encryptable(insns[i])
    ensures RewriteInsns(nextInt, helper, insns, draws) == Rewrite(insns, draws)
    decreases |insns|
  {
    if insns != [] {
      var init := insns[..|insns| - 1];
      NothingToEncrypt(nextInt, helper, init, draws);
      assert init + [insns[|insns| - 1]] == insns;
    }
  }

  /**
   * The reading of rewritten code that puts each literal back: a
   * `ldc` text, `ldc` int, helper call triple whose text decrypts under
   * that int becomes an `ldc` of the decrypted text.
   */
  function Restore(helper: DecryptCall, insns: seq<Insn>): seq<Insn> {
    if insns == [] then []
    else
      var n := |insns|;
      if n >= 3 && IsHelperCall(helper, insns[n - 1]) && insns[n - 2].Ldc? && insns[n - 2].cst.CInt?
         && insns[n - 3].Ldc? && insns[n - 3].cst.CString?
         && DecryptText(insns[n - 3].cst.text, KeyOf(insns[n - 2].cst.number)).Some?
      then Restore(helper, insns[..n - 3]) + [Ldc(CString(DecryptText(insns[n - 3].cst.text, KeyOf(insns[n - 2].cst.number)).value))]
      else Restore(helper, insns[..n - 1]) + [insns[n - 1]]
  }

  /**
   * The rewrite loses nothing: in code that did not already call the
   * helper, putting the literals back gives the original instructions.
   */
  lemma {:induction false} RestoreRewrite(nextInt: nat -> bv32, helper: DecryptCall, insns: seq<Insn>, draws: nat)
    requires forall i :: 0 <= i < |insns| ==> !IsHelperCall(helper, insns[i])
    ensures Restore(helper, RewriteInsns(nextInt, helper, insns, draws).insns) == insns
    decreases |insns|
  {
    if insns != [] {
      var init := insns[..|insns| - 1];
      var insn := insns[|insns| - 1];
      assert init + [insn] == insns;
      RestoreRewrite(nextInt, helper, init, draws);
      RestoreRewriteStep(nextInt, helper, init, insn, draws);
    }
  }

  /** One more instruction at the end of the list is read back as itself. */
  lemma RestoreRewriteStep(nextInt: nat -> bv32, helper: DecryptCall, init: seq<Insn>, insn: Insn, draws: nat)
    requires !IsHelperCall(helper, insn)
    ensures Restore(helper, RewriteInsns(nextInt, helper, init + [insn], draws).insns)
         == Restore(helper, RewriteInsns(nextInt, helper, init, draws).insns) + [insn]
  {
    var insns := init + [insn];
    assert insns[..|insns| - 1] == init;
    var before := RewriteInsns(nextInt, helper, init, draws);
    if Encryptable(insn) {
      RestoreReplacement(helper, before.insns, insn.cst.text, nextInt(before.draws));
    } else {
      RestoreKept(helper, before.insns, insn);
    }
  }

  /** The three instructions of a replaced literal are read back as the literal. */
  lemma RestoreReplacement(helper: DecryptCall, prefix: seq<Insn>, text: string, key: bv32)
    ensures Restore(helper, prefix + Replacement(helper, text, key)) == Restore(helper, prefix) + [Ldc(CString(text))]
  {
    var out := prefix + Replacement(helper, text, key);
    assert out[..|out| - 3] == prefix;
    KeyOfJavaInt(key);
    DecryptEncrypt(text, key);
    assert out[|out| - 3] == Ldc(CString(EncryptText(text, key)));
    assert out[|out| - 2] == Ldc(CInt(JavaInt(key)));
  }

  /** An instruction other than a helper call is read back as itself. */
  lemma RestoreKept(helper: DecryptCall, prefix: seq<Insn>, insn: Insn)
    requires !IsHelperCall(helper, insn)
    ensures Restore(helper, prefix + [insn]) == Restore(helper, prefix) + [insn]
  {
    var out := prefix + [insn];
    assert out[..|out| - 1] == prefix;
  }

  /** `String.length()` of text within the basic plane is its number of characters. */
  lemma {:induction false} BasicPlaneLength(s: string)
    requires forall i :: 0 <= i < |s| ==> s[i] as int < 0x1_0000
    ensures Utf16Length(s) == |s|
    decreases |s|
  {
    if s != [] {
      BasicPlaneLength(s[1..]);
    }
  }

  /** The literal "hello world" is replaced. */
  lemma LongLiteralReplaced(nextInt: nat -> bv32, helper: DecryptCall, draws: nat)
    ensures RewriteInsns(nextInt, helper, [Ldc(CString("hello world"))], draws).insns
      == Replacement(helper, "hello world", nextInt(draws))
  {
    BasicPlaneLength("hello world");
    assert [Ldc(CString("hello world"))][..0] == [];
  }

  /** The literal "ok" is left alone. */
  lemma ShortLiteralKept(nextInt: nat -> bv32, helper: DecryptCall, draws: nat)
    ensures RewriteInsns(nextInt, helper, [Ldc(CString("ok"))], draws).insns == [Ldc(CString("ok"))]
  {
    BasicPlaneLength("ok");
    assert [Ldc(CString("ok"))][..0] == [];
  }

  /** The methods after the loop of `doTransform`, the keys drawn, and whether any method changed. */
  datatype ClassRewrite = ClassRewrite(methods: seq<MethodNode>, draws: nat, modified: bool)

  /** The loop of `doTransform`: every method is rewritten, in order. */
  function RewriteMethods(nextInt: nat -> bv32, helper: DecryptCall, methods: seq<MethodNode>, draws: nat): (r: ClassRewrite)
    ensures |r.methods| == |methods|
    ensures forall i :: 0 <= i < |methods| ==>
      r.methods[i].name == methods[i].name && r.methods[i].desc == methods[i].desc &&
      r.methods[i].visibleAnnotations == methods[i].visibleAnnotations
    ensures r.draws >= draws
  {
    if methods == [] then ClassRewrite([], draws, false)
    else
      var before := RewriteMethods(nextInt, helper, methods[..|methods| - 1], draws);
      var m := methods[|methods| - 1];
      var rewrite := RewriteInsns(nextInt, helper, m.instructions, before.draws);
      ClassRewrite(before.methods + [m.(instructions := rewrite.insns)], rewrite.draws,
                   before.modified || EncryptableCount(m.instructions) > 0)
  }

  /** The method loads a String literal that `transformMethod` replaces. */
  predicate LoadsLiteral(m: MethodNode) {
    exists j :: 0 <= j < |m.instructions| && Encryptable(m.instructions[j])
  }

  /** A class is reported modified exactly when one of its methods loads a literal to replace. */
  lemma {:induction false} ModifiedIffSomeLiteral(nextInt: nat -> bv32, helper: DecryptCall, methods: seq<MethodNode>, draws: nat)
    ensures RewriteMethods(nextInt, helper, methods, draws).modified <==>
      exists i :: 0 <= i < |methods| && LoadsLiteral(methods[i])
    decreases |methods|
  {
    if methods != [] {
      var init := methods[..|methods| - 1];
      var m := methods[|methods| - 1];
      ModifiedIffSomeLiteral(nextInt, helper, init, draws);
      NoEncryptableIffCountZero(m.instructions);
      assert LoadsLiteral(m) <==> EncryptableCount(m.instructions) > 0;
      assert forall i :: 0 <= i < |init| ==> methods[i] == init[i];
    }
  }

  // ---------------------------------------------------------------------
  // The transformer

  class StringTransformer {
    /** `random.nextInt()`, by how many values were drawn before. */
    const nextInt: nat -> bv32
    const helper: DecryptCall
    /** The class file of the helper, which `addStringDecryptorClass` emits. */
    const decryptorClass: seq<Octet>
    const keys: array<bv32>
    var draws: nat
    var decryptorAdded: bool
    /** How many times the helper class was put into the output. */
    ghost var injections: nat

    ghost predicate Valid()
      reads this
    {
      injections == if decryptorAdded then 1 else 0
    }

    constructor (nextInt: nat -> bv32, helper: DecryptCall, decryptorClass: seq<Octet>)
      ensures this.nextInt == nextInt && this.helper == helper && this.decryptorClass == decryptorClass
      ensures fresh(keys) && keys.Length == KeyTableSize
      ensures forall i :: 0 <= i < KeyTableSize ==> keys[i] == nextInt(i)
      ensures draws == KeyTableSize && !decryptorAdded && Valid()
    {
      this.nextInt := nextInt;
      this.helper := helper;
      this.decryptorClass := decryptorClass;
      var table := new bv32[KeyTableSize];
      for i := 0 to KeyTableSize
        invariant forall j :: 0 <= j < i ==> table[j] == nextInt(j)
      {
        table[i] := nextInt(i);
      }
      keys := table;
      draws := KeyTableSize;
      decryptorAdded := false;
      injections := 0;
    }

    /** `encrypt`: the cipher loop into a fresh array, then Base64. */
    static method Encrypt(input: string, key: bv32) returns (encrypted: string)
      ensures encrypted == EncryptText(input, key)
    {
      var bytes := Utf8.Encode(input);
      var buffer := new Octet[|bytes|];
      for i := 0 to |bytes|
        invariant forall j :: 0 <= j < i ==> buffer[j] == CipherByte(bytes[j], key, j)
      {
        var magicIndex := i % |Magic|;
        var magicValue := Magic[magicIndex];
        var shift := (i % 4) * 8;
        var magicByte := MagicByteOf(magicValue, shift);
        buffer[i] := EncryptedByte(bytes[i], key, magicByte, i);
      }
      assert buffer[..] == Cipher(bytes, key);
      encrypted := Base64.Encode(buffer[..]);
    }

    /** `transformMethod`: the instruction loop, and whether a literal was replaced. */
    method TransformMethod(methodNode: MethodNode) returns (updated: MethodNode, modified: bool)
      modifies this
      ensures var r := RewriteInsns(nextInt, helper, methodNode.instructions, old(draws));
        updated == methodNode.(instructions := r.insns) && draws == r.draws
      ensures modified <==> EncryptableCount(methodNode.instructions) > 0
      ensures decryptorAdded == old(decryptorAdded) && injections == old(injections)
    {
      var insns := methodNode.instructions;
      var output := [];
      modified := false;
      for i := 0 to |insns|
        invariant RewriteInsns(nextInt, helper, insns[..i], old(draws)) == Rewrite(output, draws)
        invariant decryptorAdded == old(decryptorAdded) && injections == old(injections)
        invariant modified <==> EncryptableCount(insns[..i]) > 0
      {
        assert insns[..i + 1][..i] == insns[..i];
        var insn := insns[i];
        if insn.Ldc? && insn.cst.CString? && Utf16Length(insn.cst.text) > MaxPlainLength {
          var key := nextInt(draws);
          draws := draws + 1;
          var encryptedString := Encrypt(insn.cst.text, key);
          output := output + [Ldc(CString(encryptedString)), Ldc(CInt(JavaInt(key))),
                              MethodInsn(INVOKESTATIC, helper.owner, helper.name, DecryptMethodDesc)];
          modified := true;
        } else {
          output := output + [insn];
        }
      }
      assert insns[..|insns|] == insns;
      updated := methodNode.(instructions := output);
    }

    /**
     * `doTransform`: the helper class is added to the output on the first
     * call only; the class comes back rewritten if a method changed, and
     * `None` (Java's null) otherwise.
     */
    method DoTransform(classNode: ClassNode, allClasses: map<string, seq<Octet>>)
      returns (result: Option<ClassNode>, outputClasses: map<string, seq<Octet>>)
      requires Valid()
      modifies this
      ensures Valid() && decryptorAdded && injections <= 1
      ensures outputClasses == if old(decryptorAdded) then allClasses
                               else allClasses[helper.owner + ".class" := decryptorClass]
      ensures var r := RewriteMethods(nextInt, helper, classNode.methods, old(draws));
        && draws == r.draws
        && result == if r.modified then Some(classNode.(methods := r.methods)) else None
    {
      outputClasses := allClasses;
      if !decryptorAdded {
        outputClasses := allClasses[helper.owner + ".class" := decryptorClass];
        decryptorAdded := true;
        injections := injections + 1;
      }
      var methods := classNode.methods;
      var rewritten := [];
      var modified := false;
      ghost var start := draws;
      for i := 0 to |methods|
        invariant RewriteMethods(nextInt, helper, methods[..i], start) == ClassRewrite(rewritten, draws, modified)
        invariant Valid() && decryptorAdded && injections <= 1
      {
        assert methods[..i + 1][..i] == methods[..i];
        var updated, changed := TransformMethod(methods[i]);
        rewritten := rewritten + [updated];
        modified := modified || changed;
      }
      assert methods[..|methods|] == methods;
      if modified {
        result := Some(classNode.(methods := rewritten));
      } else {
        result := None;
      }
    }
  }
}
