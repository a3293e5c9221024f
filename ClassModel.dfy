/**
 * The in-memory program image the transformers work on: the parts of the
 * ASM tree representation (ClassNode, FieldNode, MethodNode and the
 * instruction nodes) that the obfuscator reads or writes.
 */
module ClassModel {
  import opened JavaText

  /** The operand of an LDC instruction: a String, an Integer, or any other constant kind. */
  datatype Constant = CString(text: string) | CInt(number: int) | COther

  /** An instruction, as far as the transformers tell instructions apart. */
  datatype Insn =
    | FieldInsn(owner: string, name: string, desc: string)
    | MethodInsn(opcode: int, owner: string, name: string, desc: string)
    | Ldc(cst: Constant)
    | OtherInsn

  datatype FieldNode = FieldNode(access: bv32, name: string, desc: string, value: Option<Constant>)

  /** `visibleAnnotations` is nullable in ASM; annotations are given by their descriptors. */
  datatype MethodNode = MethodNode(
    name: string,
    desc: string,
    visibleAnnotations: Option<seq<string>>,
    instructions: seq<Insn>)

  /** `name` and `superName` are internal names (with `/`); `superName` is null for the root type. */
  datatype ClassNode = ClassNode(
    name: string,
    superName: Option<string>,
    fields: seq<FieldNode>,
    methods: seq<MethodNode>)

  /** The program image: entry name to class. */
  type Image = map<string, ClassNode>

  const ACC_PUBLIC: bv32 := 0x0001
  const ACC_STATIC: bv32 := 0x0008
  const ACC_FINAL: bv32 := 0x0010
  const ACC_SYNTHETIC: bv32 := 0x1000
  const ACC_ENUM: bv32 := 0x4000

  const INVOKESTATIC: int := 184

  /** The string key of a method: `className + "." + name + desc`. */
  function MethodKey(className: string, name: string, desc: string): string {
    className + "." + name + desc
  }

  /** The class part of a method key: everything before its last `.`. */
  function BeforeLastDot(s: string): (r: string)
    ensures |r| <= |s|
  {
    if s == [] then []
    else if s[|s| - 1] == '.' then s[..|s| - 1]
    else BeforeLastDot(s[..|s| - 1])
  }

  /**
   * A member name and descriptor as the class-file format allows them:
   * neither contains a `.`.
   */
  predicate IsLegalMember(name: string, desc: string) {
    '.' !in name && '.' !in desc
  }

  /** With a legal member part, a method key determines its class. */
  lemma {:induction false} MethodKeyOwner(className: string, name: string, desc: string)
    requires IsLegalMember(name, desc)
    ensures BeforeLastDot(MethodKey(className, name, desc)) == className
  {
    BeforeLastDotSkipsTail(className + ".", name + desc);
    assert MethodKey(className, name, desc) == (className + ".") + (name + desc);
    assert (className + ".")[..|className|] == className;
  }

  lemma {:induction false} BeforeLastDotSkipsTail(head: string, tail: string)
    requires head != [] && head[|head| - 1] == '.' && '.' !in tail
    ensures BeforeLastDot(head + tail) == head[..|head| - 1]
    decreases |tail|
  {
    if tail == [] {
      assert head + tail == head;
    } else {
      var s := head + tail;
      assert s[|s| - 1] == tail[|tail| - 1];
      assert s[..|s| - 1] == head + tail[..|tail| - 1];
      BeforeLastDotSkipsTail(head, tail[..|tail| - 1]);
    }
  }

  /**
   * The class name the transformers derive from an image key:
   * `key.replace('/', '.').replace(".class", "")`.
   */
  function ClassNameOfKey(key: string): (r: string)
    ensures |r| <= |key| && '/' !in r
  {
    RemoveAllKeepsOut(Dotted(key), ".class", '/');
    RemoveAll(Dotted(key), ".class")
  }

  lemma {:induction false} RemoveAllKeepsOut(s: string, target: string, c: char)
    requires target != [] && c !in s
    ensures c !in RemoveAll(s, target)
    decreases |s|
  {
    if s == [] {
    } else if StartsWith(s, target) {
      RemoveAllKeepsOut(s[|target|..], target, c);
    } else {
      RemoveAllKeepsOut(s[1..], target, c);
    }
  }

  /**
   * For an entry `n.class` whose dotted stem holds no `.class`, the
   * derivation gives the dotted stem: the name of the class in the entry.
   */
  lemma ClassNameOfClassFile(n: string)
    requires !Contains(Dotted(n), ".class")
    ensures ClassNameOfKey(n + ".class") == Dotted(n)
  {
    DottedAppend(n, ".class");
    DottedKeepsPlainName(".class");
    RemoveAllOfSuffix(Dotted(n), ".class");
  }

  /**
   * A package whose dotted name holds `.class` loses that text as well: the
   * entry of class `x` in package `p.class<q>` yields `p<q>.x`, which names
   * no class, where the intended derivation yields `p.class<q>.x`.
   */
  lemma ClassNameOfKeyCutsPackage(p: string, q: string, x: string)
    requires '.' !in p && '/' !in p && '/' !in q && '/' !in x
    requires !Contains(q + "." + x, ".class")
    ensures ClassNameOfKey(p + "/class" + q + "/" + x + ".class") == p + q + "." + x
    ensures ClassNameOfEntry(p + "/class" + q + "/" + x + ".class") == p + ".class" + q + "." + x
    ensures ClassNameOfKey(p + "/class" + q + "/" + x + ".class") != ClassNameOfEntry(p + "/class" + q + "/" + x + ".class")
  {
    PackageEntryAsWritten(p, q, x);
    PackageEntryAsIntended(p, q, x);
    assert |p + q + "." + x| < |p + ".class" + q + "." + x|;
  }

  lemma PackageEntryAsWritten(p: string, q: string, x: string)
    requires '.' !in p && '/' !in p && '/' !in q && '/' !in x
    requires !Contains(q + "." + x, ".class")
    ensures ClassNameOfKey(p + "/class" + q + "/" + x + ".class") == p + q + "." + x
  {
    DottedPackageEntry(p, q, x);
    RemoveAllAround(p, q + "." + x, ".class");
  }

  lemma PackageEntryAsIntended(p: string, q: string, x: string)
    requires '/' !in p && '/' !in q && '/' !in x
    ensures ClassNameOfEntry(p + "/class" + q + "/" + x + ".class") == p + ".class" + q + "." + x
  {
    var w := "class" + q;
    var stem := p + "/" + w + "/" + x;
    assert p + "/class" + q + "/" + x + ".class" == stem + ".class";
    ClassNameOfEntryOfClassFile(stem);
    assert '/' !in w;
    DottedTwoSlashes(p, w, x);
    assert p + "." + w + "." + x == p + ".class" + q + "." + x;
  }

  lemma DottedPackageEntry(p: string, q: string, x: string)
    requires '/' !in p && '/' !in q && '/' !in x
    ensures Dotted(p + "/class" + q + "/" + x + ".class") == p + ".class" + (q + "." + x) + ".class"
  {
    var w, c := "class" + q, x + ".class";
    assert '/' !in w && '/' !in c;
    DottedTwoSlashes(p, w, c);
    assert p + "/" + w + "/" + c == p + "/class" + q + "/" + x + ".class";
  }

  /** A class name of three segments, none holding `/`, dots to the segments joined by `.`. */
  lemma DottedTwoSlashes(a: string, b: string, c: string)
    requires '/' !in a && '/' !in b && '/' !in c
    ensures Dotted(a + "/" + b + "/" + c) == a + "." + b + "." + c
  {
    DottedJoin(a + "/" + b, c);
    DottedJoin(a, b);
    DottedKeepsPlainName(a);
    DottedKeepsPlainName(b);
    DottedKeepsPlainName(c);
  }

  /** `com/classloader/X.class` is such an entry: `p`, `q`, `x` are `com`, `loader`, `X`. */
  lemma ClassloaderPackageIsAnInstance()
    ensures '.' !in "com" && '/' !in "com" && '/' !in "loader" && '/' !in "X"
    ensures !Contains("loader" + "." + "X", ".class")
    ensures "com" + "/class" + "loader" + "/" + "X" + ".class" == "com/classloader/X.class"
  {
    var q := "loader" + "." + "X";
    forall i | 0 <= i <= |q| ensures !StartsWith(q[i..], ".class") {
      if i < 6 { assert q[i..][0] != '.'; }
    }
  }

  /**
   * The evident intent of the derivation: the entry name without its
   * `.class` extension, dotted. Only a trailing `.class` is removed.
   */
  function ClassNameOfEntry(key: string): (r: string)
    ensures |r| <= |key| && '/' !in r
    ensures EndsWith(key, ".class") ==> r + ".class" == Dotted(key)
  {
    if EndsWith(key, ".class") then
      var stem := key[..|key| - 6];
      assert stem + ".class" == key;
      DottedAppend(stem, ".class");
      DottedKeepsPlainName(".class");
      Dotted(stem)
    else
      Dotted(key)
  }

  /** The intended derivation gives the dotted stem of every entry `n.class`, whatever `n` holds. */
  lemma ClassNameOfEntryOfClassFile(n: string)
    ensures ClassNameOfEntry(n + ".class") == Dotted(n)
  {
    assert EndsWith(n + ".class", ".class");
    assert Dotted(n) + ".class" == Dotted(n + ".class") by { DottedAppend(n, ".class"); DottedKeepsPlainName(".class"); }
  }

  /**
   * Where no package or class name holds `.class`, the derivation as
   * written and the intended one agree.
   */
  lemma ClassNameOfKeyAsIntended(n: string)
    requires !Contains(Dotted(n), ".class")
    ensures ClassNameOfKey(n + ".class") == ClassNameOfEntry(n + ".class")
  {
    ClassNameOfClassFile(n);
    ClassNameOfEntryOfClassFile(n);
  }

  /** No key occurs twice in the order: each one is new when it is reached. */
  predicate NoRepeats(order: seq<string>) {
    order == [] || (order[|order| - 1] !in order[..|order| - 1] && NoRepeats(order[..|order| - 1]))
  }

  /** A list whose entries are pairwise different has no repeats. */
  lemma {:induction false} DistinctHasNoRepeats(order: seq<string>)
    requires forall i, j :: 0 <= i < j < |order| ==> order[i] != order[j]
    ensures NoRepeats(order)
    decreases |order|
  {
    if order != [] {
      var init := order[..|order| - 1];
      forall i, j | 0 <= i < j < |init| ensures init[i] != init[j] {
        assert init[i] == order[i] && init[j] == order[j];
      }
      DistinctHasNoRepeats(init);
      forall t | 0 <= t < |init| ensures init[t] != order[|order| - 1] {
        assert init[t] == order[t];
      }
    }
  }

  /** A key is in a list when it is in all but its last entry or is that entry. */
  lemma SplitLast(order: seq<string>)
    requires order != []
    ensures forall k :: k in order <==> k in order[..|order| - 1] || k == order[|order| - 1]
  {
    assert order == order[..|order| - 1] + [order[|order| - 1]];
  }

  /** Dropping the last of a duplicate-free list of keys leaves a duplicate-free list without it. */
  lemma DropLastKey<T>(order: seq<string>, image: map<string, T>)
    requires order != [] && forall k :: k in order ==> k in image
    requires forall i, j :: 0 <= i < j < |order| ==> order[i] != order[j]
    ensures var init := order[..|order| - 1];
      && (forall k :: k in init ==> k in image)
      && (forall i, j :: 0 <= i < j < |init| ==> init[i] != init[j])
      && order[|order| - 1] !in init
  {
    var init := order[..|order| - 1];
    forall k | k in init ensures k in image {
      var t :| 0 <= t < |init| && init[t] == k;
      assert order[t] == k;
    }
    forall t | 0 <= t < |init| ensures init[t] != order[|order| - 1] {
      assert init[t] == order[t];
    }
  }

  /**
   * A duplicate-free enumeration of a map's keys: the iteration order of the
   * Java HashMap, which the source does not fix, is made a parameter.
   */
  ghost predicate IsEnumeration(order: seq<string>, keys: set<string>) {
    (forall i, j :: 0 <= i < j < |order| ==> order[i] != order[j]) &&
    (forall k :: k in order <==> k in keys)
  }
}
