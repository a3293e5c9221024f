/**
 * The decorative transformer: every eligible class gets one
 * `public static final String` field per line of a picture, each under a
 * random three-letter name that is registered as protected, so that the
 * field renamer leaves it alone.
 */
module AsciiArtTransformer {
  import opened JavaText
  import opened ClassModel
  import Configuration
  import TransformerFilter
  import TransformerContext
  import FieldTransformer

  const TransformerName := "AsciiArt"

  /** The picture has this many lines, so an eligible class gains this many fields. */
  const ArtHeight := 19

  /** The length of the name of each added field. */
  const NameLength: nat := 3

  /** How many letters the alphabet of random names has: `A` to `Z`, then `a` to `z`. */
  const SaltLength: nat := 52

  /** The letter at `index` in the alphabet of random names. */
  function SaltChar(index: nat): (c: char)
    requires index < SaltLength
    ensures IsLetter(c)
  {
    if index < 26 then ('A' as int + index) as char else ('a' as int + index - 26) as char
  }

  /** Every letter is at some place in the alphabet: a random name can use any of them. */
  lemma EveryLetterIsASaltChar(c: char)
    requires IsLetter(c)
    ensures exists index :: 0 <= index < SaltLength && SaltChar(index) == c
  {
    if c <= 'Z' {
      assert SaltChar(c as int - 'A' as int) == c;
    } else {
      assert SaltChar(26 + c as int - 'a' as int) == c;
    }
  }

  const ArtDesc := "Ljava/lang/String;"
  const ArtAccess: bv32 := ACC_PUBLIC | ACC_STATIC | ACC_FINAL

  predicate IsLetter(c: char) {
    'A' <= c <= 'Z' || 'a' <= c <= 'z'
  }

  /**
   * `(int) (rnd.nextFloat() * 52)`, where `nextFloat` is `sample / 2^24`
   * for a 24-bit sample of the generator.
   */
  function SaltIndex(sample: nat): (r: nat)
    ensures r < SaltLength
  {
    (sample % 0x100_0000) * 52 / 0x100_0000
  }

  /** A name `getRandomString` can return: the given number of letters. */
  predicate IsRandomName(name: string, len: nat) {
    |name| == len && forall i :: 0 <= i < |name| ==> IsLetter(name[i])
  }

  /** The string `getRandomString(len)` builds from the samples numbered `draws` onwards. */
  function RandomString(sample: nat -> nat, draws: nat, len: nat): (r: string)
    ensures IsRandomName(r, len)
  {
    if len == 0 then []
    else RandomString(sample, draws, len - 1) + [SaltChar(SaltIndex(sample(draws + len - 1)))]
  }

  /** One more letter takes the next sample. */
  lemma RandomStringStep(sample: nat -> nat, draws: nat, len: nat)
    ensures RandomString(sample, draws, len + 1) == RandomString(sample, draws, len) + [SaltChar(SaltIndex(sample(draws + len)))]
  {
  }

  /** What an added field is: public static final, of type String, holding one line of the picture under a random name. */
  predicate IsArtField(f: FieldNode, line: string) {
    f.access == ArtAccess && f.desc == ArtDesc && f.value == Some(CString(line)) && IsRandomName(f.name, NameLength)
  }

  /** The fields added for the picture, in its line order, each name taking the next three samples. */
  function ArtFields(sample: nat -> nat, art: seq<string>, draws: nat): (r: seq<FieldNode>)
    ensures |r| == |art|
  {
    if art == [] then []
    else
      var n := |art|;
      ArtFields(sample, art[..n - 1], draws)
        + [FieldNode(ArtAccess, RandomString(sample, draws + NameLength * (n - 1), NameLength), ArtDesc, Some(CString(art[n - 1])))]
  }

  /** Each added field is public static final, of type String, and holds its line under a random name. */
  lemma {:induction false} ArtFieldsShape(sample: nat -> nat, art: seq<string>, draws: nat)
    ensures forall i :: 0 <= i < |art| ==> IsArtField(ArtFields(sample, art, draws)[i], art[i])
    decreases |art|
  {
    if art != [] {
      var n := |art|;
      ArtFieldsShape(sample, art[..n - 1], draws);
      var r := ArtFields(sample, art, draws);
      assert forall i :: 0 <= i < n - 1 ==> r[i] == ArtFields(sample, art[..n - 1], draws)[i];
    }
  }

  /** The fields for the first `i + 1` lines: those for the first `i`, then the one for line `i`. */
  lemma ArtFieldsStep(sample: nat -> nat, art: seq<string>, draws: nat, i: nat, start: nat, f: FieldNode)
    requires i < |art| && start == draws + NameLength * i
    requires f == FieldNode(ArtAccess, RandomString(sample, start, NameLength), ArtDesc, Some(CString(art[i])))
    ensures ArtFields(sample, art[..i + 1], draws) == ArtFields(sample, art[..i], draws) + [f]
  {
    var lines := art[..i + 1];
    assert lines[..|lines| - 1] == art[..i];
    assert lines[|lines| - 1] == art[i];
  }

  /** Registering one more field registers one more pair. */
  lemma NamesOfAppend(className: string, fields: seq<FieldNode>, f: FieldNode)
    ensures NamesOf(className, fields + [f]) == NamesOf(className, fields) + {(className, f.name)}
  {
    var all := fields + [f];
    assert all[|fields|] == f;
    assert forall j :: 0 <= j < |fields| ==> all[j] == fields[j];
  }

  /** The (class, field name) pairs a class's added fields register as protected. */
  function NamesOf(className: string, fields: seq<FieldNode>): set<(string, string)> {
    set i | 0 <= i < |fields| :: (className, fields[i].name)
  }

  /** The image after the loop, the samples used, and the (class, field name) pairs registered. */
  datatype Decoration = Decoration(image: Image, draws: nat, added: set<(string, string)>)

  /** `transform`'s loop over the entries, in iteration order. */
  function DecorationPass(sample: nat -> nat, art: seq<string>, policy: TransformerFilter.Policy,
                          image: Image, order: seq<string>, draws: nat): (r: Decoration)
    requires forall k :: k in order ==> k in image
    ensures r.image.Keys == image.Keys
    decreases |order|
  {
    if order == [] then Decoration(image, draws, {})
    else
      var before := DecorationPass(sample, art, policy, image, order[..|order| - 1], draws);
      var key := order[|order| - 1];
      var className := ClassNameOfKey(key);
      if TransformerFilter.Admits(policy, className) then
        var node := before.image[key];
        var fields := ArtFields(sample, art, before.draws);
        Decoration(before.image[key := node.(fields := node.fields + fields)],
                   before.draws + NameLength * |art|, before.added + NamesOf(className, fields))
      else before
  }

  /**
   * `after` is `before` with one field per picture line appended behind
   * its own fields, whose names are registered for `className` in `added`.
   */
  predicate Decorated(art: seq<string>, className: string, before: ClassNode, after: ClassNode,
                      added: set<(string, string)>) {
    after == before.(fields := after.fields)
    && |after.fields| == |before.fields| + |art|
    && after.fields[..|before.fields|] == before.fields
    && forall i :: 0 <= i < |art| ==>
         IsArtField(after.fields[|before.fields| + i], art[i])
         && (className, after.fields[|before.fields| + i].name) in added
  }

  /**
   * Every entry ends up decorated if its class is eligible and untouched
   * otherwise; the map keeps its keys.
   */
  lemma {:induction false} DecorationOfEntry(sample: nat -> nat, art: seq<string>, policy: TransformerFilter.Policy,
                                            image: Image, order: seq<string>, draws: nat, key: string)
    requires NoRepeats(order)
    requires forall k :: k in order ==> k in image
    requires key in image
    ensures var r := DecorationPass(sample, art, policy, image, order, draws);
      if key in order && TransformerFilter.Admits(policy, ClassNameOfKey(key))
      then Decorated(art, ClassNameOfKey(key), image[key], r.image[key], r.added)
      else r.image[key] == image[key]
    decreases |order|
  {
    if order != [] {
      var init := order[..|order| - 1];
      var last := order[|order| - 1];
      SplitLast(order);
      DecorationOfEntry(sample, art, policy, image, init, draws, key);
      var before := DecorationPass(sample, art, policy, image, init, draws);
      var r := DecorationPass(sample, art, policy, image, order, draws);
      var className := ClassNameOfKey(key);
      if key == last {
        if TransformerFilter.Admits(policy, className) {
          DecorateOnce(sample, art, className, image[key], before.draws, before.added);
        }
      } else if key in init && TransformerFilter.Admits(policy, className) {
        DecoratedMoreAdded(art, className, image[key], r.image[key], before.added, r.added);
      }
    }
  }

  /** Appending the picture's fields and registering their names decorates a class. */
  lemma DecorateOnce(sample: nat -> nat, art: seq<string>, className: string, node: ClassNode, draws: nat,
                     added: set<(string, string)>)
    ensures var fields := ArtFields(sample, art, draws);
      Decorated(art, className, node, node.(fields := node.fields + fields), added + NamesOf(className, fields))
  {
    var fields := ArtFields(sample, art, draws);
    var after := node.(fields := node.fields + fields);
    ArtFieldsShape(sample, art, draws);
    assert after.fields[..|node.fields|] == node.fields;
    forall i | 0 <= i < |art|
      ensures IsArtField(after.fields[|node.fields| + i], art[i])
      ensures (className, after.fields[|node.fields| + i].name) in NamesOf(className, fields)
    {
      assert after.fields[|node.fields| + i] == fields[i];
    }
  }

  /** Registering more pairs keeps a class decorated. */
  lemma DecoratedMoreAdded(art: seq<string>, className: string, before: ClassNode, after: ClassNode,
                           added: set<(string, string)>, more: set<(string, string)>)
    requires Decorated(art, className, before, after, added) && added <= more
    ensures Decorated(art, className, before, after, more)
  {
  }

  /**
   * For a full enumeration of the entries: the same keys, each eligible
   * class decorated, every other class unchanged.
   */
  lemma TransformResult(sample: nat -> nat, art: seq<string>, policy: TransformerFilter.Policy,
                        image: Image, order: seq<string>, draws: nat)
    requires IsEnumeration(order, image.Keys)
    ensures var r := DecorationPass(sample, art, policy, image, order, draws);
      r.image.Keys == image.Keys
      && forall key :: key in image ==>
           if TransformerFilter.Admits(policy, ClassNameOfKey(key))
           then Decorated(art, ClassNameOfKey(key), image[key], r.image[key], r.added)
           else r.image[key] == image[key]
  {
    DistinctHasNoRepeats(order);
    forall key | key in image
      ensures var r := DecorationPass(sample, art, policy, image, order, draws);
        if TransformerFilter.Admits(policy, ClassNameOfKey(key))
        then Decorated(art, ClassNameOfKey(key), image[key], r.image[key], r.added)
        else r.image[key] == image[key]
    {
      DecorationOfEntry(sample, art, policy, image, order, draws, key);
    }
  }

  /**
   * An added field is neither synthetic nor an enum constant, so the field
   * renamer keeps it exactly when its name is protected for its class.
   */
  lemma ArtFieldKeptOnlyIfProtected(f: FieldNode, line: string, protectedNames: set<string>)
    requires IsArtField(f, line)
    ensures f.access & ACC_SYNTHETIC == 0 && f.access & ACC_ENUM == 0
    ensures FieldTransformer.Kept(protectedNames, f) <==> f.name in protectedNames
  {
  }

  /** Hence, once registered, the added fields of a decorated class survive the renamer's first pass. */
  lemma DecoratedFieldsKept(art: seq<string>, className: string, before: ClassNode, after: ClassNode,
                            added: set<(string, string)>, protectedFields: map<string, set<string>>, i: nat)
    requires Decorated(art, className, before, after, added)
    requires forall c, n :: (c, n) in added ==> c in protectedFields && n in protectedFields[c]
    requires |before.fields| <= i < |after.fields|
    ensures FieldTransformer.Kept(FieldTransformer.ProtectedNames(protectedFields, className), after.fields[i])
  {
    var f := after.fields[i];
    assert IsArtField(f, art[i - |before.fields|]) && (className, f.name) in added;
  }

  class AsciiArtTransformer {
    /** The 24-bit samples behind successive `nextFloat` calls. */
    const sample: nat -> nat
    /** The lines of the picture. */
    const art: seq<string>
    /** How many samples have been used so far. */
    var draws: nat

    constructor (sample: nat -> nat, art: seq<string>)
      requires |art| == ArtHeight
      ensures this.sample == sample && this.art == art && draws == 0
    {
      this.sample := sample;
      this.art := art;
      draws := 0;
    }

    /** `getRandomString`: letters are appended one sample at a time until there are `len` of them. */
    method GetRandomString(len: nat) returns (salt: string)
      modifies this
      ensures salt == RandomString(sample, old(draws), len)
      ensures draws == old(draws) + len
    {
      salt := [];
      while |salt| < len
        invariant |salt| <= len
        invariant draws == old(draws) + |salt|
        invariant salt == RandomString(sample, old(draws), |salt|)
        decreases len - |salt|
      {
        var index := SaltIndex(sample(draws));
        RandomStringStep(sample, old(draws), |salt|);
        ghost var n := |salt|;
        draws := draws + 1;
        salt := salt + [SaltChar(index)];
        assert |salt| == n + 1;
      }
    }

    /** The body of the inner loop of `transform`: a field for one line, its name registered for the class. */
    method NewArtField(line: string, className: string, context: TransformerContext.TransformerContext)
      returns (fieldNode: FieldNode)
      modifies this, context
      ensures fieldNode == FieldNode(ArtAccess, RandomString(sample, old(draws), NameLength), ArtDesc, Some(CString(line)))
      ensures draws == old(draws) + NameLength
      ensures forall c, f :: context.IsFieldProtected(c, f) <==>
        old(context.IsFieldProtected(c, f)) || (c, f) == (className, fieldNode.name)
      ensures context.protectedMethods == old(context.protectedMethods)
    {
      var name := GetRandomString(NameLength);
      fieldNode := FieldNode(ArtAccess, name, ArtDesc, Some(CString(line)));
      context.AddProtectedField(className, fieldNode.name);
    }

    /** The inner loop of `transform`: one field per line, each name registered as it is made. */
    method AddArt(classNode: ClassNode, className: string, context: TransformerContext.TransformerContext)
      returns (decorated: ClassNode)
      modifies this, context
      ensures decorated == classNode.(fields := classNode.fields + ArtFields(sample, art, old(draws)))
      ensures draws == old(draws) + NameLength * |art|
      ensures forall c, f :: context.IsFieldProtected(c, f) <==>
        old(context.IsFieldProtected(c, f)) || (c, f) in NamesOf(className, ArtFields(sample, art, old(draws)))
      ensures context.protectedMethods == old(context.protectedMethods)
    {
      var fields := classNode.fields;
      ghost var made := [];
      ghost var added := {};
      for i := 0 to |art|
        invariant made == ArtFields(sample, art[..i], old(draws))
        invariant fields == classNode.fields + made
        invariant draws == old(draws) + NameLength * i
        invariant added == NamesOf(className, made)
        invariant forall c, f :: context.IsFieldProtected(c, f) <==> old(context.IsFieldProtected(c, f)) || (c, f) in added
        invariant context.protectedMethods == old(context.protectedMethods)
      {
        ghost var before := made;
        ghost var start: nat := old(draws) + NameLength * i;
        assert draws == start;
        var fieldNode := NewArtField(art[i], className, context);
        assert fieldNode == FieldNode(ArtAccess, RandomString(sample, start, NameLength), ArtDesc, Some(CString(art[i])));
        ArtFieldsStep(sample, art, old(draws), i, start, fieldNode);
        NamesOfAppend(className, before, fieldNode);
        fields := fields + [fieldNode];
        made := made + [fieldNode];
        added := added + {(className, fieldNode.name)};
      }
      assert art[..|art|] == art;
      decorated := classNode.(fields := fields);
    }

    /** `transform`: every entry, in iteration order, decorated when its class passes the filter. */
    method Transform(classNodes: Image, order: seq<string>, config: Configuration.Configuration,
                     context: TransformerContext.TransformerContext)
      returns (transformedNodes: Image)
      requires forall k :: k in order ==> k in classNodes
      modifies this, context
      ensures var r := DecorationPass(sample, art, TransformerFilter.PolicyFor(config, TransformerName),
                                      classNodes, order, old(draws));
        transformedNodes == r.image && draws == r.draws
        && (forall c, f :: context.IsFieldProtected(c, f) <==> old(context.IsFieldProtected(c, f)) || (c, f) in r.added)
      ensures context.protectedMethods == old(context.protectedMethods)
    {
      ghost var policy := TransformerFilter.PolicyFor(config, TransformerName);
      transformedNodes := classNodes;
      for i := 0 to |order|
        invariant var r := DecorationPass(sample, art, policy, classNodes, order[..i], old(draws));
          transformedNodes == r.image && draws == r.draws
          && (forall c, f :: context.IsFieldProtected(c, f) <==> old(context.IsFieldProtected(c, f)) || (c, f) in r.added)
        invariant context.protectedMethods == old(context.protectedMethods)
      {
        assert order[..i + 1][..i] == order[..i];
        var key := order[i];
        var className := ClassNameOfKey(key);
        if TransformerFilter.ShouldTransform(className, TransformerName, config) {
          var decorated := AddArt(transformedNodes[key], className, context);
          transformedNodes := transformedNodes[key := decorated];
        }
      }
      assert order[..|order|] == order;
    }
  }
}
