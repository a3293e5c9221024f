/**
 * The field renamer. A first pass visits the classes the filter admits and
 * gives every field that is neither protected, synthetic nor an enum
 * constant a generated name, recording it in a per-class mapping keyed by
 * `name + desc`. A second pass, over every class, renames each field
 * instruction whose owner (exactly, without a walk up the hierarchy) has an
 * entry for the instruction's `name + desc`.
 */
module FieldTransformer {
  import opened JavaText
  import opened ClassModel
  import opened Naming
  import Hierarchy
  import Configuration
  import TransformerFilter
  import TransformerContext

  const TransformerName := "FieldTransformer"

  /** The name `generateSecureFieldName` returns on the given draw. */
  function NewFieldName(entropy: Entropy, originalName: string, draw: nat): (r: string)
    ensures IsSecureFieldName(r)
  {
    SecureFieldName(entropy.digest(originalName, draw), entropy.letter(draw))
  }

  /** The key of a field in its class's mapping: its name followed by its descriptor. */
  function FieldKey(f: FieldNode): string {
    f.name + f.desc
  }

  /** The protected field names of a class; none for a class without an entry. */
  function ProtectedNames(protectedFields: map<string, set<string>>, className: string): set<string> {
    if className in protectedFields then protectedFields[className] else {}
  }

  /** A field the first pass leaves alone: protected for its class, synthetic, or an enum constant. */
  predicate Kept(protectedNames: set<string>, f: FieldNode) {
    f.name in protectedNames || f.access & ACC_SYNTHETIC != 0 || f.access & ACC_ENUM != 0
  }

  /** `g` is `f` with at most its name changed. */
  predicate SameButFieldName(f: FieldNode, g: FieldNode) {
    g == f.(name := g.name)
  }

  // ---------------------------------------------------------------------
  // First pass, one class

  /** The state threaded through the field loop of one class. */
  datatype FieldRenaming = FieldRenaming(classMappings: map<string, string>, draws: nat, fields: seq<FieldNode>)

  /**
   * The field loop of one class, in order: a field that is not kept gets
   * the next generated name, which is put under its key.
   */
  function RenameFields(entropy: Entropy, protectedNames: set<string>, classMappings: map<string, string>,
                        draws: nat, fields: seq<FieldNode>): (r: FieldRenaming)
    ensures |r.fields| == |fields|
    ensures forall i :: 0 <= i < |fields| ==> SameButFieldName(fields[i], r.fields[i])
    ensures forall i :: 0 <= i < |fields| && Kept(protectedNames, fields[i]) ==> r.fields[i] == fields[i]
    ensures forall i :: 0 <= i < |fields| && !Kept(protectedNames, fields[i]) ==> IsSecureFieldName(r.fields[i].name)
    ensures r.draws >= draws
    decreases |fields|
  {
    if fields == [] then FieldRenaming(classMappings, draws, [])
    else
      var init := fields[..|fields| - 1];
      var before := RenameFields(entropy, protectedNames, classMappings, draws, init);
      var f := fields[|fields| - 1];
      assert forall i :: 0 <= i < |init| ==> fields[i] == init[i];
      if Kept(protectedNames, f) then
        FieldRenaming(before.classMappings, before.draws, before.fields + [f])
      else
        var newName := NewFieldName(entropy, f.name, before.draws);
        FieldRenaming(before.classMappings[FieldKey(f) := newName], before.draws + 1, before.fields + [f.(name := newName)])
  }

  /** Whether some field of `fields` that is not kept has key `key`. */
  predicate DeclaresRenamable(protectedNames: set<string>, fields: seq<FieldNode>, key: string) {
    exists i :: 0 <= i < |fields| && !Kept(protectedNames, fields[i]) && FieldKey(fields[i]) == key
  }

  /** The entries after the loop: the old ones and the key of every field not kept, each new one a generated name. */
  lemma {:induction false} RenameFieldsKeys(entropy: Entropy, protectedNames: set<string>, classMappings: map<string, string>,
                                            draws: nat, fields: seq<FieldNode>)
    ensures var r := RenameFields(entropy, protectedNames, classMappings, draws, fields);
      && (forall k :: k in r.classMappings <==> k in classMappings || DeclaresRenamable(protectedNames, fields, k))
      && (forall k :: k in r.classMappings && k !in classMappings ==> IsSecureFieldName(r.classMappings[k]))
    decreases |fields|
  {
    if fields != [] {
      var init := fields[..|fields| - 1];
      var f := fields[|fields| - 1];
      RenameFieldsKeys(entropy, protectedNames, classMappings, draws, init);
      DeclaresRenamableLast(protectedNames, fields);
    }
  }

  /** A list declares a key renamable when all but its last field do, or its last field does. */
  lemma DeclaresRenamableLast(protectedNames: set<string>, fields: seq<FieldNode>)
    requires fields != []
    ensures var init, f := fields[..|fields| - 1], fields[|fields| - 1];
      forall k :: DeclaresRenamable(protectedNames, fields, k) <==>
        DeclaresRenamable(protectedNames, init, k) || (!Kept(protectedNames, f) && k == FieldKey(f))
  {
    var init, f := fields[..|fields| - 1], fields[|fields| - 1];
    forall k ensures DeclaresRenamable(protectedNames, fields, k) <==>
      DeclaresRenamable(protectedNames, init, k) || (!Kept(protectedNames, f) && k == FieldKey(f))
    {
      if DeclaresRenamable(protectedNames, init, k) {
        var i :| 0 <= i < |init| && !Kept(protectedNames, init[i]) && FieldKey(init[i]) == k;
        assert fields[i] == init[i];
      }
      if DeclaresRenamable(protectedNames, fields, k) {
        var i :| 0 <= i < |fields| && !Kept(protectedNames, fields[i]) && FieldKey(fields[i]) == k;
        if i < |init| {
          assert fields[i] == init[i];
        }
      }
    }
  }

  /** An empty mapping stays empty exactly when every field is kept. */
  lemma EmptyMappingIffAllKept(entropy: Entropy, protectedNames: set<string>, draws: nat, fields: seq<FieldNode>)
    ensures RenameFields(entropy, protectedNames, map[], draws, fields).classMappings == map[] <==>
            forall i :: 0 <= i < |fields| ==> Kept(protectedNames, fields[i])
  {
    var r := RenameFields(entropy, protectedNames, map[], draws, fields);
    RenameFieldsKeys(entropy, protectedNames, map[], draws, fields);
    if r.classMappings == map[] {
      forall i | 0 <= i < |fields| ensures Kept(protectedNames, fields[i]) {
        assert !Kept(protectedNames, fields[i]) ==> DeclaresRenamable(protectedNames, fields, FieldKey(fields[i]));
      }
    } else {
      var k :| k in r.classMappings;
      assert DeclaresRenamable(protectedNames, fields, k);
    }
  }

  /** No two fields of the list share a key (a class file never declares a field twice). */
  predicate DistinctFieldKeys(fields: seq<FieldNode>) {
    forall i, j :: 0 <= i < j < |fields| ==> FieldKey(fields[i]) != FieldKey(fields[j])
  }

  /** With distinct keys, the entry of a renamed field is its new name: nothing overwrites it. */
  lemma {:induction false} RenamedFieldsRecorded(entropy: Entropy, protectedNames: set<string>,
                                                 classMappings: map<string, string>, draws: nat, fields: seq<FieldNode>)
    requires DistinctFieldKeys(fields)
    ensures var r := RenameFields(entropy, protectedNames, classMappings, draws, fields);
      forall i :: 0 <= i < |fields| && !Kept(protectedNames, fields[i]) ==>
        FieldKey(fields[i]) in r.classMappings && r.classMappings[FieldKey(fields[i])] == r.fields[i].name
    decreases |fields|
  {
    if fields != [] {
      var n := |fields| - 1;
      var init := fields[..n];
      var f := fields[n];
      assert DistinctFieldKeys(init) by {
        forall i, j | 0 <= i < j < |init| ensures FieldKey(init[i]) != FieldKey(init[j]) {
          assert init[i] == fields[i] && init[j] == fields[j];
        }
      }
      RenamedFieldsRecorded(entropy, protectedNames, classMappings, draws, init);
      var before := RenameFields(entropy, protectedNames, classMappings, draws, init);
      var r := RenameFields(entropy, protectedNames, classMappings, draws, fields);
      var added := if Kept(protectedNames, f) then map[] else map[FieldKey(f) := r.fields[n].name];
      assert r.classMappings == before.classMappings + added;
      forall i | 0 <= i < |fields| && !Kept(protectedNames, fields[i])
        ensures FieldKey(fields[i]) in r.classMappings && r.classMappings[FieldKey(fields[i])] == r.fields[i].name
      {
        if i < n {
          assert fields[i] == init[i] && r.fields[i] == before.fields[i];
          assert FieldKey(fields[i]) != FieldKey(f);
        }
      }
    }
  }

  // ---------------------------------------------------------------------
  // First pass, all classes

  /** `b` is `a` with at most its field names changed. */
  predicate SameButFieldNames(a: ClassNode, b: ClassNode) {
    && b == a.(fields := b.fields)
    && |b.fields| == |a.fields|
    && (forall i :: 0 <= i < |a.fields| ==> SameButFieldName(a.fields[i], b.fields[i]))
  }

  /** The state threaded through the passes over the image. */
  datatype FieldPass = FieldPass(image: Image, fieldMappings: map<string, map<string, string>>, draws: nat)

  /**
   * The first loop of `transform` over the classes of `order`: an admitted
   * class has its fields renamed, and its mapping is put only when it is not empty.
   */
  function DeclarationPass(entropy: Entropy, policy: TransformerFilter.Policy, protectedFields: map<string, set<string>>,
                           image: Image, order: seq<string>, fieldMappings: map<string, map<string, string>>,
                           draws: nat): (r: FieldPass)
    requires forall k :: k in order ==> k in image
    ensures r.image.Keys == image.Keys
    ensures forall k :: k in image ==> SameButFieldNames(image[k], r.image[k])
    ensures forall k :: k in image && (k !in order || !TransformerFilter.Admits(policy, ClassNameOfKey(k))) ==>
      r.image[k] == image[k]
    ensures r.draws >= draws
    decreases |order|
  {
    if order == [] then FieldPass(image, fieldMappings, draws)
    else
      var before := DeclarationPass(entropy, policy, protectedFields, image, order[..|order| - 1], fieldMappings, draws);
      var key := order[|order| - 1];
      var className := ClassNameOfKey(key);
      if !TransformerFilter.Admits(policy, className) then before
      else
        var node := before.image[key];
        var r := RenameFields(entropy, ProtectedNames(protectedFields, className), map[], before.draws, node.fields);
        RenamedEntryKeepsShape(policy, image, order, before.image, r.fields);
        FieldPass(before.image[key := node.(fields := r.fields)],
                  if r.classMappings != map[] then before.fieldMappings[className := r.classMappings] else before.fieldMappings,
                  r.draws)
  }

  /** Renaming the fields of the last class of `order` keeps what the first pass promises of every entry. */
  lemma RenamedEntryKeepsShape(policy: TransformerFilter.Policy, image: Image, order: seq<string>,
                               before: Image, fields: seq<FieldNode>)
    requires order != [] && forall k :: k in order ==> k in image
    requires before.Keys == image.Keys
    requires forall k :: k in image ==> SameButFieldNames(image[k], before[k])
    requires forall k :: k in image && (k !in order[..|order| - 1] || !TransformerFilter.Admits(policy, ClassNameOfKey(k))) ==>
      before[k] == image[k]
    requires TransformerFilter.Admits(policy, ClassNameOfKey(order[|order| - 1]))
    requires |fields| == |before[order[|order| - 1]].fields|
    requires forall i :: 0 <= i < |fields| ==> SameButFieldName(before[order[|order| - 1]].fields[i], fields[i])
    ensures var key := order[|order| - 1];
      var after := before[key := before[key].(fields := fields)];
      && after.Keys == image.Keys
      && (forall k :: k in image ==> SameButFieldNames(image[k], after[k]))
      && (forall k :: k in image && (k !in order || !TransformerFilter.Admits(policy, ClassNameOfKey(k))) ==>
            after[k] == image[k])
  {
    var key := order[|order| - 1];
    assert forall k :: k in order <==> k in order[..|order| - 1] || k == key by {
      assert order == order[..|order| - 1] + [key];
    }
  }

  /** No two entries of the image stand for the same class name. */
  predicate UniqueClassNames(image: Image) {
    forall k1, k2 :: k1 in image && k2 in image && k1 != k2 ==> ClassNameOfKey(k1) != ClassNameOfKey(k2)
  }

  /** Every class declares each field key at most once. */
  predicate WellFormedFields(image: Image) {
    forall k :: k in image ==> DistinctFieldKeys(image[k].fields)
  }

  /**
   * After the first pass from an empty mapping, over distinct class names:
   * every field of an admitted class that is not kept has a generated name,
   * and its class's mapping holds that name under the field's original key;
   * a field that is kept keeps its name.
   */
  lemma DeclaredFields(entropy: Entropy, policy: TransformerFilter.Policy,
                       protectedFields: map<string, set<string>>, image: Image,
                       order: seq<string>, draws: nat)
    requires forall k :: k in order ==> k in image
    requires forall i, j :: 0 <= i < j < |order| ==> order[i] != order[j]
    requires UniqueClassNames(image) && WellFormedFields(image)
    ensures var r := DeclarationPass(entropy, policy, protectedFields, image, order, map[], draws);
      forall j :: 0 <= j < |order| ==> ClassRecorded(policy, protectedFields, image, r, order[j])
  {
    forall j | 0 <= j < |order|
      ensures ClassRecorded(policy, protectedFields, image,
                            DeclarationPass(entropy, policy, protectedFields, image, order, map[], draws), order[j])
    {
      forall i | 0 <= i < |order| && i != j ensures ClassNameOfKey(order[i]) != ClassNameOfKey(order[j]) {
        assert order[i] != order[j];
      }
      DeclaredFieldsAt(entropy, policy, protectedFields, image, order, draws, j);
    }
  }

  /**
   * The same for the class at one place of the order, whose class name no
   * other class of the order has, by induction on the length of the order.
   */
  lemma {:induction false} DeclaredFieldsAt(entropy: Entropy, policy: TransformerFilter.Policy,
                                            protectedFields: map<string, set<string>>, image: Image,
                                            order: seq<string>, draws: nat, j: nat)
    requires forall k :: k in order ==> k in image
    requires j < |order| && forall i :: 0 <= i < |order| && i != j ==> ClassNameOfKey(order[i]) != ClassNameOfKey(order[j])
    requires WellFormedFields(image)
    ensures ClassRecorded(policy, protectedFields, image,
                          DeclarationPass(entropy, policy, protectedFields, image, order, map[], draws), order[j])
    decreases |order|
  {
    if j == |order| - 1 {
      DeclaredFieldsOfLast(entropy, policy, protectedFields, image, order, draws);
    } else {
      var init := order[..|order| - 1];
      var k := order[j];
      assert ClassRecorded(policy, protectedFields, image,
                           DeclarationPass(entropy, policy, protectedFields, image, init, map[], draws), k) by {
        assert forall t :: 0 <= t < |init| ==> init[t] == order[t];
        DeclaredFieldsAt(entropy, policy, protectedFields, image, init, draws, j);
      }
      assert ClassNameOfKey(k) != ClassNameOfKey(order[|order| - 1]);
      DeclaredFieldsOfEarlier(entropy, policy, protectedFields, image, order, draws, k);
    }
  }

  /** Every field of class entry `key` of `image` is recorded in `r` as `FieldRecorded` says. */
  predicate ClassRecorded(policy: TransformerFilter.Policy, protectedFields: map<string, set<string>>,
                          image: Image, r: FieldPass, key: string) {
    && key in image && key in r.image && |r.image[key].fields| == |image[key].fields|
    && forall i :: 0 <= i < |image[key].fields| ==>
         FieldRecorded(policy, protectedFields, r, key, image[key].fields[i], r.image[key].fields[i])
  }

  /** The fields of the class the pass visits last are recorded as that class's renaming says. */
  lemma DeclaredFieldsOfLast(entropy: Entropy, policy: TransformerFilter.Policy,
                             protectedFields: map<string, set<string>>, image: Image, order: seq<string>, draws: nat)
    requires order != [] && forall k :: k in order ==> k in image
    requires forall i :: 0 <= i < |order| - 1 ==> order[i] != order[|order| - 1]
    requires WellFormedFields(image)
    ensures var r := DeclarationPass(entropy, policy, protectedFields, image, order, map[], draws);
      ClassRecorded(policy, protectedFields, image, r, order[|order| - 1])
  {
    var init := order[..|order| - 1];
    var key := order[|order| - 1];
    var before := DeclarationPass(entropy, policy, protectedFields, image, init, map[], draws);
    var r := DeclarationPass(entropy, policy, protectedFields, image, order, map[], draws);
    assert forall t :: 0 <= t < |init| ==> init[t] == order[t];
    assert before.image[key] == image[key];
    var className := ClassNameOfKey(key);
    if TransformerFilter.Admits(policy, className) {
      var renaming := RenameFields(entropy, ProtectedNames(protectedFields, className), map[], before.draws, image[key].fields);
      assert r.image[key].fields == renaming.fields;
      assert renaming.classMappings != map[] ==> className in r.fieldMappings && r.fieldMappings[className] == renaming.classMappings;
      RenamingRecorded(entropy, policy, protectedFields, image, key, before.draws, r);
    }
  }

  /** A class whose fields are renamed by the field loop, its mapping put if not empty, is recorded. */
  lemma RenamingRecorded(entropy: Entropy, policy: TransformerFilter.Policy, protectedFields: map<string, set<string>>,
                         image: Image, key: string, draws: nat, r: FieldPass)
    requires key in image && DistinctFieldKeys(image[key].fields) && key in r.image
    requires var className := ClassNameOfKey(key);
      var renaming := RenameFields(entropy, ProtectedNames(protectedFields, className), map[], draws, image[key].fields);
      && TransformerFilter.Admits(policy, className)
      && r.image[key].fields == renaming.fields
      && (renaming.classMappings != map[] ==> className in r.fieldMappings && r.fieldMappings[className] == renaming.classMappings)
    ensures ClassRecorded(policy, protectedFields, image, r, key)
  {
    var className := ClassNameOfKey(key);
    var protectedNames := ProtectedNames(protectedFields, className);
    var fields := image[key].fields;
    var renaming := RenameFields(entropy, protectedNames, map[], draws, fields);
    RenamedFieldsRecorded(entropy, protectedNames, map[], draws, fields);
    EmptyMappingIffAllKept(entropy, protectedNames, draws, fields);
    forall i | 0 <= i < |fields|
      ensures FieldRecorded(policy, protectedFields, r, key, fields[i], r.image[key].fields[i])
    {
      if !Kept(protectedNames, fields[i]) {
        assert FieldKey(fields[i]) in renaming.classMappings;
      }
    }
  }

  /** Visiting one more class leaves the entry and the mapping of every other class as they were. */
  lemma DeclaredFieldsOfEarlier(entropy: Entropy, policy: TransformerFilter.Policy,
                                protectedFields: map<string, set<string>>, image: Image, order: seq<string>,
                                draws: nat, k: string)
    requires order != [] && forall k :: k in order ==> k in image
    requires k in image && k != order[|order| - 1] && ClassNameOfKey(k) != ClassNameOfKey(order[|order| - 1])
    requires ClassRecorded(policy, protectedFields, image,
                           DeclarationPass(entropy, policy, protectedFields, image, order[..|order| - 1], map[], draws), k)
    ensures ClassRecorded(policy, protectedFields, image,
                          DeclarationPass(entropy, policy, protectedFields, image, order, map[], draws), k)
  {
    var before := DeclarationPass(entropy, policy, protectedFields, image, order[..|order| - 1], map[], draws);
    var r := DeclarationPass(entropy, policy, protectedFields, image, order, map[], draws);
    RecordOfOtherClass(entropy, policy, protectedFields, image, order, draws, ClassNameOfKey(k));
    EntryOfOtherKey(entropy, policy, protectedFields, image, order, draws, k);
    ClassRecordedStill(policy, protectedFields, image, before, r, k);
  }

  /** Visiting a class leaves the entry of every other key as it was. */
  lemma EntryOfOtherKey(entropy: Entropy, policy: TransformerFilter.Policy,
                        protectedFields: map<string, set<string>>, image: Image, order: seq<string>,
                        draws: nat, k: string)
    requires order != [] && forall k :: k in order ==> k in image
    requires k in image && k != order[|order| - 1]
    ensures DeclarationPass(entropy, policy, protectedFields, image, order, map[], draws).image[k]
         == DeclarationPass(entropy, policy, protectedFields, image, order[..|order| - 1], map[], draws).image[k]
  {
  }

  lemma KeysDeclaredStill(policy: TransformerFilter.Policy, protectedFields: map<string, set<string>>, image: Image,
                          before: FieldPass, r: FieldPass, key: string)
    requires SameRecord(ClassNameOfKey(key), before, r)
    requires KeysDeclared(policy, protectedFields, image, before, key)
    ensures KeysDeclared(policy, protectedFields, image, r, key)
  {
  }

  /** Visiting a class leaves the mapping of every other class name as it was. */
  lemma RecordOfOtherClass(entropy: Entropy, policy: TransformerFilter.Policy,
                           protectedFields: map<string, set<string>>, image: Image, order: seq<string>,
                           draws: nat, c: string)
    requires order != [] && forall k :: k in order ==> k in image
    requires c != ClassNameOfKey(order[|order| - 1])
    ensures SameRecord(c, DeclarationPass(entropy, policy, protectedFields, image, order[..|order| - 1], map[], draws),
                       DeclarationPass(entropy, policy, protectedFields, image, order, map[], draws))
  {
    var before := DeclarationPass(entropy, policy, protectedFields, image, order[..|order| - 1], map[], draws);
    var r := DeclarationPass(entropy, policy, protectedFields, image, order, map[], draws);
    var key := order[|order| - 1];
    var className := ClassNameOfKey(key);
    if TransformerFilter.Admits(policy, className) {
      var renaming := RenameFields(entropy, ProtectedNames(protectedFields, className), map[], before.draws,
                                   before.image[key].fields);
      assert r.fieldMappings == if renaming.classMappings != map[] then before.fieldMappings[className := renaming.classMappings]
                                else before.fieldMappings;
    }
  }

  /** Class `className` has the same mapping, or none, in both states. */
  predicate SameRecord(className: string, before: FieldPass, r: FieldPass) {
    (className in r.fieldMappings <==> className in before.fieldMappings)
    && (className in before.fieldMappings ==> r.fieldMappings[className] == before.fieldMappings[className])
  }

  lemma ClassRecordedStill(policy: TransformerFilter.Policy, protectedFields: map<string, set<string>>, image: Image,
                           before: FieldPass, r: FieldPass, key: string)
    requires SameRecord(ClassNameOfKey(key), before, r) && key in r.image && key in before.image
    requires r.image[key] == before.image[key]
    requires ClassRecorded(policy, protectedFields, image, before, key)
    ensures ClassRecorded(policy, protectedFields, image, r, key)
  {
  }

  /**
   * The fate of field `f` of class entry `key`, now `g`: kept, or renamed
   * to a generated name recorded under `f`'s key in the mapping of its class.
   */
  predicate FieldRecorded(policy: TransformerFilter.Policy, protectedFields: map<string, set<string>>, r: FieldPass,
                          key: string, f: FieldNode, g: FieldNode) {
    var className := ClassNameOfKey(key);
    if !TransformerFilter.Admits(policy, className) || Kept(ProtectedNames(protectedFields, className), f) then g == f
    else
      && IsSecureFieldName(g.name) && g == f.(name := g.name)
      && className in r.fieldMappings && FieldKey(f) in r.fieldMappings[className]
      && r.fieldMappings[className][FieldKey(f)] == g.name
  }

  // ---------------------------------------------------------------------
  // Second pass

  /**
   * The body of the reference loop: a field instruction takes the entry of
   * its exact owner for its `name + desc`, if there is one; owner and
   * descriptor stay, and other instructions are untouched.
   */
  function UpdatedFieldInsn(fieldMappings: map<string, map<string, string>>, insn: Insn): (r: Insn)
    ensures !insn.FieldInsn? ==> r == insn
    ensures insn.FieldInsn? ==> r.FieldInsn? && r == FieldInsn(insn.owner, r.name, insn.desc)
    ensures insn.FieldInsn? && r.name != insn.name ==>
      Dotted(insn.owner) in fieldMappings && insn.name + insn.desc in fieldMappings[Dotted(insn.owner)]
  {
    match insn
    case FieldInsn(owner, name, desc) =>
      var ownerClassName := Dotted(owner);
      if ownerClassName in fieldMappings && name + desc in fieldMappings[ownerClassName] then
        FieldInsn(owner, fieldMappings[ownerClassName][name + desc], desc)
      else insn
    case _ => insn
  }

  function UpdatedFieldsMethod(fieldMappings: map<string, map<string, string>>, m: MethodNode): MethodNode {
    m.(instructions := seq(|m.instructions|, i requires 0 <= i < |m.instructions| =>
                                               UpdatedFieldInsn(fieldMappings, m.instructions[i])))
  }

  function UpdatedFieldsClass(fieldMappings: map<string, map<string, string>>, node: ClassNode): ClassNode {
    node.(methods := seq(|node.methods|, i requires 0 <= i < |node.methods| =>
                                           UpdatedFieldsMethod(fieldMappings, node.methods[i])))
  }

  /** The second loop of `transform`: every instruction of every method of every class, admitted or not. */
  function ReferencePass(fieldMappings: map<string, map<string, string>>, image: Image): (r: Image)
    ensures r.Keys == image.Keys
    ensures forall k :: k in image ==> r[k].fields == image[k].fields && |r[k].methods| == |image[k].methods|
  {
    map k | k in image :: UpdatedFieldsClass(fieldMappings, image[k])
  }

  /**
   * `transform`: the mapping starts empty, then the two passes. Every class
   * keeps its entry and its fields and methods by count, each field changes
   * at most its name, and a class not visited or not admitted keeps its
   * fields as they were.
   */
  function TransformResult(entropy: Entropy, policy: TransformerFilter.Policy, protectedFields: map<string, set<string>>,
                           image: Image, order: seq<string>, draws: nat): (r: FieldPass)
    requires forall k :: k in order ==> k in image
    ensures r.image.Keys == image.Keys && r.draws >= draws
    ensures forall k :: k in image ==>
      && |r.image[k].fields| == |image[k].fields| && |r.image[k].methods| == |image[k].methods|
      && (forall i :: 0 <= i < |image[k].fields| ==> SameButFieldName(image[k].fields[i], r.image[k].fields[i]))
    ensures forall k :: k in image && (k !in order || !TransformerFilter.Admits(policy, ClassNameOfKey(k))) ==>
      r.image[k].fields == image[k].fields
  {
    var declared := DeclarationPass(entropy, policy, protectedFields, image, order, map[], draws);
    FieldPass(ReferencePass(declared.fieldMappings, declared.image), declared.fieldMappings, declared.draws)
  }

  /**
   * References follow declarations: an instruction naming a field by its
   * declaring class and its original name and descriptor ends up with the
   * name the declaration ends up with, renamed or kept.
   */
  lemma ReferencesFollowDeclarations(entropy: Entropy, policy: TransformerFilter.Policy,
                                     protectedFields: map<string, set<string>>, image: Image,
                                     order: seq<string>, draws: nat, key: string, i: nat, owner: string)
    requires IsEnumeration(order, image.Keys)
    requires UniqueClassNames(image) && WellFormedFields(image)
    requires key in image && i < |image[key].fields| && Dotted(owner) == ClassNameOfKey(key)
    ensures var r := TransformResult(entropy, policy, protectedFields, image, order, draws);
      var f := image[key].fields[i];
      UpdatedFieldInsn(r.fieldMappings, FieldInsn(owner, f.name, f.desc)).name == r.image[key].fields[i].name
  {
    var declared := DeclarationPass(entropy, policy, protectedFields, image, order, map[], draws);
    var j :| 0 <= j < |order| && order[j] == key;
    forall t | 0 <= t < |order| && t != j ensures ClassNameOfKey(order[t]) != ClassNameOfKey(order[j]) {
      assert order[t] != order[j];
    }
    DeclaredFieldsAt(entropy, policy, protectedFields, image, order, draws, j);
    DeclaredKeysAt(entropy, policy, protectedFields, image, order, draws, j);
    ReferenceFollowsRecord(policy, protectedFields, image, declared, key, i, owner);
  }

  /** A class whose fields and keys are recorded: a reference to field `i` through its class takes that field's name. */
  lemma ReferenceFollowsRecord(policy: TransformerFilter.Policy, protectedFields: map<string, set<string>>,
                               image: Image, declared: FieldPass, key: string, i: nat, owner: string)
    requires ClassRecorded(policy, protectedFields, image, declared, key)
    requires KeysDeclared(policy, protectedFields, image, declared, key)
    requires DistinctFieldKeys(image[key].fields) && i < |image[key].fields| && Dotted(owner) == ClassNameOfKey(key)
    ensures var f := image[key].fields[i];
      UpdatedFieldInsn(declared.fieldMappings, FieldInsn(owner, f.name, f.desc)).name == declared.image[key].fields[i].name
  {
    var f := image[key].fields[i];
    assert FieldRecorded(policy, protectedFields, declared, key, f, declared.image[key].fields[i]);
    var names := ProtectedNames(protectedFields, ClassNameOfKey(key));
    RenamableKeyIsNotKept(names, image[key].fields, i);
  }

  /** With distinct keys, a field's key is renamable exactly when the field itself is not kept. */
  lemma RenamableKeyIsNotKept(protectedNames: set<string>, fields: seq<FieldNode>, i: nat)
    requires DistinctFieldKeys(fields) && i < |fields|
    ensures DeclaresRenamable(protectedNames, fields, FieldKey(fields[i])) <==> !Kept(protectedNames, fields[i])
  {
    if DeclaresRenamable(protectedNames, fields, FieldKey(fields[i])) {
      var t :| 0 <= t < |fields| && !Kept(protectedNames, fields[t]) && FieldKey(fields[t]) == FieldKey(fields[i]);
      assert !(t < i || i < t);
    }
  }

  /**
   * Over distinct class names, the mapping of a class name holds exactly the
   * keys of the fields not kept of the admitted class of that name.
   */
  lemma DeclaredKeys(entropy: Entropy, policy: TransformerFilter.Policy,
                     protectedFields: map<string, set<string>>, image: Image,
                     order: seq<string>, draws: nat)
    requires forall k :: k in order ==> k in image
    requires forall i, j :: 0 <= i < j < |order| ==> order[i] != order[j]
    requires UniqueClassNames(image)
    ensures var r := DeclarationPass(entropy, policy, protectedFields, image, order, map[], draws);
      forall j, fk :: 0 <= j < |order| && ClassNameOfKey(order[j]) in r.fieldMappings &&
                      fk in r.fieldMappings[ClassNameOfKey(order[j])] ==>
        TransformerFilter.Admits(policy, ClassNameOfKey(order[j])) &&
        DeclaresRenamable(ProtectedNames(protectedFields, ClassNameOfKey(order[j])), image[order[j]].fields, fk)
  {
    var r := DeclarationPass(entropy, policy, protectedFields, image, order, map[], draws);
    forall j, fk | 0 <= j < |order| && ClassNameOfKey(order[j]) in r.fieldMappings && fk in r.fieldMappings[ClassNameOfKey(order[j])]
      ensures TransformerFilter.Admits(policy, ClassNameOfKey(order[j])) &&
        DeclaresRenamable(ProtectedNames(protectedFields, ClassNameOfKey(order[j])), image[order[j]].fields, fk)
    {
      forall i | 0 <= i < |order| && i != j ensures ClassNameOfKey(order[i]) != ClassNameOfKey(order[j]) {
        assert order[i] != order[j];
      }
      DeclaredKeysAt(entropy, policy, protectedFields, image, order, draws, j);
    }
  }

  /** The mapping of the class name of `key`, if any, holds only keys of fields not kept of that admitted class. */
  predicate KeysDeclared(policy: TransformerFilter.Policy, protectedFields: map<string, set<string>>,
                         image: Image, r: FieldPass, key: string) {
    var c := ClassNameOfKey(key);
    key in image &&
    forall fk :: c in r.fieldMappings && fk in r.fieldMappings[c] ==>
      TransformerFilter.Admits(policy, c) && DeclaresRenamable(ProtectedNames(protectedFields, c), image[key].fields, fk)
  }

  /**
   * The same for the class at one place of the order, whose class name no
   * other class of the order has, by induction on the length of the order.
   */
  lemma {:induction false} DeclaredKeysAt(entropy: Entropy, policy: TransformerFilter.Policy,
                                          protectedFields: map<string, set<string>>, image: Image,
                                          order: seq<string>, draws: nat, j: nat)
    requires forall k :: k in order ==> k in image
    requires j < |order| && forall i :: 0 <= i < |order| && i != j ==> ClassNameOfKey(order[i]) != ClassNameOfKey(order[j])
    ensures KeysDeclared(policy, protectedFields, image,
                         DeclarationPass(entropy, policy, protectedFields, image, order, map[], draws), order[j])
    decreases |order|
  {
    if j == |order| - 1 {
      DeclaredKeysOfLast(entropy, policy, protectedFields, image, order, draws);
    } else {
      var init := order[..|order| - 1];
      var k := order[j];
      assert KeysDeclared(policy, protectedFields, image,
                          DeclarationPass(entropy, policy, protectedFields, image, init, map[], draws), k) by {
        assert forall t :: 0 <= t < |init| ==> init[t] == order[t];
        DeclaredKeysAt(entropy, policy, protectedFields, image, init, draws, j);
      }
      assert ClassNameOfKey(k) != ClassNameOfKey(order[|order| - 1]);
      DeclaredKeysOfEarlier(entropy, policy, protectedFields, image, order, draws, k);
    }
  }

  /** The mapping of the class visited last holds only the keys its renaming recorded. */
  lemma DeclaredKeysOfLast(entropy: Entropy, policy: TransformerFilter.Policy,
                           protectedFields: map<string, set<string>>, image: Image, order: seq<string>, draws: nat)
    requires order != [] && forall k :: k in order ==> k in image
    requires forall i :: 0 <= i < |order| - 1 ==> ClassNameOfKey(order[i]) != ClassNameOfKey(order[|order| - 1])
    ensures KeysDeclared(policy, protectedFields, image,
                         DeclarationPass(entropy, policy, protectedFields, image, order, map[], draws), order[|order| - 1])
  {
    var init := order[..|order| - 1];
    var key := order[|order| - 1];
    assert forall t :: 0 <= t < |init| ==> init[t] == order[t];
    NoMappingOfUnvisitedClass(entropy, policy, protectedFields, image, init, key, draws);
    var before := DeclarationPass(entropy, policy, protectedFields, image, init, map[], draws);
    var r := DeclarationPass(entropy, policy, protectedFields, image, order, map[], draws);
    var className := ClassNameOfKey(key);
    assert before.image[key] == image[key];
    if TransformerFilter.Admits(policy, className) {
      var renaming := RenameFields(entropy, ProtectedNames(protectedFields, className), map[], before.draws, image[key].fields);
      RenameFieldsKeys(entropy, ProtectedNames(protectedFields, className), map[], before.draws, image[key].fields);
      assert r.fieldMappings == if renaming.classMappings != map[] then before.fieldMappings[className := renaming.classMappings]
                                else before.fieldMappings;
    }
  }

  /** Visiting a class of another name leaves the mapping of `k`'s class name as it was. */
  lemma DeclaredKeysOfEarlier(entropy: Entropy, policy: TransformerFilter.Policy,
                              protectedFields: map<string, set<string>>, image: Image, order: seq<string>,
                              draws: nat, k: string)
    requires order != [] && forall k :: k in order ==> k in image
    requires ClassNameOfKey(k) != ClassNameOfKey(order[|order| - 1])
    requires KeysDeclared(policy, protectedFields, image,
                          DeclarationPass(entropy, policy, protectedFields, image, order[..|order| - 1], map[], draws), k)
    ensures KeysDeclared(policy, protectedFields, image,
                         DeclarationPass(entropy, policy, protectedFields, image, order, map[], draws), k)
  {
    var before := DeclarationPass(entropy, policy, protectedFields, image, order[..|order| - 1], map[], draws);
    var r := DeclarationPass(entropy, policy, protectedFields, image, order, map[], draws);
    RecordOfOtherClass(entropy, policy, protectedFields, image, order, draws, ClassNameOfKey(k));
    KeysDeclaredStill(policy, protectedFields, image, before, r, k);
  }

  /** Before a class is visited, its class name has no mapping. */
  lemma {:induction false} NoMappingOfUnvisitedClass(entropy: Entropy, policy: TransformerFilter.Policy,
                                                     protectedFields: map<string, set<string>>, image: Image,
                                                     visited: seq<string>, key: string, draws: nat)
    requires forall k :: k in visited ==> k in image
    requires forall t :: 0 <= t < |visited| ==> ClassNameOfKey(visited[t]) != ClassNameOfKey(key)
    ensures ClassNameOfKey(key) !in DeclarationPass(entropy, policy, protectedFields, image, visited, map[], draws).fieldMappings
    decreases |visited|
  {
    if visited != [] {
      var init := visited[..|visited| - 1];
      assert forall t :: 0 <= t < |init| ==> init[t] == visited[t];
      NoMappingOfUnvisitedClass(entropy, policy, protectedFields, image, init, key, draws);
      RecordOfOtherClass(entropy, policy, protectedFields, image, visited, draws, ClassNameOfKey(key));
    }
  }

  // ---------------------------------------------------------------------
  // References through a subclass

  /** Whether a class declares a field with the given name and descriptor. */
  predicate DeclaresField(node: ClassNode, name: string, desc: string) {
    exists i :: 0 <= i < |node.fields| && node.fields[i].name == name && node.fields[i].desc == desc
  }

  /**
   * The first pass over two classes, `S` declaring one renamable field `f`
   * and `C` declaring none: `f` gets a generated name, recorded under `S`'s
   * name, and `C`'s name has no entry for `f`'s key.
   */
  lemma TwoClassDeclaration(entropy: Entropy, policy: TransformerFilter.Policy,
                                               protectedFields: map<string, set<string>>,
                                               keyS: string, keyC: string, nodeS: ClassNode, nodeC: ClassNode,
                                               f: FieldNode, order: seq<string>, draws: nat)
    requires ClassNameOfKey(keyS) != ClassNameOfKey(keyC)
    requires nodeS.fields == [f] && nodeC.fields == []
    requires TransformerFilter.Admits(policy, ClassNameOfKey(keyS))
    requires !Kept(ProtectedNames(protectedFields, ClassNameOfKey(keyS)), f)
    requires IsEnumeration(order, {keyS, keyC})
    ensures forall k :: k in order ==> k in map[keyS := nodeS, keyC := nodeC]
    ensures var r := DeclarationPass(entropy, policy, protectedFields, map[keyS := nodeS, keyC := nodeC], order, map[], draws);
      var cS, cC := ClassNameOfKey(keyS), ClassNameOfKey(keyC);
      && r.image.Keys == {keyS, keyC}
      && |r.image[keyS].fields| == 1 && IsSecureFieldName(r.image[keyS].fields[0].name)
      && r.image[keyS].fields[0] == f.(name := r.image[keyS].fields[0].name)
      && r.image[keyC].fields == []
      && cS in r.fieldMappings && FieldKey(f) in r.fieldMappings[cS]
      && r.fieldMappings[cS][FieldKey(f)] == r.image[keyS].fields[0].name
      && !(cC in r.fieldMappings && FieldKey(f) in r.fieldMappings[cC])
  {
    TwoClassRenamed(entropy, policy, protectedFields, keyS, keyC, nodeS, nodeC, f, order, draws);
    TwoClassUnmapped(entropy, policy, protectedFields, keyS, keyC, nodeS, nodeC, f, order, draws);
  }

  /** The two-class image meets the conditions of the first-pass lemmas. */
  lemma TwoClassImage(keyS: string, keyC: string, nodeS: ClassNode, nodeC: ClassNode, f: FieldNode, order: seq<string>)
    requires ClassNameOfKey(keyS) != ClassNameOfKey(keyC)
    requires nodeS.fields == [f] && nodeC.fields == []
    requires IsEnumeration(order, {keyS, keyC})
    ensures var image := map[keyS := nodeS, keyC := nodeC];
      && keyS != keyC && image.Keys == {keyS, keyC}
      && (forall k :: k in order ==> k in image)
      && UniqueClassNames(image) && WellFormedFields(image)
  {
  }

  /** `S`'s field gets a generated name, recorded under `S`'s name. */
  lemma {:induction false} TwoClassRenamed(entropy: Entropy, policy: TransformerFilter.Policy,
                                               protectedFields: map<string, set<string>>,
                                               keyS: string, keyC: string, nodeS: ClassNode, nodeC: ClassNode,
                                               f: FieldNode, order: seq<string>, draws: nat)
    requires ClassNameOfKey(keyS) != ClassNameOfKey(keyC)
    requires nodeS.fields == [f] && nodeC.fields == []
    requires TransformerFilter.Admits(policy, ClassNameOfKey(keyS))
    requires !Kept(ProtectedNames(protectedFields, ClassNameOfKey(keyS)), f)
    requires IsEnumeration(order, {keyS, keyC})
    ensures forall k :: k in order ==> k in map[keyS := nodeS, keyC := nodeC]
    ensures var r := DeclarationPass(entropy, policy, protectedFields, map[keyS := nodeS, keyC := nodeC], order, map[], draws);
      var cS := ClassNameOfKey(keyS);
      && r.image.Keys == {keyS, keyC}
      && |r.image[keyS].fields| == 1 && IsSecureFieldName(r.image[keyS].fields[0].name)
      && r.image[keyS].fields[0] == f.(name := r.image[keyS].fields[0].name)
      && cS in r.fieldMappings && FieldKey(f) in r.fieldMappings[cS]
      && r.fieldMappings[cS][FieldKey(f)] == r.image[keyS].fields[0].name
  {
    var image := map[keyS := nodeS, keyC := nodeC];
    TwoClassImage(keyS, keyC, nodeS, nodeC, f, order);
    var declared := DeclarationPass(entropy, policy, protectedFields, image, order, map[], draws);
    DeclaredFields(entropy, policy, protectedFields, image, order, draws);
    var s :| 0 <= s < |order| && order[s] == keyS;
    assert FieldRecorded(policy, protectedFields, declared, keyS, image[keyS].fields[0], declared.image[keyS].fields[0]);
  }

  /** `C` keeps its empty field list, and its name has no entry for `f`'s key. */
  lemma {:induction false} TwoClassUnmapped(entropy: Entropy, policy: TransformerFilter.Policy,
                                               protectedFields: map<string, set<string>>,
                                               keyS: string, keyC: string, nodeS: ClassNode, nodeC: ClassNode,
                                               f: FieldNode, order: seq<string>, draws: nat)
    requires ClassNameOfKey(keyS) != ClassNameOfKey(keyC)
    requires nodeS.fields == [f] && nodeC.fields == []
    requires TransformerFilter.Admits(policy, ClassNameOfKey(keyS))
    requires !Kept(ProtectedNames(protectedFields, ClassNameOfKey(keyS)), f)
    requires IsEnumeration(order, {keyS, keyC})
    ensures var r := DeclarationPass(entropy, policy, protectedFields, map[keyS := nodeS, keyC := nodeC], order, map[], draws);
      var cC := ClassNameOfKey(keyC);
      && keyC in r.image && r.image[keyC].fields == []
      && !(cC in r.fieldMappings && FieldKey(f) in r.fieldMappings[cC])
  {
    var image := map[keyS := nodeS, keyC := nodeC];
    TwoClassImage(keyS, keyC, nodeS, nodeC, f, order);
    DeclaredKeys(entropy, policy, protectedFields, image, order, draws);
    var j :| 0 <= j < |order| && order[j] == keyC;
    assert !DeclaresRenamable(ProtectedNames(protectedFields, ClassNameOfKey(keyC)), image[order[j]].fields, FieldKey(f));
  }

  /**
   * Class `C` extends `S`; `S` declares field `f`, which is renamed, and `C`
   * declares no field. A reference `C.f`, which the virtual machine
   * resolves through the superclass, keeps the original name, and after the
   * run no class of the image declares a field of that name and descriptor:
   * the reference no longer resolves.
   */
  lemma {:induction false} InheritedFieldReferenceLost(entropy: Entropy, policy: TransformerFilter.Policy,
                                                       protectedFields: map<string, set<string>>,
                                                       superclasses: map<string, string>,
                                                       keyS: string, keyC: string, nodeS: ClassNode, nodeC: ClassNode,
                                                       f: FieldNode, order: seq<string>, draws: nat, owner: string)
    requires ClassNameOfKey(keyS) != ClassNameOfKey(keyC)
    requires ClassNameOfKey(keyC) in superclasses && superclasses[ClassNameOfKey(keyC)] == ClassNameOfKey(keyS)
    requires nodeS.fields == [f] && nodeC.fields == [] && !IsSecureFieldName(f.name)
    requires TransformerFilter.Admits(policy, ClassNameOfKey(keyS))
    requires !Kept(ProtectedNames(protectedFields, ClassNameOfKey(keyS)), f)
    requires IsEnumeration(order, {keyS, keyC}) && Dotted(owner) == ClassNameOfKey(keyC)
    ensures forall k :: k in order ==> k in map[keyS := nodeS, keyC := nodeC]
    ensures var r := TransformResult(entropy, policy, protectedFields, map[keyS := nodeS, keyC := nodeC], order, draws);
      && UpdatedFieldInsn(r.fieldMappings, FieldInsn(owner, f.name, f.desc)) == FieldInsn(owner, f.name, f.desc)
      && forall k :: k in r.image ==> !DeclaresField(r.image[k], f.name, f.desc)
  {
    var image := map[keyS := nodeS, keyC := nodeC];
    TwoClassDeclaration(entropy, policy, protectedFields, keyS, keyC, nodeS, nodeC, f, order, draws);
    var declared := DeclarationPass(entropy, policy, protectedFields, image, order, map[], draws);
    var r := TransformResult(entropy, policy, protectedFields, image, order, draws);
    assert r.fieldMappings == declared.fieldMappings;
    forall k | k in r.image ensures !DeclaresField(r.image[k], f.name, f.desc) {
      assert r.image[k].fields == declared.image[k].fields;
      if k == keyS {
        assert declared.image[keyS].fields[0].name != f.name;
      }
    }
  }

  /**
   * The class that field resolution finds along an ancestry: the first
   * class of the chain whose node in the index declares the field.
   */
  function DeclaringClass(classes: map<string, ClassNode>, chain: seq<string>, name: string, desc: string): (r: Option<string>)
    ensures r.None? <==> forall i :: 0 <= i < |chain| ==> !(chain[i] in classes && DeclaresField(classes[chain[i]], name, desc))
    ensures r.Some? ==> r.value in chain && r.value in classes && DeclaresField(classes[r.value], name, desc)
  {
    if chain == [] then None
    else if chain[0] in classes && DeclaresField(classes[chain[0]], name, desc) then Some(chain[0])
    else
      assert forall i :: 1 <= i < |chain| ==> chain[i] == chain[1..][i - 1];
      DeclaringClass(classes, chain[1..], name, desc)
  }

  /** Resolution stops at the first declaring class of the chain. */
  lemma {:induction false} DeclaringClassIsFirst(classes: map<string, ClassNode>, chain: seq<string>,
                                                 name: string, desc: string, i: nat)
    requires i < |chain| && chain[i] in classes && DeclaresField(classes[chain[i]], name, desc)
    requires forall j :: 0 <= j < i ==> !(chain[j] in classes && DeclaresField(classes[chain[j]], name, desc))
    ensures DeclaringClass(classes, chain, name, desc) == Some(chain[i])
    decreases i
  {
    if i > 0 {
      assert chain[1..][i - 1] == chain[i];
      forall j | 0 <= j < i - 1 ensures !(chain[1..][j] in classes && DeclaresField(classes[chain[1..][j]], name, desc)) {
        assert chain[1..][j] == chain[j + 1];
      }
      DeclaringClassIsFirst(classes, chain[1..], name, desc, i - 1);
    }
  }

  /**
   * A field instruction resolved the way the virtual machine resolves it:
   * it takes the entry of the class that declares the field, found along
   * the owner's ancestry in the index (whose nodes hold the original fields).
   */
  function ResolvedFieldInsn(fieldMappings: map<string, map<string, string>>, superclasses: map<string, string>,
                             classes: map<string, ClassNode>, insn: Insn): (r: Insn)
    requires Hierarchy.ChainsEnd(superclasses)
    ensures !insn.FieldInsn? ==> r == insn
    ensures insn.FieldInsn? ==> r.FieldInsn? && r == FieldInsn(insn.owner, r.name, insn.desc)
  {
    match insn
    case FieldInsn(owner, name, desc) =>
      var chain := Hierarchy.Ancestry(superclasses, classes.Keys, Dotted(owner), |superclasses|);
      (match DeclaringClass(classes, chain, name, desc)
       case Some(c) =>
         if c in fieldMappings && name + desc in fieldMappings[c] then FieldInsn(owner, fieldMappings[c][name + desc], desc)
         else insn
       case None => insn)
    case _ => insn
  }

  /**
   * The scenario of `InheritedFieldReferenceLost` with references resolved
   * along the ancestry: the reference `C.f` takes the new name of `S`'s field.
   */
  lemma {:induction false} InheritedFieldReferenceKept(entropy: Entropy, policy: TransformerFilter.Policy,
                                                       protectedFields: map<string, set<string>>,
                                                       superclasses: map<string, string>, classes: map<string, ClassNode>,
                                                       keyS: string, keyC: string, nodeS: ClassNode, nodeC: ClassNode,
                                                       f: FieldNode, order: seq<string>, draws: nat, owner: string)
    requires Hierarchy.ChainsEnd(superclasses)
    requires ClassNameOfKey(keyS) != ClassNameOfKey(keyC)
    requires ClassNameOfKey(keyC) in superclasses && superclasses[ClassNameOfKey(keyC)] == ClassNameOfKey(keyS)
    requires ClassNameOfKey(keyS) in classes && classes[ClassNameOfKey(keyS)] == nodeS
    requires ClassNameOfKey(keyC) in classes && classes[ClassNameOfKey(keyC)] == nodeC
    requires nodeS.fields == [f] && nodeC.fields == []
    requires TransformerFilter.Admits(policy, ClassNameOfKey(keyS))
    requires !Kept(ProtectedNames(protectedFields, ClassNameOfKey(keyS)), f)
    requires IsEnumeration(order, {keyS, keyC}) && Dotted(owner) == ClassNameOfKey(keyC)
    ensures forall k :: k in order ==> k in map[keyS := nodeS, keyC := nodeC]
    ensures var r := DeclarationPass(entropy, policy, protectedFields, map[keyS := nodeS, keyC := nodeC], order, map[], draws);
      ResolvedFieldInsn(r.fieldMappings, superclasses, classes, FieldInsn(owner, f.name, f.desc))
        == FieldInsn(owner, r.image[keyS].fields[0].name, f.desc)
  {
    TwoClassDeclaration(entropy, policy, protectedFields, keyS, keyC, nodeS, nodeC, f, order, draws);
    var declared := DeclarationPass(entropy, policy, protectedFields, map[keyS := nodeS, keyC := nodeC], order, map[], draws);
    FieldResolvedInSuperclass(declared.fieldMappings, superclasses, classes, ClassNameOfKey(keyS), ClassNameOfKey(keyC), f, owner);
  }

  /** A reference through `C` to the only field `f` of its superclass `S` resolves to `S`'s entry for `f`. */
  lemma FieldResolvedInSuperclass(fieldMappings: map<string, map<string, string>>, superclasses: map<string, string>,
                                  classes: map<string, ClassNode>, cS: string, cC: string, f: FieldNode, owner: string)
    requires Hierarchy.ChainsEnd(superclasses)
    requires cC in superclasses && superclasses[cC] == cS && Dotted(owner) == cC
    requires cS in classes && classes[cS].fields == [f] && cC in classes && classes[cC].fields == []
    requires cS in fieldMappings && FieldKey(f) in fieldMappings[cS]
    ensures ResolvedFieldInsn(fieldMappings, superclasses, classes, FieldInsn(owner, f.name, f.desc))
      == FieldInsn(owner, fieldMappings[cS][FieldKey(f)], f.desc)
  {
    var chain := Hierarchy.Ancestry(superclasses, classes.Keys, cC, |superclasses|);
    assert chain == [cC] + Hierarchy.Ancestry(superclasses, classes.Keys, cS, |superclasses| - 1);
    assert !DeclaresField(classes[cC], f.name, f.desc);
    assert DeclaresField(classes[cS], f.name, f.desc) by {
      assert classes[cS].fields[0] == f;
    }
    DeclaringClassIsFirst(classes, chain, f.name, f.desc, 1);
  }

  // ---------------------------------------------------------------------
  // The transformer

  class FieldTransformer {
    /** How many names were generated so far. */
    var draws: nat
    const entropy: Entropy

    constructor (entropy: Entropy)
      ensures this.entropy == entropy && draws == 0
    {
      this.entropy := entropy;
      draws := 0;
    }

    /** `generateSecureFieldName`: `_` and the hex of the digest, the `_` replaced by a random letter. */
    method GenerateSecureFieldName(originalName: string) returns (newName: string)
      modifies this
      ensures newName == NewFieldName(entropy, originalName, old(draws))
      ensures draws == old(draws) + 1
    {
      var hashBytes := entropy.digest(originalName, draws);
      var hex := EncodeHex(hashBytes);
      newName := "_" + hex;
      newName := [LetterChar(entropy.letter(draws))] + newName[1..];
      assert newName[1..] == hex;
      draws := draws + 1;
    }

    /** The field loop of one admitted class. */
    method RenameFieldsInClass(fields: seq<FieldNode>, className: string, context: TransformerContext.TransformerContext)
      returns (renamed: seq<FieldNode>, classMappings: map<string, string>)
      modifies this
      ensures var r := RenameFields(entropy, ProtectedNames(context.protectedFields, className), map[], old(draws), fields);
        renamed == r.fields && classMappings == r.classMappings && draws == r.draws
    {
      var protectedNames := ProtectedNames(context.protectedFields, className);
      renamed := [];
      classMappings := map[];
      for i := 0 to |fields|
        invariant RenameFields(entropy, protectedNames, map[], old(draws), fields[..i])
                  == FieldRenaming(classMappings, draws, renamed)
      {
        var fieldNode := fields[i];
        assert fields[..i + 1][..i] == fields[..i];
        if context.IsFieldProtected(className, fieldNode.name) {
          renamed := renamed + [fieldNode];
        } else if fieldNode.access & ACC_SYNTHETIC != 0 || fieldNode.access & ACC_ENUM != 0 {
          renamed := renamed + [fieldNode];
        } else {
          var newName := GenerateSecureFieldName(fieldNode.name);
          classMappings := classMappings[fieldNode.name + fieldNode.desc := newName];
          renamed := renamed + [fieldNode.(name := newName)];
        }
      }
      assert fields[..|fields|] == fields;
    }

    /** The first loop of `transform`. */
    method RenameAllClasses(classNodes: Image, order: seq<string>, config: Configuration.Configuration,
                            context: TransformerContext.TransformerContext)
      returns (transformedNodes: Image, fieldMappings: map<string, map<string, string>>)
      requires forall k :: k in order ==> k in classNodes
      modifies this
      ensures var r := DeclarationPass(entropy, TransformerFilter.PolicyFor(config, TransformerName),
                                       context.protectedFields, classNodes, order, map[], old(draws));
        transformedNodes == r.image && fieldMappings == r.fieldMappings && draws == r.draws
    {
      ghost var policy := TransformerFilter.PolicyFor(config, TransformerName);
      transformedNodes := classNodes;
      fieldMappings := map[];
      for i := 0 to |order|
        invariant DeclarationPass(entropy, policy, context.protectedFields, classNodes, order[..i], map[], old(draws))
                  == FieldPass(transformedNodes, fieldMappings, draws)
      {
        assert order[..i + 1][..i] == order[..i];
        var key := order[i];
        var className := ClassNameOfKey(key);
        var classNode := transformedNodes[key];
        if TransformerFilter.ShouldTransform(className, TransformerName, config) {
          var renamed, classMappings := RenameFieldsInClass(classNode.fields, className, context);
          transformedNodes := transformedNodes[key := classNode.(fields := renamed)];
          if classMappings != map[] {
            fieldMappings := fieldMappings[className := classMappings];
          }
        }
      }
      assert order[..|order|] == order;
    }

    /** The instruction loop of the second pass, for one method. */
    method UpdateFieldReferences(methodNode: MethodNode, fieldMappings: map<string, map<string, string>>)
      returns (updated: MethodNode)
      ensures updated == UpdatedFieldsMethod(fieldMappings, methodNode)
    {
      var insns := methodNode.instructions;
      for i := 0 to |insns|
        invariant |insns| == |methodNode.instructions|
        invariant forall j :: 0 <= j < i ==> insns[j] == UpdatedFieldInsn(fieldMappings, methodNode.instructions[j])
        invariant forall j :: i <= j < |insns| ==> insns[j] == methodNode.instructions[j]
      {
        var insnNode := insns[i];
        if insnNode.FieldInsn? {
          var ownerClassName := Dotted(insnNode.owner);
          if ownerClassName in fieldMappings {
            var classMappings := fieldMappings[ownerClassName];
            var key := insnNode.name + insnNode.desc;
            if key in classMappings {
              insns := insns[i := FieldInsn(insnNode.owner, classMappings[key], insnNode.desc)];
            }
          }
        }
      }
      updated := methodNode.(instructions := insns);
    }

    /** The second loop of `transform`, over every method of every class. */
    method UpdateAllReferences(classNodes: Image, order: seq<string>, fieldMappings: map<string, map<string, string>>)
      returns (transformedNodes: Image)
      requires IsEnumeration(order, classNodes.Keys)
      ensures transformedNodes == ReferencePass(fieldMappings, classNodes)
    {
      transformedNodes := classNodes;
      for i := 0 to |order|
        invariant transformedNodes.Keys == classNodes.Keys
        invariant forall k :: k in classNodes ==>
          transformedNodes[k] == (if k in order[..i] then UpdatedFieldsClass(fieldMappings, classNodes[k]) else classNodes[k])
      {
        var key := order[i];
        assert key !in order[..i];
        assert forall k :: k in order[..i + 1] <==> k in order[..i] || k == key;
        var classNode := transformedNodes[key];
        var updated := UpdateClassReferences(classNode, fieldMappings);
        transformedNodes := transformedNodes[key := updated];
      }
      assert order[..|order|] == order;
    }

    /** The method loop inside the second loop of `transform`, for one class. */
    method UpdateClassReferences(classNode: ClassNode, fieldMappings: map<string, map<string, string>>)
      returns (updated: ClassNode)
      ensures updated == UpdatedFieldsClass(fieldMappings, classNode)
    {
      var methods := classNode.methods;
      for j := 0 to |methods|
        invariant |methods| == |classNode.methods|
        invariant forall t :: 0 <= t < j ==> methods[t] == UpdatedFieldsMethod(fieldMappings, classNode.methods[t])
        invariant forall t :: j <= t < |methods| ==> methods[t] == classNode.methods[t]
      {
        var updatedMethod := UpdateFieldReferences(methods[j], fieldMappings);
        methods := methods[j := updatedMethod];
      }
      updated := classNode.(methods := methods);
    }

    /**
     * `transform` over the classes in the (unspecified) iteration order
     * `order`; the filter lists and the protected fields are read, never written.
     */
    method Transform(classNodes: Image, order: seq<string>, config: Configuration.Configuration,
                     context: TransformerContext.TransformerContext) returns (transformedNodes: Image)
      requires IsEnumeration(order, classNodes.Keys)
      modifies this
      ensures var r := TransformResult(entropy, TransformerFilter.PolicyFor(config, TransformerName),
                                       context.protectedFields, classNodes, order, old(draws));
        transformedNodes == r.image && draws == r.draws
      ensures transformedNodes.Keys == classNodes.Keys
    {
      var fieldMappings;
      transformedNodes, fieldMappings := RenameAllClasses(classNodes, order, config, context);
      transformedNodes := UpdateAllReferences(transformedNodes, order, fieldMappings);
    }
  }
}
