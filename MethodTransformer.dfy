/**
 * The method renamer. One run has three passes over the program image:
 * a declaration pass that gives every method not excluded by name a
 * generated name and records it under the key `class.name+desc` (first
 * writer wins), an override pass that consults the hierarchy index, and a
 * call-site pass that renames each method instruction after the first
 * class of its owner's ancestry that has a recorded name.
 *
 * The hierarchy index holds the class nodes as they were decoded before
 * any transformer ran: its method names are the original ones.
 */
module MethodTransformer {
  import opened JavaText
  import opened ClassModel
  import opened Naming
  import Hierarchy
  import Configuration
  import TransformerContext

  const TransformerName := "MethodTransformer"
  const ExclusionsSetting := "method-exclusions"
  const OverrideAnnotation := "Ljava/lang/Override;"

  // ---------------------------------------------------------------------
  // Exclusions

  /** The names listed by the exclusion setting: its comma-separated items, trimmed; none without it. */
  function MethodExclusions(setting: Option<string>): set<string> {
    match setting
    case None => {}
    case Some(value) => set item | item in TrimAll(JavaSplit(value, ','))
  }

  /** The exclusion set a configuration defines. */
  function Excluded(config: Configuration.Configuration): set<string>
    reads config
  {
    MethodExclusions(config.GetCustomSetting(TransformerName, ExclusionsSetting))
  }

  /**
   * `isExcludedMethod`: the method's current name is listed; `<init>` and
   * `<clinit>` are not special. Without the setting nothing is excluded, and
   * since the list is split at commas and trimmed, no name with a comma or
   * with blanks at either end is ever excluded.
   */
  function IsExcludedMethod(m: MethodNode, config: Configuration.Configuration): (r: bool)
    reads config
    ensures config.GetCustomSetting(TransformerName, ExclusionsSetting).None? ==> !r
    ensures r ==> ',' !in m.name && (m.name == [] || (!IsTrimmable(m.name[0]) && !IsTrimmable(m.name[|m.name| - 1])))
  {
    match config.GetCustomSetting(TransformerName, ExclusionsSetting)
    case None => false
    case Some(value) =>
      ListItems(value);
      m.name in Excluded(config)
  }

  /** The items of a comma-separated list, trimmed: none holds a comma or starts or ends with a blank. */
  lemma ListItems(value: string)
    ensures forall item :: item in TrimAll(JavaSplit(value, ',')) ==>
      ',' !in item && (item == [] || (!IsTrimmable(item[0]) && !IsTrimmable(item[|item| - 1])))
  {
    var pieces := JavaSplit(value, ',');
    forall item | item in TrimAll(pieces)
      ensures ',' !in item && (item == [] || (!IsTrimmable(item[0]) && !IsTrimmable(item[|item| - 1])))
    {
      var i :| 0 <= i < |pieces| && item == TrimAll(pieces)[i];
      TrimmedItem(pieces[i]);
    }
  }

  /** Trimming a piece without a comma leaves an item without a comma and without blanks at either end. */
  lemma TrimmedItem(piece: string)
    requires ',' !in piece
    ensures var item := Trim(piece);
      ',' !in item && (item == [] || (!IsTrimmable(item[0]) && !IsTrimmable(item[|item| - 1])))
  {
    TrimEndsUntrimmable(piece);
    TrimIsInnerPart(piece);
    var a, b :| 0 <= a <= b <= |piece| && Trim(piece) == piece[a..b];
    assert forall c :: c in piece[a..b] ==> c in piece;
  }

  /**
   * A setting written as a comma-separated list of names (without blanks
   * around them) excludes exactly those names; without a setting nothing is
   * excluded.
   */
  lemma ListedNamesAreExcluded(names: seq<string>, name: string)
    requires names != [] && names[|names| - 1] != []
    requires forall i :: 0 <= i < |names| ==> ',' !in names[i] && Trim(names[i]) == names[i]
    ensures name in MethodExclusions(Some(Join(names, ','))) <==> name in names
    ensures name !in MethodExclusions(None)
  {
    JavaSplitJoin(names, ',');
    var items := TrimAll(names);
    assert items == names;
  }

  // ---------------------------------------------------------------------
  // Declaration pass

  /** The state threaded through the declaration pass of one class. */
  datatype Renaming = Renaming(mappings: map<string, string>, draws: nat, methods: seq<MethodNode>)

  /** The name `generateSecureMethodName` returns on the given draw. */
  function NewMethodName(entropy: Entropy, originalName: string, draw: nat): (r: string)
    ensures IsSecureMethodName(r)
  {
    SecureMethodName(entropy.digest(originalName, draw), entropy.letter(draw))
  }

  /** The key of a method of a class. */
  function KeyOf(className: string, m: MethodNode): string {
    MethodKey(className, m.name, m.desc)
  }

  /** `m` and `n` differ at most in their name. */
  predicate SameButName(m: MethodNode, n: MethodNode) {
    n == m.(name := n.name)
  }

  /**
   * `renameMethodsInClass` for the methods of `className`, in order: a
   * method not excluded whose key has no entry yet is given the next
   * generated name, which is recorded under its key.
   */
  function RenameMethods(entropy: Entropy, excluded: set<string>, className: string,
                         mappings: map<string, string>, draws: nat, methods: seq<MethodNode>): (r: Renaming)
    ensures |r.methods| == |methods|
    ensures forall i :: 0 <= i < |methods| ==> SameButName(methods[i], r.methods[i])
    ensures r.draws >= draws
    decreases |methods|
  {
    if methods == [] then Renaming(mappings, draws, [])
    else
      var before := RenameMethods(entropy, excluded, className, mappings, draws, methods[..|methods| - 1]);
      var m := methods[|methods| - 1];
      var key := KeyOf(className, m);
      if m.name !in excluded && key !in before.mappings then
        var newName := NewMethodName(entropy, m.name, before.draws);
        Renaming(before.mappings[key := newName], before.draws + 1, before.methods + [m.(name := newName)])
      else
        Renaming(before.mappings, before.draws, before.methods + [m])
  }

  /** The first writer wins: an entry present before is never changed. */
  lemma {:induction false} RenameKeepsEntries(entropy: Entropy, excluded: set<string>, className: string,
                                              mappings: map<string, string>, draws: nat, methods: seq<MethodNode>)
    ensures var r := RenameMethods(entropy, excluded, className, mappings, draws, methods);
      forall k :: k in mappings ==> k in r.mappings && r.mappings[k] == mappings[k]
    decreases |methods|
  {
    if methods != [] {
      RenameKeepsEntries(entropy, excluded, className, mappings, draws, methods[..|methods| - 1]);
    }
  }

  /** Whether some method of `methods` that is not excluded has key `key`. */
  predicate DeclaresRenamable(excluded: set<string>, className: string, methods: seq<MethodNode>, key: string) {
    exists i :: 0 <= i < |methods| && methods[i].name !in excluded && KeyOf(className, methods[i]) == key
  }

  /**
   * The entries after the pass: the old ones, and one for the key of every
   * method not excluded; every new entry holds a generated name.
   */
  lemma {:induction false} RenameMappingKeys(entropy: Entropy, excluded: set<string>, className: string,
                                             mappings: map<string, string>, draws: nat, methods: seq<MethodNode>)
    ensures var r := RenameMethods(entropy, excluded, className, mappings, draws, methods);
      && (forall k :: k in r.mappings <==> k in mappings || DeclaresRenamable(excluded, className, methods, k))
      && (forall k :: k in r.mappings && k !in mappings ==> IsSecureMethodName(r.mappings[k]))
    decreases |methods|
  {
    if methods != [] {
      var init := methods[..|methods| - 1];
      RenameMappingKeys(entropy, excluded, className, mappings, draws, init);
      DeclaresRenamableLast(excluded, className, methods);
    }
  }

  /** A list declares a key renamable when all but its last method do, or its last method does. */
  lemma DeclaresRenamableLast(excluded: set<string>, className: string, methods: seq<MethodNode>)
    requires methods != []
    ensures var init, m := methods[..|methods| - 1], methods[|methods| - 1];
      forall k :: DeclaresRenamable(excluded, className, methods, k) <==>
        DeclaresRenamable(excluded, className, init, k) || (m.name !in excluded && k == KeyOf(className, m))
  {
    var init, m := methods[..|methods| - 1], methods[|methods| - 1];
    forall k ensures DeclaresRenamable(excluded, className, methods, k) <==>
      DeclaresRenamable(excluded, className, init, k) || (m.name !in excluded && k == KeyOf(className, m))
    {
      if DeclaresRenamable(excluded, className, init, k) {
        var i :| 0 <= i < |init| && init[i].name !in excluded && KeyOf(className, init[i]) == k;
        assert methods[i] == init[i];
      }
      if DeclaresRenamable(excluded, className, methods, k) {
        var i :| 0 <= i < |methods| && methods[i].name !in excluded && KeyOf(className, methods[i]) == k;
        if i < |init| {
          assert methods[i] == init[i];
        }
      }
    }
  }

  /** No two methods of the list share a key (a class file never declares a signature twice). */
  predicate DistinctKeys(className: string, methods: seq<MethodNode>) {
    forall i, j :: 0 <= i < j < |methods| ==> KeyOf(className, methods[i]) != KeyOf(className, methods[j])
  }

  /**
   * The fate of method `m`, now `n`: kept if excluded or if its key had an
   * entry before the pass, otherwise renamed to what `recorded` holds for its key.
   */
  predicate RenamedAsRecorded(excluded: set<string>, className: string, mappings: map<string, string>,
                              recorded: map<string, string>, m: MethodNode, n: MethodNode) {
    var key := KeyOf(className, m);
    if m.name in excluded || key in mappings then n == m
    else key in recorded && n == m.(name := recorded[key])
  }

  /**
   * What happens to each method: one that is excluded, or whose key had an
   * entry before, keeps its name; every other one takes the name recorded
   * under its key.
   */
  lemma {:induction false} RenamedMethods(entropy: Entropy, excluded: set<string>, className: string,
                                          mappings: map<string, string>, draws: nat, methods: seq<MethodNode>)
    requires DistinctKeys(className, methods)
    ensures var r := RenameMethods(entropy, excluded, className, mappings, draws, methods);
      forall i :: 0 <= i < |methods| ==> RenamedAsRecorded(excluded, className, mappings, r.mappings, methods[i], r.methods[i])
    decreases |methods|
  {
    if methods != [] {
      var init := methods[..|methods| - 1];
      var n := |methods| - 1;
      DistinctKeysPrefix(className, methods);
      RenamedMethods(entropy, excluded, className, mappings, draws, init);
      var before := RenameMethods(entropy, excluded, className, mappings, draws, init);
      var r := RenameMethods(entropy, excluded, className, mappings, draws, methods);
      RenameStep(entropy, excluded, className, mappings, draws, methods);
      LastRenamedAsRecorded(entropy, excluded, className, mappings, draws, methods);
      forall i | 0 <= i < n
        ensures RenamedAsRecorded(excluded, className, mappings, r.mappings, methods[i], r.methods[i])
      {
        assert methods[i] == init[i] && r.methods[i] == before.methods[i];
        assert RenamedAsRecorded(excluded, className, mappings, before.mappings, init[i], before.methods[i]);
      }
    }
  }

  lemma DistinctKeysPrefix(className: string, methods: seq<MethodNode>)
    requires methods != [] && DistinctKeys(className, methods)
    ensures DistinctKeys(className, methods[..|methods| - 1])
  {
    var init := methods[..|methods| - 1];
    forall i, j | 0 <= i < j < |init| ensures KeyOf(className, init[i]) != KeyOf(className, init[j]) {
      assert init[i] == methods[i] && init[j] == methods[j];
    }
  }

  /** One step of the pass keeps every entry and every method already renamed. */
  lemma RenameStep(entropy: Entropy, excluded: set<string>, className: string,
                   mappings: map<string, string>, draws: nat, methods: seq<MethodNode>)
    requires methods != []
    ensures var before := RenameMethods(entropy, excluded, className, mappings, draws, methods[..|methods| - 1]);
      var r := RenameMethods(entropy, excluded, className, mappings, draws, methods);
      && (forall k :: k in before.mappings ==> k in r.mappings && r.mappings[k] == before.mappings[k])
      && r.methods[..|methods| - 1] == before.methods
  {
  }

  lemma LastRenamedAsRecorded(entropy: Entropy, excluded: set<string>, className: string,
                              mappings: map<string, string>, draws: nat, methods: seq<MethodNode>)
    requires methods != [] && DistinctKeys(className, methods)
    ensures var r := RenameMethods(entropy, excluded, className, mappings, draws, methods);
      RenamedAsRecorded(excluded, className, mappings, r.mappings, methods[|methods| - 1], r.methods[|methods| - 1])
  {
    var init := methods[..|methods| - 1];
    var m := methods[|methods| - 1];
    var key := KeyOf(className, m);
    RenameMappingKeys(entropy, excluded, className, mappings, draws, init);
    forall i | 0 <= i < |init| ensures KeyOf(className, init[i]) != key {
      assert methods[i] == init[i];
    }
  }

  /** `b` is `a` with at most its method names changed. */
  predicate SameButMethodNames(a: ClassNode, b: ClassNode) {
    && b == a.(methods := b.methods)
    && |b.methods| == |a.methods|
    && (forall i :: 0 <= i < |a.methods| ==> SameButName(a.methods[i], b.methods[i]))
  }

  /** The state threaded through a pass over the image. */
  datatype Pass = Pass(image: Image, mappings: map<string, string>, draws: nat)

  /** The first loop of `transform`: the classes of `order`, in turn, under the class names of their keys. */
  function DeclarationPass(entropy: Entropy, excluded: set<string>, image: Image, order: seq<string>,
                           mappings: map<string, string>, draws: nat): (r: Pass)
    requires forall k :: k in order ==> k in image
    ensures r.image.Keys == image.Keys
    ensures forall k :: k in image ==> SameButMethodNames(image[k], r.image[k])
    ensures forall k :: k in image && k !in order ==> r.image[k] == image[k]
    ensures r.draws >= draws
    decreases |order|
  {
    if order == [] then Pass(image, mappings, draws)
    else
      var before := DeclarationPass(entropy, excluded, image, order[..|order| - 1], mappings, draws);
      var key := order[|order| - 1];
      var node := before.image[key];
      var r := RenameMethods(entropy, excluded, ClassNameOfKey(key), before.mappings, before.draws, node.methods);
      Pass(before.image[key := node.(methods := r.methods)], r.mappings, r.draws)
  }

  /** No two entries of the image stand for the same class name. */
  predicate UniqueClassNames(image: Image) {
    forall k1, k2 :: k1 in image && k2 in image && k1 != k2 ==> ClassNameOfKey(k1) != ClassNameOfKey(k2)
  }

  /** Every method of every class has a legal name and descriptor, and no class declares a key twice. */
  predicate WellFormedMethods(image: Image) {
    forall k :: k in image ==>
      && DistinctKeys(ClassNameOfKey(k), image[k].methods)
      && (forall i :: 0 <= i < |image[k].methods| ==> IsLegalMember(image[k].methods[i].name, image[k].methods[i].desc))
  }

  /** Whether a class of `order` has a method not excluded with key `key`. */
  predicate RenamableIn(excluded: set<string>, image: Image, order: seq<string>, key: string)
    requires forall k :: k in order ==> k in image
  {
    exists j :: 0 <= j < |order| && DeclaresRenamable(excluded, ClassNameOfKey(order[j]), image[order[j]].methods, key)
  }

  /**
   * The entries after the declaration pass from an empty mapping: one for
   * exactly the key of each method not excluded of each visited class.
   */
  lemma {:induction false} DeclarationKeys(entropy: Entropy, excluded: set<string>, image: Image, order: seq<string>, draws: nat)
    requires forall k :: k in order ==> k in image
    requires NoRepeats(order)
    ensures var r := DeclarationPass(entropy, excluded, image, order, map[], draws);
      forall key :: key in r.mappings <==> RenamableIn(excluded, image, order, key)
    decreases |order|
  {
    if order != [] {
      var init := order[..|order| - 1];
      var key := order[|order| - 1];
      DeclarationKeys(entropy, excluded, image, init, draws);
      var before := DeclarationPass(entropy, excluded, image, init, map[], draws);
      var className := ClassNameOfKey(key);
      var methods := before.image[key].methods;
      var rm := RenameMethods(entropy, excluded, className, before.mappings, before.draws, methods);
      var r := DeclarationPass(entropy, excluded, image, order, map[], draws);
      assert r.mappings == rm.mappings;
      assert methods == image[key].methods;
      RenameMappingKeys(entropy, excluded, className, before.mappings, before.draws, methods);
      RenamableInStep(excluded, image, order);
      forall k ensures k in r.mappings <==> RenamableIn(excluded, image, order, k) {
        assert k in rm.mappings <==> k in before.mappings || DeclaresRenamable(excluded, className, methods, k);
      }
    }
  }

  /** Every entry the declaration pass records from an empty mapping holds a generated name. */
  lemma {:induction false} DeclaredNamesAreSecure(entropy: Entropy, excluded: set<string>, image: Image, order: seq<string>,
                                                  draws: nat)
    requires forall k :: k in order ==> k in image
    ensures var r := DeclarationPass(entropy, excluded, image, order, map[], draws);
      forall key :: key in r.mappings ==> IsSecureMethodName(r.mappings[key])
    decreases |order|
  {
    if order != [] {
      var init := order[..|order| - 1];
      var key := order[|order| - 1];
      DeclaredNamesAreSecure(entropy, excluded, image, init, draws);
      var before := DeclarationPass(entropy, excluded, image, init, map[], draws);
      assert forall k :: k in before.mappings ==> IsSecureMethodName(before.mappings[k]) by {
        forall k | k in before.mappings ensures IsSecureMethodName(before.mappings[k]) {
          assert k in DeclarationPass(entropy, excluded, image, init, map[], draws).mappings;
        }
      }
      var className := ClassNameOfKey(key);
      var methods := before.image[key].methods;
      var rm := RenameMethods(entropy, excluded, className, before.mappings, before.draws, methods);
      assert DeclarationPass(entropy, excluded, image, order, map[], draws).mappings == rm.mappings;
      RenameMappingKeys(entropy, excluded, className, before.mappings, before.draws, methods);
      RenameKeepsEntries(entropy, excluded, className, before.mappings, before.draws, methods);
      forall k | k in rm.mappings ensures IsSecureMethodName(rm.mappings[k]) {
        if k in before.mappings {
          assert rm.mappings[k] == before.mappings[k];
        }
      }
    }
  }

  lemma RenamableInStep(excluded: set<string>, image: Image, order: seq<string>)
    requires order != [] && forall k :: k in order ==> k in image
    ensures var init, key := order[..|order| - 1], order[|order| - 1];
      forall k :: RenamableIn(excluded, image, order, k) <==>
        RenamableIn(excluded, image, init, k) || DeclaresRenamable(excluded, ClassNameOfKey(key), image[key].methods, k)
  {
    var init, key := order[..|order| - 1], order[|order| - 1];
    forall k ensures RenamableIn(excluded, image, order, k) <==>
      RenamableIn(excluded, image, init, k) || DeclaresRenamable(excluded, ClassNameOfKey(key), image[key].methods, k)
    {
      RenamableInStepAt(excluded, image, order, k);
    }
  }

  lemma RenamableInStepAt(excluded: set<string>, image: Image, order: seq<string>, k: string)
    requires order != [] && forall k :: k in order ==> k in image
    ensures var init, key := order[..|order| - 1], order[|order| - 1];
      RenamableIn(excluded, image, order, k) <==>
        RenamableIn(excluded, image, init, k) || DeclaresRenamable(excluded, ClassNameOfKey(key), image[key].methods, k)
  {
    var init := order[..|order| - 1];
    if RenamableIn(excluded, image, init, k) {
      var j :| 0 <= j < |init| && DeclaresRenamable(excluded, ClassNameOfKey(init[j]), image[init[j]].methods, k);
      assert order[j] == init[j];
    }
    if RenamableIn(excluded, image, order, k) {
      var j :| 0 <= j < |order| && DeclaresRenamable(excluded, ClassNameOfKey(order[j]), image[order[j]].methods, k);
      if j < |init| {
        assert order[j] == init[j];
      }
    }
  }

  /**
   * Every method of the class of `key` carries the name recorded under its
   * own key in the pass `r`, or keeps its name if excluded.
   */
  predicate ClassRenamedAsRecorded(excluded: set<string>, image: Image, r: Pass, key: string) {
    && key in image && key in r.image
    && |r.image[key].methods| == |image[key].methods|
    && forall i :: 0 <= i < |image[key].methods| ==>
         RenamedAsRecorded(excluded, ClassNameOfKey(key), map[], r.mappings, image[key].methods[i], r.image[key].methods[i])
  }

  /**
   * The declaration pass from an empty mapping, over classes with distinct
   * names and legal members: each method not excluded of a visited class
   * carries the name recorded under its own key; every excluded method
   * keeps its name.
   */
  lemma DeclarationRenames(entropy: Entropy, excluded: set<string>, image: Image, order: seq<string>, draws: nat)
    requires forall k :: k in order ==> k in image
    requires forall i, j :: 0 <= i < j < |order| ==> order[i] != order[j]
    requires UniqueClassNames(image) && WellFormedMethods(image)
    ensures forall j :: 0 <= j < |order| ==>
      ClassRenamedAsRecorded(excluded, image, DeclarationPass(entropy, excluded, image, order, map[], draws), order[j])
  {
    DistinctHasNoRepeats(order);
    forall j | 0 <= j < |order|
      ensures ClassRenamedAsRecorded(excluded, image, DeclarationPass(entropy, excluded, image, order, map[], draws), order[j])
    {
      forall i | 0 <= i < |order| && i != j ensures ClassNameOfKey(order[i]) != ClassNameOfKey(order[j]) {
        assert order[i] != order[j];
      }
      DeclarationRenamesAt(entropy, excluded, image, order, draws, j);
    }
  }

  /**
   * The same for the class at one place of the order, whose class name no
   * other class of the order has, by induction on the length of the order.
   */
  lemma {:induction false} DeclarationRenamesAt(entropy: Entropy, excluded: set<string>, image: Image, order: seq<string>,
                                                draws: nat, j: nat)
    requires forall k :: k in order ==> k in image
    requires NoRepeats(order) && WellFormedMethods(image)
    requires j < |order| && forall i :: 0 <= i < |order| && i != j ==> ClassNameOfKey(order[i]) != ClassNameOfKey(order[j])
    ensures ClassRenamedAsRecorded(excluded, image, DeclarationPass(entropy, excluded, image, order, map[], draws), order[j])
    decreases |order|
  {
    if j == |order| - 1 {
      DeclarationRenamesOfLast(entropy, excluded, image, order, draws);
    } else {
      var init := order[..|order| - 1];
      var k := order[j];
      assert ClassRenamedAsRecorded(excluded, image, DeclarationPass(entropy, excluded, image, init, map[], draws), k) by {
        assert forall t :: 0 <= t < |init| ==> init[t] == order[t];
        DeclarationRenamesAt(entropy, excluded, image, init, draws, j);
      }
      assert k != order[|order| - 1];
      DeclarationRenamesOfEarlier(entropy, excluded, image, order, draws, k);
    }
  }

  /** The class visited last carries the names its own step recorded. */
  lemma DeclarationRenamesOfLast(entropy: Entropy, excluded: set<string>, image: Image, order: seq<string>, draws: nat)
    requires order != [] && forall k :: k in order ==> k in image
    requires NoRepeats(order) && WellFormedMethods(image)
    requires forall i :: 0 <= i < |order| - 1 ==> ClassNameOfKey(order[i]) != ClassNameOfKey(order[|order| - 1])
    ensures ClassRenamedAsRecorded(excluded, image, DeclarationPass(entropy, excluded, image, order, map[], draws),
                                   order[|order| - 1])
  {
    var init := order[..|order| - 1];
    var key := order[|order| - 1];
    assert forall t :: 0 <= t < |init| ==> init[t] == order[t];
    DeclarationKeys(entropy, excluded, image, init, draws);
    var before := DeclarationPass(entropy, excluded, image, init, map[], draws);
    var r := DeclarationPass(entropy, excluded, image, order, map[], draws);
    var className := ClassNameOfKey(key);
    var methods := image[key].methods;
    assert before.image[key] == image[key];
    RenamedMethods(entropy, excluded, className, before.mappings, before.draws, methods);
    forall i | 0 <= i < |methods|
      ensures RenamedAsRecorded(excluded, className, map[], r.mappings, methods[i], r.image[key].methods[i])
    {
      NoEntryOfUnvisitedClass(excluded, image, init, key, i);
      assert RenamedAsRecorded(excluded, className, before.mappings, r.mappings, methods[i], r.image[key].methods[i]);
    }
  }

  /** A class visited earlier is untouched by the last step, and its recorded names stay recorded. */
  lemma DeclarationRenamesOfEarlier(entropy: Entropy, excluded: set<string>, image: Image, order: seq<string>,
                                    draws: nat, k: string)
    requires order != [] && forall k :: k in order ==> k in image
    requires k in image && k != order[|order| - 1]
    requires ClassRenamedAsRecorded(excluded, image,
                                    DeclarationPass(entropy, excluded, image, order[..|order| - 1], map[], draws), k)
    ensures ClassRenamedAsRecorded(excluded, image, DeclarationPass(entropy, excluded, image, order, map[], draws), k)
  {
    var init := order[..|order| - 1];
    var key := order[|order| - 1];
    var before := DeclarationPass(entropy, excluded, image, init, map[], draws);
    var r := DeclarationPass(entropy, excluded, image, order, map[], draws);
    var methods := before.image[key].methods;
    RenameKeepsEntries(entropy, excluded, ClassNameOfKey(key), before.mappings, before.draws, methods);
    assert r.image[k] == before.image[k];
    forall i | 0 <= i < |image[k].methods|
      ensures RenamedAsRecorded(excluded, ClassNameOfKey(k), map[], r.mappings, image[k].methods[i], r.image[k].methods[i])
    {
      assert RenamedAsRecorded(excluded, ClassNameOfKey(k), map[], before.mappings, image[k].methods[i], before.image[k].methods[i]);
    }
  }

  /**
   * Before class `key` is visited, no entry carries one of its method keys:
   * every entry is the key of a method of a visited class, and a key names
   * its class.
   */
  lemma NoEntryOfUnvisitedClass(excluded: set<string>, image: Image, visited: seq<string>, key: string, i: nat)
    requires forall k :: k in visited ==> k in image
    requires key in image && forall t :: 0 <= t < |visited| ==> ClassNameOfKey(visited[t]) != ClassNameOfKey(key)
    requires WellFormedMethods(image)
    requires i < |image[key].methods|
    ensures !RenamableIn(excluded, image, visited, KeyOf(ClassNameOfKey(key), image[key].methods[i]))
  {
    var m := image[key].methods[i];
    var mk := KeyOf(ClassNameOfKey(key), m);
    forall j, t | 0 <= j < |visited| && 0 <= t < |image[visited[j]].methods|
      ensures KeyOf(ClassNameOfKey(visited[j]), image[visited[j]].methods[t]) != mk
    {
      var other := image[visited[j]].methods[t];
      MethodKeyOwner(ClassNameOfKey(visited[j]), other.name, other.desc);
      MethodKeyOwner(ClassNameOfKey(key), m.name, m.desc);
    }
  }

  // ---------------------------------------------------------------------
  // Override pass

  /** Whether `m` has the given name and descriptor. */
  predicate HasSignature(m: MethodNode, name: string, desc: string) {
    m.name == name && m.desc == desc
  }

  /** `findMatchingMethod`: the first method with the given name and descriptor, None (null) if there is none. */
  function FindMatchingMethod(methods: seq<MethodNode>, name: string, desc: string): (r: Option<MethodNode>)
    ensures r.None? <==> forall i :: 0 <= i < |methods| ==> !HasSignature(methods[i], name, desc)
    ensures r.Some? ==> exists i :: 0 <= i < |methods| && methods[i] == r.value && HasSignature(r.value, name, desc)
                                    && forall j :: 0 <= j < i ==> !HasSignature(methods[j], name, desc)
  {
    if methods == [] then None
    else if HasSignature(methods[0], name, desc) then Some(methods[0])
    else
      var r := FindMatchingMethod(methods[1..], name, desc);
      assert forall i :: 1 <= i < |methods| ==> methods[i] == methods[1..][i - 1];
      assert r.Some? ==> exists i :: 0 <= i < |methods| && methods[i] == r.value && HasSignature(r.value, name, desc)
                                     && forall j :: 0 <= j < i ==> !HasSignature(methods[j], name, desc) by {
        if r.Some? {
          var i :| 0 <= i < |methods[1..]| && methods[1..][i] == r.value && HasSignature(r.value, name, desc)
                   && forall j :: 0 <= j < i ==> !HasSignature(methods[1..][j], name, desc);
          assert methods[i + 1] == r.value;
          forall j | 0 <= j < i + 1 ensures !HasSignature(methods[j], name, desc) {
            if j > 0 {
              assert methods[j] == methods[1..][j - 1];
            }
          }
        }
      }
      r
  }

  /** The annotation descriptors of a method; a null list holds none. */
  function Annotations(m: MethodNode): seq<string> {
    match m.visibleAnnotations
    case None => []
    case Some(list) => list
  }

  /**
   * `preserveOverrideAnnotation`: the list becomes non-null and holds the
   * Override annotation, which is appended only when it is absent.
   */
  function PreserveOverrideAnnotation(m: MethodNode): (r: MethodNode)
    ensures r == m.(visibleAnnotations := r.visibleAnnotations)
    ensures r.visibleAnnotations.Some? && OverrideAnnotation in Annotations(r)
    ensures Annotations(m) <= Annotations(r) && |Annotations(r)| <= |Annotations(m)| + 1
    ensures multiset(Annotations(r))[OverrideAnnotation] == if OverrideAnnotation in Annotations(m) then
              multiset(Annotations(m))[OverrideAnnotation] else 1
    ensures m.visibleAnnotations.Some? && OverrideAnnotation in Annotations(m) ==> r == m
  {
    var list := Annotations(m);
    if OverrideAnnotation in list then m.(visibleAnnotations := Some(list))
    else m.(visibleAnnotations := Some(list + [OverrideAnnotation]))
  }

  /** Applying `preserveOverrideAnnotation` twice is the same as once. */
  lemma PreserveOverrideIdempotent(m: MethodNode)
    ensures PreserveOverrideAnnotation(PreserveOverrideAnnotation(m)) == PreserveOverrideAnnotation(m)
  {
  }

  /**
   * `handleOverriddenMethods` for one method: renamed, and marked as an
   * override, exactly when the superclass node of the index declares a
   * method with its current name and descriptor whose key has an entry.
   */
  function OverriddenMethod(mappings: map<string, string>, superClassName: string,
                            superMethods: seq<MethodNode>, m: MethodNode): (r: MethodNode)
    ensures var key := MethodKey(superClassName, m.name, m.desc);
      if (exists i :: 0 <= i < |superMethods| && HasSignature(superMethods[i], m.name, m.desc)) && key in mappings
      then r == PreserveOverrideAnnotation(m.(name := mappings[key]))
      else r == m
  {
    match FindMatchingMethod(superMethods, m.name, m.desc)
    case None => m
    case Some(superMethod) =>
      var superMethodSignature := MethodKey(superClassName, superMethod.name, superMethod.desc);
      if superMethodSignature in mappings then
        PreserveOverrideAnnotation(m.(name := mappings[superMethodSignature]))
      else m
  }

  /**
   * `handleOverriddenMethods` for one class: only a class whose superclass
   * is a class of the index has its methods looked at.
   */
  function OverrideClass(mappings: map<string, string>, superclasses: map<string, string>,
                         classes: map<string, ClassNode>, className: string, node: ClassNode): (r: ClassNode)
    ensures r == node.(methods := r.methods) && |r.methods| == |node.methods|
    ensures className in superclasses && superclasses[className] in classes ==>
      forall i :: 0 <= i < |node.methods| ==>
        r.methods[i] == OverriddenMethod(mappings, superclasses[className], classes[superclasses[className]].methods, node.methods[i])
    ensures !(className in superclasses && superclasses[className] in classes) ==> r == node
  {
    if className in superclasses && superclasses[className] in classes then
      var superClassName := superclasses[className];
      var superMethods := classes[superClassName].methods;
      node.(methods := seq(|node.methods|, i requires 0 <= i < |node.methods| =>
                                              OverriddenMethod(mappings, superClassName, superMethods, node.methods[i])))
    else node
  }

  /** The second loop of `transform`; the mapping is only read, so the order of the classes is irrelevant. */
  function OverridePass(mappings: map<string, string>, superclasses: map<string, string>,
                        classes: map<string, ClassNode>, image: Image): (r: Image)
    ensures r.Keys == image.Keys
    ensures forall k :: k in image ==> r[k] == OverrideClass(mappings, superclasses, classes, ClassNameOfKey(k), image[k])
  {
    map k | k in image :: OverrideClass(mappings, superclasses, classes, ClassNameOfKey(k), image[k])
  }

  // ---------------------------------------------------------------------
  // Call-site pass

  /** `findNewMethodNameInHierarchy` over the chain it is given: the entry of the first class that has one. */
  function FindNewMethodName(mappings: map<string, string>, chain: seq<string>, name: string, desc: string): (r: Option<string>)
    ensures r.None? <==> forall i :: 0 <= i < |chain| ==> MethodKey(chain[i], name, desc) !in mappings
  {
    if chain == [] then None
    else if MethodKey(chain[0], name, desc) in mappings then Some(mappings[MethodKey(chain[0], name, desc)])
    else
      assert forall i :: 1 <= i < |chain| ==> chain[i] == chain[1..][i - 1];
      FindNewMethodName(mappings, chain[1..], name, desc)
  }

  /** A name found is the entry of a class of the chain before which no class has one. */
  lemma {:induction false} FindNewMethodNameIsFirst(mappings: map<string, string>, chain: seq<string>, name: string, desc: string)
    requires FindNewMethodName(mappings, chain, name, desc).Some?
    ensures exists i :: 0 <= i < |chain| && MethodKey(chain[i], name, desc) in mappings
                        && FindNewMethodName(mappings, chain, name, desc) == Some(mappings[MethodKey(chain[i], name, desc)])
                        && forall j :: 0 <= j < i ==> MethodKey(chain[j], name, desc) !in mappings
    decreases |chain|
  {
    if MethodKey(chain[0], name, desc) !in mappings {
      var tail := chain[1..];
      FindNewMethodNameIsFirst(mappings, tail, name, desc);
      var i :| 0 <= i < |tail| && MethodKey(tail[i], name, desc) in mappings
        && FindNewMethodName(mappings, tail, name, desc) == Some(mappings[MethodKey(tail[i], name, desc)])
        && forall j :: 0 <= j < i ==> MethodKey(tail[j], name, desc) !in mappings;
      assert chain[i + 1] == tail[i];
      forall j | 0 <= j < i + 1 ensures MethodKey(chain[j], name, desc) !in mappings {
        if j > 0 {
          assert chain[j] == tail[j - 1];
        }
      }
    }
  }

  /** The ancestry `getHierarchy` lists for a class name. */
  function AncestryOf(superclasses: map<string, string>, classes: set<string>, className: string): (r: seq<string>)
    requires Hierarchy.ChainsEnd(superclasses)
    ensures |r| >= 1 && r[0] == className
  {
    Hierarchy.Ancestry(superclasses, classes, className, |superclasses|)
  }

  /**
   * `updateMethodReferences` for one instruction: a method instruction
   * takes the name found along its owner's ancestry, if any; owner, opcode
   * and descriptor stay, and other instructions are untouched.
   */
  function UpdatedInsn(mappings: map<string, string>, superclasses: map<string, string>, classes: set<string>,
                       insn: Insn): (r: Insn)
    requires Hierarchy.ChainsEnd(superclasses)
    ensures !insn.MethodInsn? ==> r == insn
    ensures insn.MethodInsn? ==> r.MethodInsn? && r == insn.(name := r.name)
    ensures insn.MethodInsn? ==>
      var found := FindNewMethodName(mappings, AncestryOf(superclasses, classes, Dotted(insn.owner)), insn.name, insn.desc);
      r.name == if found.Some? then found.value else insn.name
  {
    match insn
    case MethodInsn(opcode, owner, name, desc) =>
      var newName := FindNewMethodName(mappings, AncestryOf(superclasses, classes, Dotted(owner)), name, desc);
      if newName.Some? then MethodInsn(opcode, owner, newName.value, desc) else insn
    case _ => insn
  }

  function UpdatedMethod(mappings: map<string, string>, superclasses: map<string, string>, classes: set<string>,
                         m: MethodNode): (r: MethodNode)
    requires Hierarchy.ChainsEnd(superclasses)
  {
    m.(instructions := seq(|m.instructions|, i requires 0 <= i < |m.instructions| =>
                                               UpdatedInsn(mappings, superclasses, classes, m.instructions[i])))
  }

  function UpdatedClass(mappings: map<string, string>, superclasses: map<string, string>, classes: set<string>,
                        node: ClassNode): (r: ClassNode)
    requires Hierarchy.ChainsEnd(superclasses)
  {
    node.(methods := seq(|node.methods|, i requires 0 <= i < |node.methods| =>
                                           UpdatedMethod(mappings, superclasses, classes, node.methods[i])))
  }

  /** The third loop of `transform`: every instruction of every method of every class. */
  function CallSitePass(mappings: map<string, string>, superclasses: map<string, string>, classes: set<string>,
                        image: Image): (r: Image)
    requires Hierarchy.ChainsEnd(superclasses)
  {
    map k | k in image :: UpdatedClass(mappings, superclasses, classes, image[k])
  }

  lemma DeclarationKeysIfDistinct(entropy: Entropy, excluded: set<string>, image: Image, order: seq<string>, draws: nat)
    requires forall k :: k in order ==> k in image
    ensures NoRepeats(order) ==> var r := DeclarationPass(entropy, excluded, image, order, map[], draws);
      forall key :: key in r.mappings <==> RenamableIn(excluded, image, order, key)
  {
    if NoRepeats(order) {
      DeclarationKeys(entropy, excluded, image, order, draws);
    }
  }

  /**
   * `transform`: the three passes, with the mapping reset first. Every class
   * keeps its entry, its methods (by count) and everything but its methods;
   * the mapping holds exactly the keys of the methods not excluded of the
   * classes visited.
   */
  function TransformResult(entropy: Entropy, excluded: set<string>, superclasses: map<string, string>,
                           classes: map<string, ClassNode>, image: Image, order: seq<string>, draws: nat): (r: Pass)
    requires Hierarchy.ChainsEnd(superclasses)
    requires forall k :: k in order ==> k in image
    ensures r.image.Keys == image.Keys && r.draws >= draws
    ensures forall k :: k in image ==> r.image[k] == image[k].(methods := r.image[k].methods)
                                       && |r.image[k].methods| == |image[k].methods|
    ensures NoRepeats(order) ==> forall key :: key in r.mappings <==> RenamableIn(excluded, image, order, key)
  {
    DeclarationKeysIfDistinct(entropy, excluded, image, order, draws);
    var declared := DeclarationPass(entropy, excluded, image, order, map[], draws);
    var overridden := OverridePass(declared.mappings, superclasses, classes, declared.image);
    Pass(CallSitePass(declared.mappings, superclasses, classes.Keys, overridden), declared.mappings, declared.draws)
  }

  // ---------------------------------------------------------------------
  // Overrides after renaming

  /** No method of the index carries a name of the generated shape: its nodes hold the original names. */
  predicate OriginalNames(classes: map<string, ClassNode>) {
    forall c, i :: c in classes && 0 <= i < |classes[c].methods| ==> !IsSecureMethodName(classes[c].methods[i].name)
  }

  /**
   * The override pass looks the current name of a method up among the
   * original names of the superclass node: a method the declaration pass
   * renamed is never matched.
   */
  lemma OverrideMissesRenamedMethod(mappings: map<string, string>, superClassName: string,
                                    superMethods: seq<MethodNode>, m: MethodNode)
    requires IsSecureMethodName(m.name)
    requires forall i :: 0 <= i < |superMethods| ==> !IsSecureMethodName(superMethods[i].name)
    ensures OverriddenMethod(mappings, superClassName, superMethods, m) == m
  {
  }

  /** A method alone in its class, not excluded, is renamed on the current draw. */
  lemma RenameSingle(entropy: Entropy, excluded: set<string>, className: string,
                     mappings: map<string, string>, draws: nat, m: MethodNode)
    requires m.name !in excluded && KeyOf(className, m) !in mappings
    ensures var newName := NewMethodName(entropy, m.name, draws);
      RenameMethods(entropy, excluded, className, mappings, draws, [m])
        == Renaming(mappings[KeyOf(className, m) := newName], draws + 1, [m.(name := newName)])
  {
    assert [m][..0] == [];
  }

  /** The declaration pass over two classes that each declare only `m`: the first visited draws first. */
  lemma DeclareTwo(entropy: Entropy, excluded: set<string>, image: Image, a: string, b: string,
                   m: MethodNode, draws: nat)
    requires a in image && b in image && ClassNameOfKey(a) != ClassNameOfKey(b)
    requires image[a].methods == [m] && image[b].methods == [m]
    requires IsLegalMember(m.name, m.desc) && m.name !in excluded
    ensures DeclaredAs(DeclarationPass(entropy, excluded, image, [a, b], map[], draws), a, b, m,
                       NewMethodName(entropy, m.name, draws), NewMethodName(entropy, m.name, draws + 1))
  {
    var ka, kb := KeyOf(ClassNameOfKey(a), m), KeyOf(ClassNameOfKey(b), m);
    MethodKeyOwner(ClassNameOfKey(a), m.name, m.desc);
    MethodKeyOwner(ClassNameOfKey(b), m.name, m.desc);
    var na, nb := NewMethodName(entropy, m.name, draws), NewMethodName(entropy, m.name, draws + 1);
    var first := DeclareFirst(entropy, excluded, image, a, m, draws);
    assert [a, b][..1] == [a];
    assert first.image[b] == image[b];
    RenameSingle(entropy, excluded, ClassNameOfKey(b), first.mappings, draws + 1, m);
    assert DeclarationPass(entropy, excluded, image, [a, b], map[], draws)
        == Pass(first.image[b := image[b].(methods := [m.(name := nb)])], map[ka := na, kb := nb], draws + 2);
  }

  /** The declaration pass over one class that declares only `m`. */
  lemma DeclareFirst(entropy: Entropy, excluded: set<string>, image: Image, a: string, m: MethodNode, draws: nat)
    returns (first: Pass)
    requires a in image && image[a].methods == [m] && m.name !in excluded
    ensures var na := NewMethodName(entropy, m.name, draws);
      && first == Pass(image[a := image[a].(methods := [m.(name := na)])], map[KeyOf(ClassNameOfKey(a), m) := na], draws + 1)
      && DeclarationPass(entropy, excluded, image, [a], map[], draws) == first
  {
    var na := NewMethodName(entropy, m.name, draws);
    assert [a][..0] == [];
    assert DeclarationPass(entropy, excluded, image, [], map[], draws) == Pass(image, map[], draws);
    RenameSingle(entropy, excluded, ClassNameOfKey(a), map[], draws, m);
    first := Pass(image[a := image[a].(methods := [m.(name := na)])], map[KeyOf(ClassNameOfKey(a), m) := na], draws + 1);
  }

  /** Entries `a` and `b` each declare only `m`, renamed to `na` and `nb`, and the mapping holds just those two. */
  predicate DeclaredAs(r: Pass, a: string, b: string, m: MethodNode, na: string, nb: string) {
    && r.mappings == map[KeyOf(ClassNameOfKey(a), m) := na, KeyOf(ClassNameOfKey(b), m) := nb]
    && a in r.image && r.image[a].methods == [m.(name := na)]
    && b in r.image && r.image[b].methods == [m.(name := nb)]
  }

  /** Two different generated names recorded under two different keys keep the two declarations apart. */
  lemma DeclaredAsIsApart(r: Pass, a: string, b: string, m: MethodNode, na: string, nb: string)
    requires DeclaredAs(r, a, b, m, na, nb) && na != nb
    requires KeyOf(ClassNameOfKey(a), m) != KeyOf(ClassNameOfKey(b), m)
    requires IsSecureMethodName(na) && IsSecureMethodName(nb)
    ensures DeclaredApart(r, a, b, m) && DeclaredApart(r, b, a, m)
  {
  }

  /**
   * Entries `a` and `b` each declare only `m`, renamed to generated names
   * that differ and that the mapping records under their keys.
   */
  predicate DeclaredApart(r: Pass, a: string, b: string, m: MethodNode) {
    var ka, kb := KeyOf(ClassNameOfKey(a), m), KeyOf(ClassNameOfKey(b), m);
    && ka in r.mappings && kb in r.mappings && r.mappings[ka] != r.mappings[kb]
    && IsSecureMethodName(r.mappings[ka]) && IsSecureMethodName(r.mappings[kb])
    && a in r.image && r.image[a].methods == [m.(name := r.mappings[ka])]
    && b in r.image && r.image[b].methods == [m.(name := r.mappings[kb])]
  }

  /** A two-key enumeration lists the two keys in one of the two orders. */
  lemma EnumerationOfTwo(order: seq<string>, a: string, b: string)
    requires a != b && IsEnumeration(order, {a, b})
    ensures order == [a, b] || order == [b, a]
  {
    assert a in order && b in order;
    forall i | 0 <= i < |order| ensures order[i] == a || order[i] == b {
      assert order[i] in order;
    }
    if |order| > 2 {
      ThreeOfTwo(order, a, b);
      assert false;
    }
    if |order| < 2 {
      assert false;
    }
  }

  /** Every method of the image carries a generated name. */
  predicate SecureNames(image: Image) {
    forall k, i :: k in image && 0 <= i < |image[k].methods| ==> IsSecureMethodName(image[k].methods[i].name)
  }

  /** Over an image whose methods all carry generated names, the override pass changes nothing. */
  lemma OverridePassKeepsRenamed(mappings: map<string, string>, superclasses: map<string, string>,
                                 classes: map<string, ClassNode>, image: Image)
    requires OriginalNames(classes)
    requires SecureNames(image)
    ensures OverridePass(mappings, superclasses, classes, image) == image
  {
    var r := OverridePass(mappings, superclasses, classes, image);
    forall k | k in image ensures r[k] == image[k] {
      var node := image[k];
      var className := ClassNameOfKey(k);
      if className in superclasses && superclasses[className] in classes {
        var superMethods := classes[superclasses[className]].methods;
        forall i | 0 <= i < |node.methods| ensures r[k].methods[i] == node.methods[i] {
          OverrideMissesRenamedMethod(mappings, superclasses[className], superMethods, node.methods[i]);
        }
        assert r[k].methods == node.methods;
      }
    }
  }

  /** The call-site pass rewrites instructions only: every declaration keeps its name. */
  lemma CallSitePassKeepsNames(mappings: map<string, string>, superclasses: map<string, string>, classes: set<string>,
                               image: Image, k: string, i: nat)
    requires Hierarchy.ChainsEnd(superclasses)
    requires k in image && i < |image[k].methods|
    ensures var r := CallSitePass(mappings, superclasses, classes, image);
      k in r && |r[k].methods| == |image[k].methods| && r[k].methods[i].name == image[k].methods[i].name
  {
  }

  /** Three entries drawn from two values repeat one. */
  lemma ThreeOfTwo(s: seq<string>, a: string, b: string)
    requires |s| > 2 && forall i :: 0 <= i < |s| ==> s[i] == a || s[i] == b
    ensures s[0] == s[1] || s[1] == s[2] || s[0] == s[2]
  {
  }

  /**
   * Class `C` extends `S` and both declare `m`. The declaration pass names
   * the two declarations on two draws, the override pass does not unify
   * them, and a call site whose owner is `S` takes the name of `S`'s
   * declaration. So whenever the two draws give different names, a virtual
   * call through `S` on an instance of `C` no longer reaches `C`'s method.
   */
  lemma {:induction false} OverrideIsLost(entropy: Entropy, excluded: set<string>, superclasses: map<string, string>,
                                          classes: map<string, ClassNode>, keyS: string, keyC: string,
                                          nodeS: ClassNode, nodeC: ClassNode, m: MethodNode,
                                          order: seq<string>, draws: nat)
    requires Hierarchy.ChainsEnd(superclasses) && OriginalNames(classes)
    requires ClassNameOfKey(keyS) != ClassNameOfKey(keyC)
    requires ClassNameOfKey(keyC) in superclasses && superclasses[ClassNameOfKey(keyC)] == ClassNameOfKey(keyS)
    requires ClassNameOfKey(keyS) in classes && classes[ClassNameOfKey(keyS)] == nodeS
    requires nodeS.methods == [m] && nodeC.methods == [m]
    requires IsLegalMember(m.name, m.desc) && m.name !in excluded
    requires IsEnumeration(order, {keyS, keyC})
    requires NewMethodName(entropy, m.name, draws) != NewMethodName(entropy, m.name, draws + 1)
    ensures forall k :: k in order ==> k in map[keyS := nodeS, keyC := nodeC]
    ensures var r := TransformResult(entropy, excluded, superclasses, classes, map[keyS := nodeS, keyC := nodeC], order, draws);
      var nameS, nameC := FirstMethodName(r.image, keyS), FirstMethodName(r.image, keyC);
      && nameS.Some? && nameC.Some? && nameC != nameS
      && FindNewMethodName(r.mappings, AncestryOf(superclasses, classes.Keys, ClassNameOfKey(keyS)), m.name, m.desc) == nameS
  {
    var image := map[keyS := nodeS, keyC := nodeC];
    var cS := ClassNameOfKey(keyS);
    DeclareTwoInAnyOrder(entropy, excluded, keyS, keyC, nodeS, nodeC, m, order, draws);
    var declared := DeclarationPass(entropy, excluded, image, order, map[], draws);
    var ks, kc := KeyOf(cS, m), KeyOf(ClassNameOfKey(keyC), m);
    SecureNamesOfTwo(declared.image, keyS, keyC, m, declared.mappings[ks], declared.mappings[kc]);
    ResultKeepsDeclaredNames(entropy, excluded, superclasses, classes, image, order, draws, keyS);
    ResultKeepsDeclaredNames(entropy, excluded, superclasses, classes, image, order, draws, keyC);
    var chain := AncestryOf(superclasses, classes.Keys, cS);
    assert MethodKey(chain[0], m.name, m.desc) == ks;
    assert FindNewMethodName(declared.mappings, chain, m.name, m.desc) == Some(declared.mappings[ks]);
  }

  /**
   * When the declaration pass leaves only generated names, the later passes
   * change no declaration: the run ends with the names and the entries of
   * the declaration pass.
   */
  lemma ResultKeepsDeclaredNames(entropy: Entropy, excluded: set<string>, superclasses: map<string, string>,
                                 classes: map<string, ClassNode>, image: Image, order: seq<string>, draws: nat, k: string)
    requires Hierarchy.ChainsEnd(superclasses) && OriginalNames(classes)
    requires forall k :: k in order ==> k in image
    requires SecureNames(DeclarationPass(entropy, excluded, image, order, map[], draws).image)
    requires k in image && image[k].methods != []
    ensures var declared := DeclarationPass(entropy, excluded, image, order, map[], draws);
      var r := TransformResult(entropy, excluded, superclasses, classes, image, order, draws);
      r.mappings == declared.mappings && FirstNameKept(declared.image, r.image, k)
  {
    var declared := DeclarationPass(entropy, excluded, image, order, map[], draws);
    assert SameButMethodNames(image[k], declared.image[k]);
    LaterPassesKeepNames(declared.mappings, superclasses, classes, declared.image, k);
  }

  /** The name of the first method of entry `k`, if there is one. */
  function FirstMethodName(image: Image, k: string): (r: Option<string>)
    ensures r.Some? <==> k in image && image[k].methods != []
  {
    if k in image && image[k].methods != [] then Some(image[k].methods[0].name) else None
  }

  /** Entry `k` has a first method in both images, under the same name. */
  predicate FirstNameKept(before: Image, after: Image, k: string) {
    && k in before && k in after && |after[k].methods| == |before[k].methods| > 0
    && after[k].methods[0].name == before[k].methods[0].name
  }

  /** Over generated names only, the override and call-site passes keep the first method's name. */
  lemma LaterPassesKeepNames(mappings: map<string, string>, superclasses: map<string, string>,
                             classes: map<string, ClassNode>, image: Image, k: string)
    requires Hierarchy.ChainsEnd(superclasses) && OriginalNames(classes) && SecureNames(image)
    requires k in image && image[k].methods != []
    ensures FirstNameKept(image, CallSitePass(mappings, superclasses, classes.Keys, OverridePass(mappings, superclasses, classes, image)), k)
  {
    OverridePassKeepsRenamed(mappings, superclasses, classes, image);
    CallSitePassKeepsNames(mappings, superclasses, classes.Keys, image, k, 0);
  }

  /** Two classes each declaring `m` under a generated name carry only generated names. */
  lemma SecureNamesOfTwo(image: Image, a: string, b: string, m: MethodNode, nameA: string, nameB: string)
    requires image.Keys == {a, b}
    requires image[a].methods == [m.(name := nameA)] && image[b].methods == [m.(name := nameB)]
    requires IsSecureMethodName(nameA) && IsSecureMethodName(nameB)
    ensures SecureNames(image)
  {
    forall k, i | k in image && 0 <= i < |image[k].methods|
      ensures IsSecureMethodName(image[k].methods[i].name)
    {
      assert k in {a, b} && i == 0;
    }
  }

  /** `DeclareTwo` in whichever order the enumeration lists the two classes. */
  lemma DeclareTwoInAnyOrder(entropy: Entropy, excluded: set<string>, a: string, b: string,
                             nodeA: ClassNode, nodeB: ClassNode, m: MethodNode, order: seq<string>, draws: nat)
    requires ClassNameOfKey(a) != ClassNameOfKey(b)
    requires nodeA.methods == [m] && nodeB.methods == [m]
    requires IsLegalMember(m.name, m.desc) && m.name !in excluded
    requires IsEnumeration(order, {a, b})
    requires NewMethodName(entropy, m.name, draws) != NewMethodName(entropy, m.name, draws + 1)
    ensures forall k :: k in order ==> k in map[a := nodeA, b := nodeB]
    ensures DeclaredApart(DeclarationPass(entropy, excluded, map[a := nodeA, b := nodeB], order, map[], draws), a, b, m)
  {
    var image := map[a := nodeA, b := nodeB];
    assert a != b;
    MethodKeyOwner(ClassNameOfKey(a), m.name, m.desc);
    MethodKeyOwner(ClassNameOfKey(b), m.name, m.desc);
    EnumerationOfTwo(order, a, b);
    var r := DeclarationPass(entropy, excluded, image, order, map[], draws);
    var n0, n1 := NewMethodName(entropy, m.name, draws), NewMethodName(entropy, m.name, draws + 1);
    if order == [a, b] {
      DeclareTwo(entropy, excluded, image, a, b, m, draws);
      DeclaredAsIsApart(r, a, b, m, n0, n1);
    } else {
      DeclareTwo(entropy, excluded, image, b, a, m, draws);
      DeclaredAsIsApart(r, b, a, m, n0, n1);
    }
  }

  /** The entry of the last class of `chain` that has one: the outermost declaration of the signature. */
  function ResolvedName(mappings: map<string, string>, chain: seq<string>, name: string, desc: string): (r: Option<string>)
    ensures r.None? <==> forall i :: 0 <= i < |chain| ==> MethodKey(chain[i], name, desc) !in mappings
    decreases |chain|
  {
    if chain == [] then None
    else
      var last := MethodKey(chain[|chain| - 1], name, desc);
      if last in mappings then Some(mappings[last])
      else
        var init := chain[..|chain| - 1];
        assert forall i :: 0 <= i < |init| ==> chain[i] == init[i];
        ResolvedName(mappings, init, name, desc)
  }

  /** A resolved name is the entry of a class of the chain after which no class has one. */
  lemma {:induction false} ResolvedNameIsOutermost(mappings: map<string, string>, chain: seq<string>, name: string, desc: string)
    requires ResolvedName(mappings, chain, name, desc).Some?
    ensures exists i :: 0 <= i < |chain| && MethodKey(chain[i], name, desc) in mappings
                        && ResolvedName(mappings, chain, name, desc) == Some(mappings[MethodKey(chain[i], name, desc)])
                        && forall j :: i < j < |chain| ==> MethodKey(chain[j], name, desc) !in mappings
    decreases |chain|
  {
    var n := |chain| - 1;
    if MethodKey(chain[n], name, desc) !in mappings {
      var init := chain[..n];
      ResolvedNameIsOutermost(mappings, init, name, desc);
      var i :| 0 <= i < |init| && MethodKey(init[i], name, desc) in mappings
        && ResolvedName(mappings, init, name, desc) == Some(mappings[MethodKey(init[i], name, desc)])
        && forall j :: i < j < |init| ==> MethodKey(init[j], name, desc) !in mappings;
      assert chain[i] == init[i];
      forall j | i < j < |chain| ensures MethodKey(chain[j], name, desc) !in mappings {
        if j < n {
          assert chain[j] == init[j];
        }
      }
    }
  }

  /** Classes below the outermost declaration do not change the resolution. */
  lemma {:induction false} ResolvedNameIgnoresPrefix(mappings: map<string, string>, prefix: seq<string>,
                                                     chain: seq<string>, name: string, desc: string)
    requires ResolvedName(mappings, chain, name, desc).Some?
    ensures ResolvedName(mappings, prefix + chain, name, desc) == ResolvedName(mappings, chain, name, desc)
    decreases |chain|
  {
    var whole := prefix + chain;
    assert whole[|whole| - 1] == chain[|chain| - 1];
    if MethodKey(chain[|chain| - 1], name, desc) !in mappings {
      var init := chain[..|chain| - 1];
      assert ResolvedName(mappings, chain, name, desc) == ResolvedName(mappings, init, name, desc);
      assert whole[..|whole| - 1] == prefix + init;
      ResolvedNameIgnoresPrefix(mappings, prefix, init, name, desc);
      assert ResolvedName(mappings, whole, name, desc) == ResolvedName(mappings, prefix + init, name, desc);
    }
  }

  /** The name a declaration of `className` should carry: its signature resolved along the class's ancestry. */
  function CorrectedMethod(mappings: map<string, string>, superclasses: map<string, string>, classes: set<string>,
                           className: string, m: MethodNode): (r: MethodNode)
    requires Hierarchy.ChainsEnd(superclasses)
    ensures SameButName(m, r)
  {
    match ResolvedName(mappings, AncestryOf(superclasses, classes, className), m.name, m.desc)
    case None => m
    case Some(newName) => m.(name := newName)
  }

  /** The name a method instruction should carry: its signature resolved along its owner's ancestry. */
  function CorrectedInsn(mappings: map<string, string>, superclasses: map<string, string>, classes: set<string>,
                         insn: Insn): (r: Insn)
    requires Hierarchy.ChainsEnd(superclasses)
    ensures !insn.MethodInsn? ==> r == insn
    ensures insn.MethodInsn? ==> r.MethodInsn? && r == insn.(name := r.name)
  {
    match insn
    case MethodInsn(opcode, owner, name, desc) =>
      (match ResolvedName(mappings, AncestryOf(superclasses, classes, Dotted(owner)), name, desc)
       case None => insn
       case Some(newName) => MethodInsn(opcode, owner, newName, desc))
    case _ => insn
  }

  function CorrectedClass(mappings: map<string, string>, superclasses: map<string, string>, classes: set<string>,
                          className: string, node: ClassNode): ClassNode
    requires Hierarchy.ChainsEnd(superclasses)
  {
    node.(methods := seq(|node.methods|, i requires 0 <= i < |node.methods| =>
      var m := CorrectedMethod(mappings, superclasses, classes, className, node.methods[i]);
      m.(instructions := seq(|m.instructions|, j requires 0 <= j < |m.instructions| =>
                               CorrectedInsn(mappings, superclasses, classes, m.instructions[j])))))
  }

  /**
   * A run with the override pass and the call-site pass replaced by one
   * resolution: the declaration pass records the names as before, then
   * every declaration and every call site takes the entry of the outermost
   * class of its ancestry that has one for its original signature.
   */
  function CorrectedTransformResult(entropy: Entropy, excluded: set<string>, superclasses: map<string, string>,
                                    classes: map<string, ClassNode>, image: Image, order: seq<string>, draws: nat): (r: Pass)
    requires Hierarchy.ChainsEnd(superclasses)
    requires forall k :: k in order ==> k in image
    ensures r.image.Keys == image.Keys && r.draws >= draws
    ensures forall k :: k in image ==> r.image[k] == image[k].(methods := r.image[k].methods)
                                       && |r.image[k].methods| == |image[k].methods|
    ensures NoRepeats(order) ==> forall key :: key in r.mappings <==> RenamableIn(excluded, image, order, key)
  {
    DeclarationKeysIfDistinct(entropy, excluded, image, order, draws);
    var declared := DeclarationPass(entropy, excluded, image, order, map[], draws);
    Pass(map k | k in image :: CorrectedClass(declared.mappings, superclasses, classes.Keys, ClassNameOfKey(k), image[k]),
         declared.mappings, declared.draws)
  }

  /**
   * Dispatch survives the corrected renaming: a method instruction whose
   * owner is `className` or one of its ancestors, and whose signature
   * resolves there, names exactly what the declaration of that signature in
   * `className` is renamed to.
   */
  lemma VirtualCallReachesOverride(mappings: map<string, string>, superclasses: map<string, string>, classes: set<string>,
                                   className: string, m: MethodNode, opcode: int, owner: string)
    requires Hierarchy.ChainsEnd(superclasses)
    requires Dotted(owner) in AncestryOf(superclasses, classes, className)
    requires ResolvedName(mappings, AncestryOf(superclasses, classes, Dotted(owner)), m.name, m.desc).Some?
    ensures CorrectedInsn(mappings, superclasses, classes, MethodInsn(opcode, owner, m.name, m.desc)).name
         == CorrectedMethod(mappings, superclasses, classes, className, m).name
  {
    var chain := AncestryOf(superclasses, classes, className);
    var i :| 0 <= i < |chain| && chain[i] == Dotted(owner);
    Hierarchy.AncestrySuffix(superclasses, classes, className, |superclasses|, i);
    ResolvedOnSuffix(mappings, chain, i, m.name, m.desc);
  }

  /** A chain resolves like any of its suffixes that resolves at all. */
  lemma ResolvedOnSuffix(mappings: map<string, string>, chain: seq<string>, i: nat, name: string, desc: string)
    requires i < |chain| && ResolvedName(mappings, chain[i..], name, desc).Some?
    ensures ResolvedName(mappings, chain, name, desc) == ResolvedName(mappings, chain[i..], name, desc)
  {
    assert chain == chain[..i] + chain[i..];
    ResolvedNameIgnoresPrefix(mappings, chain[..i], chain[i..], name, desc);
  }

  /** An overriding declaration is renamed like the declaration it overrides, once that one resolves. */
  lemma OverrideKeepsName(mappings: map<string, string>, superclasses: map<string, string>, classes: set<string>,
                          className: string, m: MethodNode)
    requires Hierarchy.ChainsEnd(superclasses)
    requires className in superclasses && superclasses[className] in classes
    requires ResolvedName(mappings, AncestryOf(superclasses, classes, superclasses[className]), m.name, m.desc).Some?
    ensures CorrectedMethod(mappings, superclasses, classes, className, m).name
         == CorrectedMethod(mappings, superclasses, classes, superclasses[className], m).name
  {
    var chain := AncestryOf(superclasses, classes, className);
    Hierarchy.AncestrySuffix(superclasses, classes, className, |superclasses|, 1);
    assert chain == [className] + chain[1..];
    ResolvedNameIgnoresPrefix(mappings, [className], chain[1..], m.name, m.desc);
  }

  /**
   * The scenario of `OverrideIsLost` under the corrected run: `C`'s
   * declaration takes the name of `S`'s, and a call site whose owner is `S`
   * resolves to it.
   */
  lemma {:induction false} OverrideIsKept(entropy: Entropy, excluded: set<string>, superclasses: map<string, string>,
                                          classes: map<string, ClassNode>, keyS: string, keyC: string,
                                          nodeS: ClassNode, nodeC: ClassNode, m: MethodNode,
                                          order: seq<string>, draws: nat)
    requires Hierarchy.ChainsEnd(superclasses)
    requires ClassNameOfKey(keyS) != ClassNameOfKey(keyC)
    requires ClassNameOfKey(keyC) in superclasses && superclasses[ClassNameOfKey(keyC)] == ClassNameOfKey(keyS)
    requires ClassNameOfKey(keyS) in classes
    requires nodeS.methods == [m] && nodeC.methods == [m]
    requires m.name !in excluded
    requires IsEnumeration(order, {keyS, keyC})
    ensures var r := CorrectedTransformResult(entropy, excluded, superclasses, classes, map[keyS := nodeS, keyC := nodeC], order, draws);
      var nameS, nameC := FirstMethodName(r.image, keyS), FirstMethodName(r.image, keyC);
      && nameS.Some? && nameC == nameS
      && ResolvedName(r.mappings, AncestryOf(superclasses, classes.Keys, ClassNameOfKey(keyS)), m.name, m.desc) == nameC
  {
    var image := map[keyS := nodeS, keyC := nodeC];
    var cS, cC := ClassNameOfKey(keyS), ClassNameOfKey(keyC);
    var r := CorrectedTransformResult(entropy, excluded, superclasses, classes, image, order, draws);
    DistinctHasNoRepeats(order);
    DeclarationKeys(entropy, excluded, image, order, draws);
    assert keyS in order;
    var j :| 0 <= j < |order| && order[j] == keyS;
    assert DeclaresRenamable(excluded, cS, image[keyS].methods, KeyOf(cS, m)) by {
      assert image[keyS].methods[0] == m;
    }
    assert RenamableIn(excluded, image, order, KeyOf(cS, m));
    assert r.mappings == DeclarationPass(entropy, excluded, image, order, map[], draws).mappings;
    assert MethodKey(cS, m.name, m.desc) in r.mappings;
    var chainS := AncestryOf(superclasses, classes.Keys, cS);
    assert MethodKey(chainS[0], m.name, m.desc) in r.mappings;
    OverrideKeepsName(r.mappings, superclasses, classes.Keys, cC, m);
    assert r.image[keyC].methods[0].name == CorrectedMethod(r.mappings, superclasses, classes.Keys, cC, m).name;
    assert r.image[keyS].methods[0].name == CorrectedMethod(r.mappings, superclasses, classes.Keys, cS, m).name;
  }

  // ---------------------------------------------------------------------
  // The transformer

  class MethodTransformer {
    /** Method key to new name, filled by the declaration pass of the latest run. */
    var globalMethodMappings: map<string, string>
    /** How many names were generated so far. */
    var draws: nat
    const entropy: Entropy

    constructor (entropy: Entropy)
      ensures this.entropy == entropy && globalMethodMappings == map[] && draws == 0
    {
      this.entropy := entropy;
      globalMethodMappings := map[];
      draws := 0;
    }

    /** `generateSecureMethodName`: the hex of the digest, its first digit replaced by a random letter. */
    method GenerateSecureMethodName(originalName: string) returns (newName: string)
      modifies this
      ensures newName == NewMethodName(entropy, originalName, old(draws))
      ensures draws == old(draws) + 1 && globalMethodMappings == old(globalMethodMappings)
    {
      var hashBytes := entropy.digest(originalName, draws);
      var hex := EncodeHex(hashBytes);
      newName := [LetterChar(entropy.letter(draws))] + hex[1..];
      draws := draws + 1;
    }

    /** `renameMethodsInClass`. */
    method RenameMethodsInClass(methods: seq<MethodNode>, className: string, config: Configuration.Configuration)
      returns (renamed: seq<MethodNode>)
      modifies this
      ensures var r := RenameMethods(entropy, Excluded(config), className, old(globalMethodMappings), old(draws), methods);
        globalMethodMappings == r.mappings && draws == r.draws && renamed == r.methods
    {
      renamed := [];
      for i := 0 to |methods|
        invariant RenameMethods(entropy, Excluded(config), className, old(globalMethodMappings), old(draws), methods[..i])
                  == Renaming(globalMethodMappings, draws, renamed)
      {
        var methodNode := methods[i];
        assert methods[..i + 1][..i] == methods[..i];
        if !IsExcludedMethod(methodNode, config) {
          var methodSignature := MethodKey(className, methodNode.name, methodNode.desc);
          if methodSignature !in globalMethodMappings {
            var newName := GenerateSecureMethodName(methodNode.name);
            globalMethodMappings := globalMethodMappings[methodSignature := newName];
            renamed := renamed + [methodNode.(name := newName)];
          } else {
            renamed := renamed + [methodNode];
          }
        } else {
          renamed := renamed + [methodNode];
        }
      }
      assert methods[..|methods|] == methods;
    }

    /** The first loop of `transform`. */
    method RenameAllClasses(classNodes: Image, order: seq<string>, config: Configuration.Configuration)
      returns (transformedNodes: Image)
      requires forall k :: k in order ==> k in classNodes
      modifies this
      ensures var r := DeclarationPass(entropy, Excluded(config), classNodes, order, old(globalMethodMappings), old(draws));
        transformedNodes == r.image && globalMethodMappings == r.mappings && draws == r.draws
    {
      transformedNodes := classNodes;
      for i := 0 to |order|
        invariant DeclarationPass(entropy, Excluded(config), classNodes, order[..i], old(globalMethodMappings), old(draws))
                  == Pass(transformedNodes, globalMethodMappings, draws)
      {
        assert order[..i + 1][..i] == order[..i];
        var key := order[i];
        var className := ClassNameOfKey(key);
        var classNode := transformedNodes[key];
        var renamed := RenameMethodsInClass(classNode.methods, className, config);
        transformedNodes := transformedNodes[key := classNode.(methods := renamed)];
      }
      assert order[..|order|] == order;
    }

    /** `handleOverriddenMethods`: reads the superclass node held by the hierarchy index. */
    method HandleOverriddenMethods(classNode: ClassNode, className: string, hierarchy: Hierarchy.Hierarchy)
      returns (node: ClassNode)
      ensures node == OverrideClass(globalMethodMappings, hierarchy.superclasses, hierarchy.classes, className, classNode)
    {
      node := classNode;
      var superClassName := hierarchy.GetSuperclass(className);
      if superClassName.Some? {
        var superClassNode := hierarchy.GetClass(superClassName.value);
        if superClassNode.Some? {
          var superMethods := superClassNode.value.methods;
          var methods := classNode.methods;
          for i := 0 to |methods|
            invariant |methods| == |classNode.methods|
            invariant forall j :: 0 <= j < i ==>
              methods[j] == OverriddenMethod(globalMethodMappings, superClassName.value, superMethods, classNode.methods[j])
            invariant forall j :: i <= j < |methods| ==> methods[j] == classNode.methods[j]
          {
            var methodNode := methods[i];
            var superMethod := FindMatchingMethod(superMethods, methodNode.name, methodNode.desc);
            if superMethod.Some? {
              var superMethodSignature := MethodKey(superClassName.value, superMethod.value.name, superMethod.value.desc);
              if superMethodSignature in globalMethodMappings {
                var newName := globalMethodMappings[superMethodSignature];
                methods := methods[i := PreserveOverrideAnnotation(methodNode.(name := newName))];
              }
            }
          }
          node := classNode.(methods := methods);
        }
      }
    }

    /** The second loop of `transform`. */
    method HandleAllOverrides(classNodes: Image, order: seq<string>, hierarchy: Hierarchy.Hierarchy)
      returns (transformedNodes: Image)
      requires IsEnumeration(order, classNodes.Keys)
      ensures transformedNodes == OverridePass(globalMethodMappings, hierarchy.superclasses, hierarchy.classes, classNodes)
    {
      transformedNodes := classNodes;
      for i := 0 to |order|
        invariant transformedNodes.Keys == classNodes.Keys
        invariant forall k :: k in classNodes ==>
          transformedNodes[k] == (if k in order[..i]
                                  then OverrideClass(globalMethodMappings, hierarchy.superclasses, hierarchy.classes, ClassNameOfKey(k), classNodes[k])
                                  else classNodes[k])
      {
        var key := order[i];
        assert key !in order[..i];
        assert forall k :: k in order[..i + 1] <==> k in order[..i] || k == key;
        var node := HandleOverriddenMethods(transformedNodes[key], ClassNameOfKey(key), hierarchy);
        transformedNodes := transformedNodes[key := node];
      }
      assert order[..|order|] == order;
    }

    /** `findNewMethodNameInHierarchy`: walks the ancestry the index lists for the owner. */
    method FindNewMethodNameInHierarchy(ownerClassName: string, methodName: string, methodDesc: string,
                                        hierarchy: Hierarchy.Hierarchy) returns (newName: Option<string>)
      requires Hierarchy.ChainsEnd(hierarchy.superclasses)
      ensures newName == FindNewMethodName(globalMethodMappings,
                                           AncestryOf(hierarchy.superclasses, hierarchy.classes.Keys, ownerClassName),
                                           methodName, methodDesc)
    {
      var classHierarchy := hierarchy.GetHierarchy(ownerClassName);
      newName := FindNewMethodName(globalMethodMappings, classHierarchy, methodName, methodDesc);
    }

    /** `updateMethodReferences`: each method instruction of one method. */
    method UpdateMethodReferences(methodNode: MethodNode, hierarchy: Hierarchy.Hierarchy) returns (updated: MethodNode)
      requires Hierarchy.ChainsEnd(hierarchy.superclasses)
      ensures updated == UpdatedMethod(globalMethodMappings, hierarchy.superclasses, hierarchy.classes.Keys, methodNode)
    {
      var insns := methodNode.instructions;
      for i := 0 to |insns|
        invariant |insns| == |methodNode.instructions|
        invariant forall j :: 0 <= j < i ==>
          insns[j] == UpdatedInsn(globalMethodMappings, hierarchy.superclasses, hierarchy.classes.Keys, methodNode.instructions[j])
        invariant forall j :: i <= j < |insns| ==> insns[j] == methodNode.instructions[j]
      {
        var insnNode := insns[i];
        if insnNode.MethodInsn? {
          var ownerClassName := Dotted(insnNode.owner);
          var newName := FindNewMethodNameInHierarchy(ownerClassName, insnNode.name, insnNode.desc, hierarchy);
          if newName.Some? {
            insns := insns[i := MethodInsn(insnNode.opcode, insnNode.owner, newName.value, insnNode.desc)];
          }
        }
      }
      updated := methodNode.(instructions := insns);
    }

    /** The third loop of `transform`, over every method of every class. */
    method UpdateAllReferences(classNodes: Image, order: seq<string>, hierarchy: Hierarchy.Hierarchy)
      returns (transformedNodes: Image)
      requires IsEnumeration(order, classNodes.Keys)
      requires Hierarchy.ChainsEnd(hierarchy.superclasses)
      ensures transformedNodes == CallSitePass(globalMethodMappings, hierarchy.superclasses, hierarchy.classes.Keys, classNodes)
    {
      transformedNodes := classNodes;
      for i := 0 to |order|
        invariant transformedNodes.Keys == classNodes.Keys
        invariant forall k :: k in classNodes ==>
          transformedNodes[k] == (if k in order[..i]
                                  then UpdatedClass(globalMethodMappings, hierarchy.superclasses, hierarchy.classes.Keys, classNodes[k])
                                  else classNodes[k])
      {
        var key := order[i];
        assert key !in order[..i];
        assert forall k :: k in order[..i + 1] <==> k in order[..i] || k == key;
        var classNode := transformedNodes[key];
        var updated := UpdateClassReferences(classNode, hierarchy);
        transformedNodes := transformedNodes[key := updated];
      }
      assert order[..|order|] == order;
    }

    /** The method loop inside the third loop of `transform`, for one class. */
    method UpdateClassReferences(classNode: ClassNode, hierarchy: Hierarchy.Hierarchy) returns (updated: ClassNode)
      requires Hierarchy.ChainsEnd(hierarchy.superclasses)
      ensures updated == UpdatedClass(globalMethodMappings, hierarchy.superclasses, hierarchy.classes.Keys, classNode)
    {
      var methods := classNode.methods;
      for j := 0 to |methods|
        invariant |methods| == |classNode.methods|
        invariant forall t :: 0 <= t < j ==>
          methods[t] == UpdatedMethod(globalMethodMappings, hierarchy.superclasses, hierarchy.classes.Keys, classNode.methods[t])
        invariant forall t :: j <= t < |methods| ==> methods[t] == classNode.methods[t]
      {
        var updatedMethod := UpdateMethodReferences(methods[j], hierarchy);
        methods := methods[j := updatedMethod];
      }
      updated := classNode.(methods := methods);
    }

    /**
     * `transform`: the mapping is reset, then the three passes run over the
     * classes in the (unspecified) iteration order `order`; the hierarchy
     * index is read, never written.
     */
    method Transform(classNodes: Image, order: seq<string>, config: Configuration.Configuration,
                     context: TransformerContext.TransformerContext) returns (transformedNodes: Image)
      requires IsEnumeration(order, classNodes.Keys)
      requires Hierarchy.ChainsEnd(context.hierarchy.superclasses)
      modifies this
      ensures var r := TransformResult(entropy, Excluded(config), context.hierarchy.superclasses,
                                       context.hierarchy.classes, classNodes, order, old(draws));
        transformedNodes == r.image && globalMethodMappings == r.mappings && draws == r.draws
      ensures transformedNodes.Keys == classNodes.Keys
    {
      globalMethodMappings := map[];
      var hierarchy := context.hierarchy;
      transformedNodes := RenameAllClasses(classNodes, order, config);
      transformedNodes := HandleAllOverrides(transformedNodes, order, hierarchy);
      transformedNodes := UpdateAllReferences(transformedNodes, order, hierarchy);
    }
  }
}
