/**
 * The class hierarchy index: every class of the program image by its dotted
 * name, superclass and subclass edges, the methods of each class, and an
 * index from method keys to the classes declaring them. It is filled once,
 * from its own decoded copy of the image, before any transformer runs.
 */
module Hierarchy {
  import opened JavaText
  import opened ClassModel

  /** Following superclass edges from `c` reaches a class without one within `fuel` steps. */
  predicate EndsWithin(superclasses: map<string, string>, c: string, fuel: nat)
    decreases fuel
  {
    c !in superclasses || (fuel > 0 && EndsWithin(superclasses, superclasses[c], fuel - 1))
  }

  /** No superclass chain is cyclic: each ends within as many steps as there are edges. */
  predicate ChainsEnd(superclasses: map<string, string>) {
    forall c :: c in superclasses ==> EndsWithin(superclasses, c, |superclasses|)
  }

  /** The proper ancestors of `c` along the superclass edges, nearest first, known classes or not. */
  function SuperChain(superclasses: map<string, string>, c: string, fuel: nat): (r: seq<string>)
    requires EndsWithin(superclasses, c, fuel)
    ensures c !in superclasses <==> r == []
    decreases fuel
  {
    if c !in superclasses then []
    else [superclasses[c]] + SuperChain(superclasses, superclasses[c], fuel - 1)
  }

  /**
   * What `getHierarchy(c)` lists: `c`, then its superclasses as long as each
   * is a class of the image.
   */
  function Ancestry(superclasses: map<string, string>, classes: set<string>, c: string, fuel: nat): (r: seq<string>)
    requires EndsWithin(superclasses, c, fuel)
    ensures |r| >= 1 && r[0] == c
    decreases fuel
  {
    [c] + (if c in superclasses && superclasses[c] in classes
           then Ancestry(superclasses, classes, superclasses[c], fuel - 1) else [])
  }

  /**
   * The superclass map after the edges of `subclasses[s]` for each `s` of
   * `order`, in turn, were written. No class loses its edge, and every edge
   * is either one it had or one a visited subclass set records.
   */
  function Rebuilt(superclasses: map<string, string>, subclasses: map<string, set<string>>, order: seq<string>)
    : (r: map<string, string>)
    requires forall s :: s in order ==> s in subclasses
    ensures superclasses.Keys <= r.Keys
    ensures forall c :: c in r ==> (c in superclasses && r[c] == superclasses[c]) || (r[c] in order && c in subclasses[r[c]])
  {
    if order == [] then superclasses
    else
      var init := order[..|order| - 1];
      var before := Rebuilt(superclasses, subclasses, init);
      var s := order[|order| - 1];
      assert forall t :: t in init ==> t in order;
      Overwrite(before, subclasses[s], s)
  }

  /** `superclasses` with every class of `subs` mapped to `s`. */
  function Overwrite(superclasses: map<string, string>, subs: set<string>, s: string): (r: map<string, string>)
    ensures forall c :: c in r <==> c in superclasses || c in subs
    ensures forall c :: c in r ==> r[c] == if c in subs then s else superclasses[c]
  {
    map c | c in superclasses.Keys + subs :: if c in subs then s else superclasses[c]
  }

  lemma OverwriteNothing(superclasses: map<string, string>, s: string)
    ensures Overwrite(superclasses, {}, s) == superclasses
  {
    var r := Overwrite(superclasses, {}, s);
    assert r.Keys == superclasses.Keys;
  }

  lemma OverwriteOneMore(superclasses: map<string, string>, done: set<string>, c: string, s: string)
    ensures Overwrite(superclasses, done + {c}, s) == Overwrite(superclasses, done, s)[c := s]
  {
    var l, r := Overwrite(superclasses, done + {c}, s), Overwrite(superclasses, done, s)[c := s];
    assert l.Keys == r.Keys;
    forall k | k in l ensures l[k] == r[k] {
    }
  }

  /** The methods of a class, as a set. */
  function MethodSet(methods: seq<MethodNode>): (r: set<MethodNode>)
    ensures forall m :: m in r <==> m in methods
  {
    set m | m in methods
  }

  /** Whether some method of `methods` has key `key` in class `className`. */
  predicate DeclaresKey(className: string, methods: seq<MethodNode>, key: string) {
    exists i :: 0 <= i < |methods| && MethodKey(className, methods[i].name, methods[i].desc) == key
  }

  /**
   * The method index after `className` was added under the key of each
   * method of `methods`. Entries only grow, and a new key is the key of one
   * of `methods`.
   */
  function IndexMethods(index: map<string, set<string>>, className: string, methods: seq<MethodNode>)
    : (r: map<string, set<string>>)
    ensures forall k :: k in index ==> k in r && index[k] <= r[k]
    ensures forall k :: k in r && k !in index ==> DeclaresKey(className, methods, k)
  {
    if methods == [] then index
    else
      var init := methods[..|methods| - 1];
      var before := IndexMethods(index, className, init);
      var m := methods[|methods| - 1];
      var key := MethodKey(className, m.name, m.desc);
      assert forall k :: DeclaresKey(className, init, k) ==> DeclaresKey(className, methods, k) by {
        forall k | DeclaresKey(className, init, k) ensures DeclaresKey(className, methods, k) {
          var i :| 0 <= i < |init| && MethodKey(className, init[i].name, init[i].desc) == k;
          assert methods[i] == init[i];
        }
      }
      assert DeclaresKey(className, methods, key) by { assert methods[|methods| - 1] == m; }
      before[key := GetOr(before, key, {}) + {className}]
  }

  /**
   * The index holds the keys it held and the key of every method of
   * `methods`; under a key, the classes listed before and, if one of
   * `methods` has that key, `className`.
   */
  lemma {:induction false} IndexMethodsEntries(index: map<string, set<string>>, className: string, methods: seq<MethodNode>)
    ensures var r := IndexMethods(index, className, methods);
      && (forall k :: k in r <==> k in index || DeclaresKey(className, methods, k))
      && (forall k :: k in r ==> r[k] == GetOr(index, k, {}) + (if DeclaresKey(className, methods, k) then {className} else {}))
    decreases |methods|
  {
    if methods != [] {
      var init := methods[..|methods| - 1];
      IndexMethodsEntries(index, className, init);
      var m := methods[|methods| - 1];
      var key := MethodKey(className, m.name, m.desc);
      forall k ensures DeclaresKey(className, methods, k) <==> DeclaresKey(className, init, k) || k == key {
        if DeclaresKey(className, init, k) {
          var i :| 0 <= i < |init| && MethodKey(className, init[i].name, init[i].desc) == k;
          assert methods[i] == init[i];
        }
        if DeclaresKey(className, methods, k) {
          var i :| 0 <= i < |methods| && MethodKey(className, methods[i].name, methods[i].desc) == k;
          if i < |init| { assert methods[i] == init[i]; }
        }
      }
    }
  }

  /** After indexing, the class is listed under the key of each method it declares. */
  lemma IndexListsDeclaringClass(index: map<string, set<string>>, className: string, methods: seq<MethodNode>, i: nat)
    requires i < |methods|
    ensures var key := MethodKey(className, methods[i].name, methods[i].desc);
      var r := IndexMethods(index, className, methods);
      key in r && className in r[key]
  {
    var key := MethodKey(className, methods[i].name, methods[i].desc);
    IndexMethodsEntries(index, className, methods);
    assert DeclaresKey(className, methods, key);
  }

  /** Indexing lists no class but the ones listed before and the class indexed. */
  lemma IndexedClasses(index: map<string, set<string>>, className: string, methods: seq<MethodNode>)
    ensures var r := IndexMethods(index, className, methods);
      forall k, c :: k in r && c in r[k] ==> (k in index && c in index[k]) || c == className
  {
    IndexMethodsEntries(index, className, methods);
  }

  /** Every class listed under a method key is the class the key names. */
  predicate IndexOwned(index: map<string, set<string>>) {
    forall k, c :: k in index && c in index[k] ==> BeforeLastDot(k) == c
  }

  /** The five maps of the index, as values. */
  datatype HierarchyState = HierarchyState(classes: map<string, ClassNode>, subclasses: map<string, set<string>>,
                                           superclasses: map<string, string>, methodsInClass: map<string, set<MethodNode>>,
                                           methodsInHierarchy: map<string, set<string>>)
  {
    predicate Valid() {
      && superclasses.Keys <= classes.Keys
      && (forall c :: c in superclasses ==> superclasses[c] in subclasses && c in subclasses[superclasses[c]])
      && (forall s, c :: s in subclasses && c in subclasses[s] ==> c in classes)
      && methodsInClass.Keys == classes.Keys
      && (forall k, c :: k in methodsInHierarchy && c in methodsInHierarchy[k] ==> c in classes)
    }
  }

  /**
   * `addClass` on the maps: the class under its dotted name, its superclass
   * edge in both directions if it has a superclass (and no edge at all if it
   * has none), its methods, and the class under the key of each of its
   * methods.
   */
  function Added(h: HierarchyState, classNode: ClassNode): (r: HierarchyState)
    ensures r.classes.Keys == h.classes.Keys + {Dotted(classNode.name)} && r.classes[Dotted(classNode.name)] == classNode
    ensures forall c :: c in h.superclasses && c != Dotted(classNode.name) ==>
      c in r.superclasses && r.superclasses[c] == h.superclasses[c]
    ensures classNode.superName.Some? ==>
      Dotted(classNode.name) in r.superclasses && r.superclasses[Dotted(classNode.name)] == Dotted(classNode.superName.value)
    ensures classNode.superName.Some? ==>
      Dotted(classNode.superName.value) in r.subclasses && Dotted(classNode.name) in r.subclasses[Dotted(classNode.superName.value)]
    ensures classNode.superName.None? ==> r.superclasses == h.superclasses && r.subclasses == h.subclasses
    ensures forall k :: k in h.methodsInHierarchy ==> k in r.methodsInHierarchy && h.methodsInHierarchy[k] <= r.methodsInHierarchy[k]
  {
    var className := Dotted(classNode.name);
    var withEdge :=
      match classNode.superName
      case None => h
      case Some(superName) =>
        h.(superclasses := h.superclasses[className := Dotted(superName)],
           subclasses := h.subclasses[Dotted(superName) := GetOr(h.subclasses, Dotted(superName), {}) + {className}]);
    withEdge.(classes := h.classes[className := classNode],
              methodsInClass := h.methodsInClass[className := MethodSet(classNode.methods)],
              methodsInHierarchy := IndexMethods(h.methodsInHierarchy, className, classNode.methods))
  }

  /** Adding a class keeps the index valid: every new edge and entry names the class added, and every edge stays backed by a subclass entry. */
  lemma AddedKeepsValid(h: HierarchyState, classNode: ClassNode)
    requires h.Valid()
    ensures Added(h, classNode).Valid()
  {
    var className := Dotted(classNode.name);
    var r := Added(h, classNode);
    IndexedClasses(h.methodsInHierarchy, className, classNode.methods);
    assert r.classes.Keys == h.classes.Keys + {className};
    forall s, c | s in r.subclasses && c in r.subclasses[s] ensures c in r.classes {
      if c != className {
        assert s in h.subclasses && c in h.subclasses[s];
      }
    }
    assert r.methodsInHierarchy == IndexMethods(h.methodsInHierarchy, className, classNode.methods);
    forall k, c | k in r.methodsInHierarchy && c in r.methodsInHierarchy[k] ensures c in r.classes {
      if c != className {
        assert k in h.methodsInHierarchy && c in h.methodsInHierarchy[k];
      }
    }
  }

  class Hierarchy {
    var classes: map<string, ClassNode>
    var subclasses: map<string, set<string>>
    var superclasses: map<string, string>
    var methodsInClass: map<string, set<MethodNode>>
    var methodsInHierarchy: map<string, set<string>>

    /** Every edge and every index entry names a class that was added, and every superclass edge is backed by a subclass entry. */
    predicate Valid()
      reads this
    {
      State().Valid()
    }

    function State(): HierarchyState
      reads this
    {
      HierarchyState(classes, subclasses, superclasses, methodsInClass, methodsInHierarchy)
    }

    constructor ()
      ensures Valid()
      ensures classes == map[] && subclasses == map[] && superclasses == map[]
      ensures methodsInClass == map[] && methodsInHierarchy == map[]
    {
      classes := map[];
      subclasses := map[];
      superclasses := map[];
      methodsInClass := map[];
      methodsInHierarchy := map[];
    }

    /** `addClass`: the class is stored under its dotted name, with its edge and its method keys. */
    method AddClass(classNode: ClassNode)
      requires Valid()
      modifies this
      ensures State() == Added(old(State()), classNode)
      ensures Valid()
      ensures old(IndexOwned(methodsInHierarchy)) &&
        (forall i :: 0 <= i < |classNode.methods| ==> IsLegalMember(classNode.methods[i].name, classNode.methods[i].desc))
        ==> IndexOwned(methodsInHierarchy)
    {
      var className := Dotted(classNode.name);
      ghost var before := State();
      classes := classes[className := classNode];
      if classNode.superName.Some? {
        var superClassName := Dotted(classNode.superName.value);
        superclasses := superclasses[className := superClassName];
        subclasses := subclasses[superClassName := GetOr(subclasses, superClassName, {}) + {className}];
      }
      var classMethods := MethodSet(classNode.methods);
      methodsInClass := methodsInClass[className := classMethods];
      IndexClassMethods(className, classNode.methods);
      assert State() == Added(before, classNode);
      AddedKeepsValid(before, classNode);
      IndexStaysOwned(before.methodsInHierarchy, className, classNode.methods);
    }

    /** The method-key loop of `addClass`. */
    method IndexClassMethods(className: string, methods: seq<MethodNode>)
      modifies this
      ensures methodsInHierarchy == IndexMethods(old(methodsInHierarchy), className, methods)
      ensures classes == old(classes) && subclasses == old(subclasses) && superclasses == old(superclasses)
      ensures methodsInClass == old(methodsInClass)
    {
      for i := 0 to |methods|
        invariant methodsInHierarchy == IndexMethods(old(methodsInHierarchy), className, methods[..i])
        invariant classes == old(classes) && subclasses == old(subclasses) && superclasses == old(superclasses)
        invariant methodsInClass == old(methodsInClass)
      {
        var m := methods[i];
        var methodKey := MethodKey(className, m.name, m.desc);
        assert methods[..i + 1][..i] == methods[..i];
        methodsInHierarchy := methodsInHierarchy[methodKey := GetOr(methodsInHierarchy, methodKey, {}) + {className}];
      }
      assert methods[..|methods|] == methods;
    }

    /**
     * `buildHierarchy`: every subclass edge is written back as a superclass
     * edge; the subclass sets are visited in the (unspecified) `order` of
     * the map's entries.
     */
    method BuildHierarchy(order: seq<string>)
      requires Valid()
      requires IsEnumeration(order, subclasses.Keys)
      modifies this
      ensures Valid()
      ensures classes == old(classes) && subclasses == old(subclasses)
      ensures superclasses == Rebuilt(old(superclasses), subclasses, order)
      ensures methodsInClass == old(methodsInClass) && methodsInHierarchy == old(methodsInHierarchy)
    {
      for i := 0 to |order|
        invariant classes == old(classes) && subclasses == old(subclasses)
        invariant forall s :: s in order[..i] ==> s in subclasses
        invariant superclasses == Rebuilt(old(superclasses), subclasses, order[..i])
        invariant methodsInClass == old(methodsInClass) && methodsInHierarchy == old(methodsInHierarchy)
        invariant superclasses.Keys <= classes.Keys
      {
        var superClassName := order[i];
        assert order[..i + 1][..i] == order[..i];
        WriteSuperclass(superClassName, subclasses[superClassName]);
      }
      assert order[..|order|] == order;
    }

    /** The inner loop of `buildHierarchy`: each class of `subs` gets `superClassName` as superclass. */
    method WriteSuperclass(superClassName: string, subs: set<string>)
      modifies this
      ensures superclasses == Overwrite(old(superclasses), subs, superClassName)
      ensures classes == old(classes) && subclasses == old(subclasses)
      ensures methodsInClass == old(methodsInClass) && methodsInHierarchy == old(methodsInHierarchy)
    {
      var rest := subs;
      var edges := superclasses;
      OverwriteNothing(edges, superClassName);
      assert subs - rest == {};
      while rest != {}
        invariant rest <= subs
        invariant edges == Overwrite(old(superclasses), subs - rest, superClassName)
        modifies {}
        decreases |rest|
      {
        var subClassName :| subClassName in rest;
        OverwriteOneMore(old(superclasses), subs - rest, subClassName, superClassName);
        edges := edges[subClassName := superClassName];
        assert subs - (rest - {subClassName}) == (subs - rest) + {subClassName};
        rest := rest - {subClassName};
      }
      superclasses := edges;
      assert subs - rest == subs;
    }

    /** `isSubclassOf(c1, c2)`: `c2` is `c1` or one of its superclasses, known classes or not. */
    method IsSubclassOf(c1: string, c2: string) returns (r: bool)
      requires ChainsEnd(superclasses)
      ensures r <==> c1 == c2 || c2 in SuperChain(superclasses, c1, |superclasses|)
    {
      if c1 == c2 {
        return true;
      }
      ghost var fuel: nat := |superclasses|;
      var current := Some(c1);
      while current.Some?
        invariant current.Some? ==> EndsWithin(superclasses, current.value, fuel)
        invariant current.Some? ==>
          (c2 in SuperChain(superclasses, c1, |superclasses|) <==> c2 in SuperChain(superclasses, current.value, fuel))
        invariant current.None? ==> c2 !in SuperChain(superclasses, c1, |superclasses|)
        decreases if current.Some? then fuel + 1 else 0
      {
        var c := current.value;
        if c in superclasses {
          var next := superclasses[c];
          if next == c2 {
            return true;
          }
          current := Some(next);
          fuel := fuel - 1;
        } else {
          current := None;
        }
      }
      return false;
    }

    /** `getClass`: the node stored under a dotted name, None (null) if there is none. */
    function GetClass(className: string): (r: Option<ClassNode>)
      reads this
      ensures r.Some? <==> className in classes
    {
      if className in classes then Some(classes[className]) else None
    }

    function GetSubclasses(className: string): (r: set<string>)
      reads this
      ensures className !in subclasses ==> r == {}
    {
      GetOr(subclasses, className, {})
    }

    function GetSuperclass(className: string): (r: Option<string>)
      reads this
      ensures r.Some? <==> className in superclasses
    {
      if className in superclasses then Some(superclasses[className]) else None
    }

    function GetMethodsInClass(className: string): (r: set<MethodNode>)
      reads this
      ensures className !in methodsInClass ==> r == {}
    {
      GetOr(methodsInClass, className, {})
    }

    /** The classes recorded under the key of the method; with legal names, at most the class named. */
    function GetClassesWithMethod(className: string, methodName: string, methodDesc: string): (r: set<string>)
      reads this
      ensures IndexOwned(methodsInHierarchy) && IsLegalMember(methodName, methodDesc) ==> r <= {className}
    {
      var methodKey := MethodKey(className, methodName, methodDesc);
      if methodKey in methodsInHierarchy then
        if IsLegalMember(methodName, methodDesc) then
          MethodKeyOwner(className, methodName, methodDesc);
          methodsInHierarchy[methodKey]
        else methodsInHierarchy[methodKey]
      else {}
    }

    /** `getHierarchy(c)`: `c` followed by its superclasses while they are classes of the image. */
    method GetHierarchy(className: string) returns (hierarchy: seq<string>)
      requires ChainsEnd(superclasses)
      ensures hierarchy == Ancestry(superclasses, classes.Keys, className, |superclasses|)
    {
      hierarchy := [];
      ghost var fuel: nat := |superclasses|;
      ghost var ancestry := Ancestry(superclasses, classes.Keys, className, fuel);
      var current := Some(className);
      while current.Some?
        invariant current.Some? ==> EndsWithin(superclasses, current.value, fuel)
        invariant current.Some? ==> ancestry == hierarchy + Ancestry(superclasses, classes.Keys, current.value, fuel)
        invariant current.None? ==> hierarchy == ancestry
        decreases if current.Some? then fuel + 1 else 0
      {
        var c := current.value;
        AncestryStep(superclasses, classes.Keys, c, fuel, hierarchy);
        hierarchy := hierarchy + [c];
        current := GetSuperclass(c);
        if current.Some? && current.value !in classes {
          break;
        }
        if current.Some? {
          fuel := fuel - 1;
        }
      }
    }
  }

  /** One step of the walk: `c` is listed, then the ancestry of its superclass if that is a class of the image. */
  lemma AncestryStep(superclasses: map<string, string>, classes: set<string>, c: string, fuel: nat, done: seq<string>)
    requires EndsWithin(superclasses, c, fuel)
    ensures c in superclasses && superclasses[c] in classes ==>
      done + Ancestry(superclasses, classes, c, fuel) == done + [c] + Ancestry(superclasses, classes, superclasses[c], fuel - 1)
    ensures !(c in superclasses && superclasses[c] in classes) ==> done + Ancestry(superclasses, classes, c, fuel) == done + [c]
  {
    if c in superclasses && superclasses[c] in classes {
      var rest := Ancestry(superclasses, classes, superclasses[c], fuel - 1);
      assert Ancestry(superclasses, classes, c, fuel) == [c] + rest;
      assert done + ([c] + rest) == done + [c] + rest;
    }
  }

  lemma {:induction false} IndexStaysOwned(index: map<string, set<string>>, className: string, methods: seq<MethodNode>)
    ensures IndexOwned(index) && (forall i :: 0 <= i < |methods| ==> IsLegalMember(methods[i].name, methods[i].desc))
      ==> IndexOwned(IndexMethods(index, className, methods))
  {
    var r := IndexMethods(index, className, methods);
    IndexMethodsEntries(index, className, methods);
    if IndexOwned(index) && (forall i :: 0 <= i < |methods| ==> IsLegalMember(methods[i].name, methods[i].desc)) {
      forall k, c | k in r && c in r[k] ensures BeforeLastDot(k) == c {
        if c !in GetOr(index, k, {}) {
          var i :| 0 <= i < |methods| && MethodKey(className, methods[i].name, methods[i].desc) == k;
          MethodKeyOwner(className, methods[i].name, methods[i].desc);
        }
      }
    }
  }

  /** A chain that ends within some bound also ends within any larger one. */
  lemma {:induction false} EndsWithinMore(superclasses: map<string, string>, c: string, fuel: nat, more: nat)
    requires EndsWithin(superclasses, c, fuel) && fuel <= more
    ensures EndsWithin(superclasses, c, more)
    decreases fuel
  {
    if c in superclasses {
      EndsWithinMore(superclasses, superclasses[c], fuel - 1, more - 1);
    }
  }

  /** Entry `i + 1` of `r` is the superclass of entry `i`, and a class of the image. */
  predicate EdgeAt(r: seq<string>, i: nat, superclasses: map<string, string>, classes: set<string>)
    requires i + 1 < |r|
  {
    r[i] in superclasses && superclasses[r[i]] == r[i + 1] && r[i + 1] in classes
  }

  predicate FollowsEdges(r: seq<string>, superclasses: map<string, string>, classes: set<string>) {
    forall i :: 0 <= i < |r| - 1 ==> EdgeAt(r, i, superclasses, classes)
  }

  /**
   * The listed ancestry starts at `c`; each later entry is the superclass
   * of the one before and a class of the image.
   */
  lemma {:induction false} AncestryFollowsEdges(superclasses: map<string, string>, classes: set<string>, c: string, fuel: nat)
    requires EndsWithin(superclasses, c, fuel)
    ensures FollowsEdges(Ancestry(superclasses, classes, c, fuel), superclasses, classes)
    decreases fuel
  {
    var r := Ancestry(superclasses, classes, c, fuel);
    if c in superclasses && superclasses[c] in classes {
      var rest := Ancestry(superclasses, classes, superclasses[c], fuel - 1);
      AncestryFollowsEdges(superclasses, classes, superclasses[c], fuel - 1);
      assert r == [c] + rest;
      forall i | 0 <= i < |r| - 1 ensures EdgeAt(r, i, superclasses, classes) {
        if i > 0 {
          assert r[i] == rest[i - 1] && r[i + 1] == rest[i];
          assert EdgeAt(rest, i - 1, superclasses, classes);
        }
      }
    }
  }

  /** The walk stops exactly where the next superclass is missing or unknown to the image. */
  lemma {:induction false} AncestryStopsAtUnknown(superclasses: map<string, string>, classes: set<string>, c: string, fuel: nat)
    requires EndsWithin(superclasses, c, fuel)
    ensures var r := Ancestry(superclasses, classes, c, fuel);
      var last := r[|r| - 1];
      last !in superclasses || superclasses[last] !in classes
    decreases fuel
  {
    if c in superclasses && superclasses[c] in classes {
      AncestryStopsAtUnknown(superclasses, classes, superclasses[c], fuel - 1);
    }
  }

  /** The listed ancestry does not depend on the fuel, once the chain ends within it. */
  lemma {:induction false} AncestryFuel(superclasses: map<string, string>, classes: set<string>, c: string, f1: nat, f2: nat)
    requires EndsWithin(superclasses, c, f1) && EndsWithin(superclasses, c, f2)
    ensures Ancestry(superclasses, classes, c, f1) == Ancestry(superclasses, classes, c, f2)
    decreases f1
  {
    if c in superclasses && superclasses[c] in classes {
      AncestryFuel(superclasses, classes, superclasses[c], f1 - 1, f2 - 1);
    }
  }

  /** Every suffix of an ancestry is the ancestry of the class it starts with. */
  lemma {:induction false} AncestrySuffix(superclasses: map<string, string>, classes: set<string>, c: string, fuel: nat, i: nat)
    requires ChainsEnd(superclasses) && EndsWithin(superclasses, c, fuel)
    requires i < |Ancestry(superclasses, classes, c, fuel)|
    ensures var r := Ancestry(superclasses, classes, c, fuel);
      EndsWithin(superclasses, r[i], |superclasses|) && r[i..] == Ancestry(superclasses, classes, r[i], |superclasses|)
    decreases fuel
  {
    var r := Ancestry(superclasses, classes, c, fuel);
    if i == 0 {
      assert EndsWithin(superclasses, c, |superclasses|);
      AncestryFuel(superclasses, classes, c, fuel, |superclasses|);
    } else {
      var rest := Ancestry(superclasses, classes, superclasses[c], fuel - 1);
      assert r == [c] + rest;
      AncestrySuffix(superclasses, classes, superclasses[c], fuel - 1, i - 1);
      assert r[i..] == rest[i - 1..];
    }
  }

  /** A class without a superclass edge (never added, in a valid index) has the singleton ancestry. */
  lemma AncestryOfUnknownClass(superclasses: map<string, string>, classes: set<string>, c: string, fuel: nat)
    requires c !in superclasses
    ensures Ancestry(superclasses, classes, c, fuel) == [c]
  {
  }

  /**
   * The listed ancestry is a prefix of `c` followed by all its proper
   * ancestors, so `isSubclassOf(c, x)` holds for every entry `x`.
   */
  lemma {:induction false} AncestryWithinSuperChain(superclasses: map<string, string>, classes: set<string>, c: string, fuel: nat)
    requires EndsWithin(superclasses, c, fuel)
    ensures Ancestry(superclasses, classes, c, fuel) <= [c] + SuperChain(superclasses, c, fuel)
    decreases fuel
  {
    if c in superclasses && superclasses[c] in classes {
      var next := superclasses[c];
      AncestryWithinSuperChain(superclasses, classes, next, fuel - 1);
      var rest := Ancestry(superclasses, classes, next, fuel - 1);
      var tail := SuperChain(superclasses, next, fuel - 1);
      assert rest <= [next] + tail;
      assert Ancestry(superclasses, classes, c, fuel) == [c] + rest;
      assert [c] + SuperChain(superclasses, c, fuel) == [c] + ([next] + tail);
      PrefixOfConcat([c], rest, [next] + tail);
    } else {
      assert Ancestry(superclasses, classes, c, fuel) == [c];
      PrefixOfConcat([c], [], SuperChain(superclasses, c, fuel));
    }
  }

  lemma PrefixOfConcat(head: seq<string>, a: seq<string>, b: seq<string>)
    requires a <= b
    ensures head + a <= head + b
  {
    assert (head + b)[..|head + a|] == head + b[..|a|];
  }

  /** After the rebuild, a class points to the last superclass in the visiting order whose subclass set lists it. */
  lemma {:induction false} RebuiltEdge(superclasses: map<string, string>, subclasses: map<string, set<string>>,
                                       order: seq<string>, i: nat, c: string)
    requires forall t :: t in order ==> t in subclasses
    requires i < |order| && c in subclasses[order[i]]
    requires forall j :: i < j < |order| ==> c !in subclasses[order[j]]
    ensures var r := Rebuilt(superclasses, subclasses, order); c in r && r[c] == order[i]
  {
    if i < |order| - 1 {
      var init := order[..|order| - 1];
      assert init[i] == order[i];
      assert forall j :: i < j < |init| ==> init[j] == order[j];
      RebuiltEdge(superclasses, subclasses, init, i, c);
    }
  }

  /** The rebuild keeps every edge of a class listed in no subclass set. */
  lemma {:induction false} RebuiltKeepsOthers(superclasses: map<string, string>, subclasses: map<string, set<string>>,
                                              order: seq<string>, c: string)
    requires forall t :: t in order ==> t in subclasses
    requires forall t :: t in order ==> c !in subclasses[t]
    ensures var r := Rebuilt(superclasses, subclasses, order);
      (c in r <==> c in superclasses) && (c in superclasses ==> r[c] == superclasses[c])
  {
    if order != [] {
      RebuiltKeepsOthers(superclasses, subclasses, order[..|order| - 1], c);
    }
  }
}
