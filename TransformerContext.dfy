/**
 * The context shared by the transformers of one run: which fields and
 * methods of which classes must keep their names, and the hierarchy index.
 */
module TransformerContext {
  import Hierarchy

  class TransformerContext {
    var protectedFields: map<string, set<string>>
    var protectedMethods: map<string, set<string>>
    const hierarchy: Hierarchy.Hierarchy

    constructor (hierarchy: Hierarchy.Hierarchy)
      ensures protectedFields == map[] && protectedMethods == map[]
      ensures this.hierarchy == hierarchy
    {
      protectedFields := map[];
      protectedMethods := map[];
      this.hierarchy := hierarchy;
    }

    /** Registers a field name of a class as protected; registering twice changes nothing. */
    method AddProtectedField(className: string, fieldName: string)
      modifies this
      ensures IsFieldProtected(className, fieldName)
      ensures forall c, f :: (c, f) != (className, fieldName) ==> IsFieldProtected(c, f) == old(IsFieldProtected(c, f))
      ensures forall c :: c != className ==> (c in protectedFields <==> c in old(protectedFields))
      ensures old(IsFieldProtected(className, fieldName)) ==> protectedFields == old(protectedFields)
      ensures protectedMethods == old(protectedMethods)
    {
      var fields := if className in protectedFields then protectedFields[className] else {};
      if className in protectedFields && fieldName in fields {
        assert fields + {fieldName} == fields;
        assert protectedFields[className := fields] == protectedFields;
      }
      protectedFields := protectedFields[className := fields + {fieldName}];
    }

    /** Registers a method name of a class as protected; registering twice changes nothing. */
    method AddProtectedMethod(className: string, methodName: string)
      modifies this
      ensures IsMethodProtected(className, methodName)
      ensures forall c, m :: (c, m) != (className, methodName) ==> IsMethodProtected(c, m) == old(IsMethodProtected(c, m))
      ensures forall c :: c != className ==> (c in protectedMethods <==> c in old(protectedMethods))
      ensures old(IsMethodProtected(className, methodName)) ==> protectedMethods == old(protectedMethods)
      ensures protectedFields == old(protectedFields)
    {
      var methods := if className in protectedMethods then protectedMethods[className] else {};
      if className in protectedMethods && methodName in methods {
        assert methods + {methodName} == methods;
        assert protectedMethods[className := methods] == protectedMethods;
      }
      protectedMethods := protectedMethods[className := methods + {methodName}];
    }

    /** False for a class that never had a field registered. */
    predicate IsFieldProtected(className: string, fieldName: string)
      reads this
    {
      className in protectedFields && fieldName in protectedFields[className]
    }

    predicate IsMethodProtected(className: string, methodName: string)
      reads this
    {
      className in protectedMethods && methodName in protectedMethods[className]
    }

    function GetHierarchy(): (h: Hierarchy.Hierarchy)
      ensures h == hierarchy
    {
      hierarchy
    }
  }
}
