/**
 * The rename mappings of a run, per class: old field or method name to new
 * name. A lookup of a name without a mapping yields the name itself.
 */
module TransformationContext {

  class TransformationContext {
    var fieldMappings: map<string, map<string, string>>
    var methodMappings: map<string, map<string, string>>

    constructor ()
      ensures fieldMappings == map[] && methodMappings == map[]
    {
      fieldMappings := map[];
      methodMappings := map[];
    }

    /** Records (or overwrites) the new name of a field of a class. */
    method AddFieldMapping(className: string, oldName: string, newName: string)
      modifies this
      ensures GetNewFieldName(className, oldName) == newName
      ensures forall c, o :: (c, o) != (className, oldName) ==> GetNewFieldName(c, o) == old(GetNewFieldName(c, o))
      ensures GetFieldMappings(className) == old(GetFieldMappings(className))[oldName := newName]
      ensures methodMappings == old(methodMappings)
    {
      fieldMappings := fieldMappings[className := GetFieldMappings(className)[oldName := newName]];
    }

    /** The new name of a field; the old name when the class or the field has no mapping. */
    function GetNewFieldName(className: string, oldName: string): (r: string)
      reads this
      ensures className !in fieldMappings || oldName !in fieldMappings[className] ==> r == oldName
      ensures className in fieldMappings && oldName in fieldMappings[className] ==> r == fieldMappings[className][oldName]
    {
      if className !in fieldMappings then oldName
      else if oldName in fieldMappings[className] then fieldMappings[className][oldName]
      else oldName
    }

    /** Records (or overwrites) the new name of a method of a class. */
    method AddMethodMapping(className: string, oldName: string, newName: string)
      modifies this
      ensures GetNewMethodName(className, oldName) == newName
      ensures forall c, o :: (c, o) != (className, oldName) ==> GetNewMethodName(c, o) == old(GetNewMethodName(c, o))
      ensures GetMethodMappings(className) == old(GetMethodMappings(className))[oldName := newName]
      ensures fieldMappings == old(fieldMappings)
    {
      methodMappings := methodMappings[className := GetMethodMappings(className)[oldName := newName]];
    }

    function GetNewMethodName(className: string, oldName: string): (r: string)
      reads this
      ensures className !in methodMappings || oldName !in methodMappings[className] ==> r == oldName
      ensures className in methodMappings && oldName in methodMappings[className] ==> r == methodMappings[className][oldName]
    {
      if className !in methodMappings then oldName
      else if oldName in methodMappings[className] then methodMappings[className][oldName]
      else oldName
    }

    /** The field mappings of a class, empty for an unknown class. */
    function GetFieldMappings(className: string): (r: map<string, string>)
      reads this
      ensures className !in fieldMappings ==> r == map[]
      ensures className in fieldMappings ==> r == fieldMappings[className]
    {
      if className in fieldMappings then fieldMappings[className] else map[]
    }

    function GetMethodMappings(className: string): (r: map<string, string>)
      reads this
      ensures className !in methodMappings ==> r == map[]
      ensures className in methodMappings ==> r == methodMappings[className]
    {
      if className in methodMappings then methodMappings[className] else map[]
    }
  }
}
