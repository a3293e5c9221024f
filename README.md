# A verified model of the Revere Java obfuscator's transformation core

The obfuscator reads a jar and decodes every class file into a tree of
class, field, method and instruction nodes. It builds a class hierarchy
(superclass edges, subclass sets and a method index). It then runs the
transformers the configuration enables, in registration order. Each
transformer rewrites the classes the `TransformerFilter` admits for it.

This project models that core in Dafny:

- **Configuration** (`Configuration.dfy`, `JavaText.dfy`): the
  `transformers.<name>.<setting>` property keys and the global inclusion
  and exclusion keys, parsed the way `loadFromFile` does. `JavaText.dfy`
  holds the `String` operations this needs: `split` with its trailing
  empty pieces dropped, `trim`, and `replace`.
- **Patterns and filter** (`PatternMatcher.dfy`, `TransformerFilter.dfy`):
  the glob-to-regex matcher and the four-branch inclusion/exclusion decision.
- **Hierarchy** (`Hierarchy.dfy`): a class with `addClass`,
  `buildHierarchy`, the subclass test, the ancestry walk and the getters.
- **Contexts and manager** (`TransformationContext.dfy`,
  `TransformerContext.dfy`, `TransformerManager.dfy`): the mapping tables,
  the protected-member tables, and the driver that runs the enabled
  transformers in order and stops at the first failure.
- **Method renamer** (`MethodTransformer.dfy`, `Naming.dfy`): three passes,
  for declarations, overrides and call sites. Names are generated from a
  SHA-256 digest written in hex.
- **Field renamer** (`FieldTransformer.dfy`): two passes, for declarations
  and references.
- **String encryptor** (`StringTransformer.dfy`, `Utf8.dfy`, `Base64.dfy`):
  the XOR cipher and the rewrite of each string literal longer than three
  characters into cipher text, key and helper call.
- **ASCII-art decorator** (`AsciiArtTransformer.dfy`): one protected
  `public static final String` field per picture line.

`ClassModel.dfy` holds the node datatypes and the member keys.

The model's conventions:

- Tree nodes are values. A transformer returns the new class image, a map
  from jar entry names to nodes.
- Classes whose fields the source updates in place (`Hierarchy`,
  `Configuration`, the two contexts, the manager and the transformer
  objects) are Dafny classes. Their loops are proved against the functions
  that specify them.
- Iteration over a `HashMap` follows an `order` parameter that enumerates
  its keys.
- Random draws and SHA-256 digests are an oracle indexed by a draw counter.

The model follows the code where descriptions of the system differ from it:

- Filter precedence is exactly the four branches of `shouldTransform`.
- The string encryptor and the method renamer do not consult the filter.
  The method renamer excludes methods only by the `method-exclusions`
  custom setting.

## Model

| member | source | states |
|---|---|---|
| PatternMatcher.Translate | commons/src/main/java/dev/revere/obfuscator/util/PatternMatcher.java:16-19 | each pattern character becomes one token: `*` any run, `?` any single character, everything else (including `.`) itself |
| PatternMatcher.FullMatch | commons/src/main/java/dev/revere/obfuscator/util/PatternMatcher.java:20 | whole-input matching of the translated tokens: an accepted input holds a line terminator only where the tokens spell it out literally |
| PatternMatcher.Matches | commons/src/main/java/dev/revere/obfuscator/util/PatternMatcher.java:11-21 | `*` accepts every input; any other pattern accepts a line terminator only where the pattern holds it, and a pattern without `*` only inputs of its own length |
| PatternMatcher.StarMatchesEverything | commons/src/main/java/dev/revere/obfuscator/util/PatternMatcher.java:12-14 | the pattern `*` matches every input |
| PatternMatcher.LiteralMatchesExactly | commons/src/main/java/dev/revere/obfuscator/util/PatternMatcher.java:16-20 | a pattern without `*` and `?` matches an input exactly when the two are equal |
| PatternMatcher.AnyRunMatchesAnyRun | commons/src/main/java/dev/revere/obfuscator/util/PatternMatcher.java:18 | a `*` token swallows any run of non-line-terminator characters before the rest matches |
| PatternMatcher.AnyCharMatchesOne | commons/src/main/java/dev/revere/obfuscator/util/PatternMatcher.java:19 | a `?` token consumes exactly one character, never a line terminator |
| PatternMatcher.LiteralMatchesItself | commons/src/main/java/dev/revere/obfuscator/util/PatternMatcher.java:17 | a literal token, `.` included, matches only that character |
| PatternMatcher.MatchIsWhole | commons/src/main/java/dev/revere/obfuscator/util/PatternMatcher.java:20 | matching is anchored at both ends: a wildcard-free token list only matches inputs of its own length |
| PatternMatcher.TranslateAppend | commons/src/main/java/dev/revere/obfuscator/util/PatternMatcher.java:16-19 | translation is character by character, so it distributes over concatenation |
| PatternMatcher.StarBetweenLiterals | commons/src/main/java/dev/revere/obfuscator/util/PatternMatcher.java:16-20 | `pre*post` matches `pre`, then any line-free run, then `post` |
| PatternMatcher.StarBetweenLiteralsOnly | commons/src/main/java/dev/revere/obfuscator/util/PatternMatcher.java:16-20 | conversely, an input that `pre*post` accepts is `pre`, a run without line terminators, and `post` |
| PatternMatcher.DotMatchesOnlyDot | commons/src/main/java/dev/revere/obfuscator/util/PatternMatcher.java:17 | an escaped dot in a pattern rejects an input with another character in that place |
| TransformerFilter.MatchesAny | obfuscator/src/main/java/dev/revere/obfuscator/transformer/TransformerFilter.java:57-64 | true iff at least one pattern of the list matches the class name |
| TransformerFilter.MatchesPattern | obfuscator/src/main/java/dev/revere/obfuscator/transformer/TransformerFilter.java:66-76 | a package pattern matches only names at least as long as its base; any other pattern only names without `/` no longer than itself, and of exactly its length when it has no `^` |
| TransformerFilter.Eligible | obfuscator/src/main/java/dev/revere/obfuscator/transformer/TransformerFilter.java:16-56 | a globally excluded class is transformed iff the transformer includes it; otherwise iff the transformer does not exclude it |
| TransformerFilter.Admits | obfuscator/src/main/java/dev/revere/obfuscator/transformer/TransformerFilter.java:16-56 | a globally excluded class is admitted iff a transformer inclusion matches it, any other class iff no transformer exclusion matches it |
| TransformerFilter.ShouldTransform | obfuscator/src/main/java/dev/revere/obfuscator/transformer/TransformerFilter.java:16-56 | the same decision over the configuration's lists for the named transformer; with no global exclusions and no exclusions of its own, a transformer touches every class |
| TransformerFilter.GlobalInclusionsIrrelevant | obfuscator/src/main/java/dev/revere/obfuscator/transformer/TransformerFilter.java:30-37 | the decision never depends on the global inclusions |
| TransformerFilter.EverythingEligibleByDefault | obfuscator/src/main/java/dev/revere/obfuscator/transformer/TransformerFilter.java:50-55 | with no patterns anywhere every class is transformed |
| TransformerFilter.PackagePatternIsPrefix | obfuscator/src/main/java/dev/revere/obfuscator/transformer/TransformerFilter.java:67-69 | `base/**` matches exactly the class names that start with `base` in dotted form |
| TransformerFilter.PackagePatternNeedsNoSeparator | obfuscator/src/main/java/dev/revere/obfuscator/transformer/TransformerFilter.java:67-69 | the package test is a plain prefix test, so `a/b/**` also matches `a.bc` |
| TransformerFilter.PlainPatternIsExact | obfuscator/src/main/java/dev/revere/obfuscator/transformer/TransformerFilter.java:73-74 | a pattern without markers matches only the dotted form of itself |
| TransformerFilter.MarkedPatternIsNoPackagePattern | obfuscator/src/main/java/dev/revere/obfuscator/transformer/TransformerFilter.java:67-72 | a `^` pattern never reaches the package branch unless it ends in `/**` |
| TransformerFilter.ExactMarkerIsRedundant | obfuscator/src/main/java/dev/revere/obfuscator/transformer/TransformerFilter.java:70-72 | `^name` matches the same classes as `name` |
| TransformerFilter.EmptyPatternMatchesOnlyEmptyName | obfuscator/src/main/java/dev/revere/obfuscator/transformer/TransformerFilter.java:73-75 | the empty pattern matches only the empty class name |
| TransformerFilter.SingleMatch | obfuscator/src/main/java/dev/revere/obfuscator/transformer/TransformerFilter.java:57-64 | a one-pattern list matches iff that pattern does |
| TransformerFilter.InExcludedPackage | obfuscator/src/main/java/dev/revere/obfuscator/transformer/TransformerFilter.java:67-69 | every class `p.name` of a package `p` (written with `/` or `.`) matches that package's `/**` pattern |
| TransformerFilter.ExcludedPackageWithException | obfuscator/src/main/java/dev/revere/obfuscator/transformer/TransformerFilter.java:22-28 | a globally excluded package `p` (written with `/` or `.`) with one transformer inclusion `p/keep`: the class `p.keep` is transformed, any other class `p.other` of the package is not |
| Configuration.Configuration.constructor | commons/src/main/java/dev/revere/obfuscator/config/Configuration.java:30-38 | a new configuration holds no settings, patterns, custom settings or library paths |
| Configuration.Configuration.SetTransformerEnabled | commons/src/main/java/dev/revere/obfuscator/config/Configuration.java:126-128 | the transformer reads as enabled iff `enabled`, nothing else changes |
| Configuration.Configuration.AddInclusion | commons/src/main/java/dev/revere/obfuscator/config/Configuration.java:138-140 | the pattern is appended to the transformer's inclusion list, which starts empty; nothing else changes |
| Configuration.Configuration.AddExclusion | commons/src/main/java/dev/revere/obfuscator/config/Configuration.java:142-144 | the pattern is appended to the transformer's exclusion list; nothing else changes |
| Configuration.Configuration.AddGlobalInclusion | commons/src/main/java/dev/revere/obfuscator/config/Configuration.java:154-156 | the pattern is appended to the global inclusions; nothing else changes |
| Configuration.Configuration.AddGlobalExclusion | commons/src/main/java/dev/revere/obfuscator/config/Configuration.java:158-160 | the pattern is appended to the global exclusions; nothing else changes |
| Configuration.Configuration.AddLibraryPath | commons/src/main/java/dev/revere/obfuscator/config/Configuration.java:170-172 | the path is appended to the library paths; nothing else changes |
| Configuration.Configuration.AddCustomSetting | commons/src/main/java/dev/revere/obfuscator/config/Configuration.java:178-180 | afterwards the setting reads back as the value; other transformers' settings and all other state unchanged |
| Configuration.PatternList | commons/src/main/java/dev/revere/obfuscator/config/Configuration.java:67-72 | a value without a comma is the single trimmed pattern |
| Configuration.AppendPatterns | commons/src/main/java/dev/revere/obfuscator/config/Configuration.java:67-78 | appending no items leaves the map unchanged, otherwise the items extend the transformer's list |
| Configuration.AppendPatternsStep | commons/src/main/java/dev/revere/obfuscator/config/Configuration.java:69-71 | adding patterns one at a time equals adding the whole list |
| Configuration.TransformerKeyParts | commons/src/main/java/dev/revere/obfuscator/config/Configuration.java:50-52 | a key `transformers.` + dotted words splits into `transformers` followed by those words |
| Configuration.KeyOfTwoWords | commons/src/main/java/dev/revere/obfuscator/config/Configuration.java:52-60 | a key `transformers.name.word` splits into three parts |
| Configuration.KeyOfThreeWords | commons/src/main/java/dev/revere/obfuscator/config/Configuration.java:52-61 | a key `transformers.name.custom.setting` splits into four parts |
| Configuration.EnabledKey | commons/src/main/java/dev/revere/obfuscator/config/Configuration.java:64-66 | an `enabled` key sets the flag to the Boolean reading of the value |
| Configuration.InclusionsKey | commons/src/main/java/dev/revere/obfuscator/config/Configuration.java:67-72 | an `inclusions` key appends the trimmed comma-separated patterns to that transformer's inclusions |
| Configuration.ExclusionsKey | commons/src/main/java/dev/revere/obfuscator/config/Configuration.java:73-78 | an `exclusions` key appends the trimmed comma-separated patterns to that transformer's exclusions |
| Configuration.CustomKey | commons/src/main/java/dev/revere/obfuscator/config/Configuration.java:79-83 | a four-part `custom` key stores the raw value under the setting name |
| Configuration.CustomKeyWithoutSetting | commons/src/main/java/dev/revere/obfuscator/config/Configuration.java:79-83 | a three-part `custom` key changes nothing |
| Configuration.UnknownSettingIgnored | commons/src/main/java/dev/revere/obfuscator/config/Configuration.java:63-87 | a word other than enabled, inclusions, exclusions or custom changes nothing |
| Configuration.ShortKeyIgnored | commons/src/main/java/dev/revere/obfuscator/config/Configuration.java:53-57 | a key with fewer than three parts changes nothing |
| Configuration.EmptyValueIsOneEmptyPattern | commons/src/main/java/dev/revere/obfuscator/config/Configuration.java:68 | an empty value yields the single empty pattern, not an empty list |
| Configuration.MissingGlobalKey | commons/src/main/java/dev/revere/obfuscator/config/Configuration.java:91-100 | a missing global key yields the single empty pattern |
| Configuration.GetProperty | commons/src/main/java/dev/revere/obfuscator/config/Configuration.java:91-92 | the value of the key when present (keys distinct), the default when absent |
| Configuration.AddInclusions | commons/src/main/java/dev/revere/obfuscator/config/Configuration.java:67-72 | the transformer's inclusions grow by the trimmed patterns, the rest is unchanged |
| Configuration.AddExclusions | commons/src/main/java/dev/revere/obfuscator/config/Configuration.java:73-78 | the transformer's exclusions grow by the trimmed patterns, the rest is unchanged |
| Configuration.AddGlobalInclusions | commons/src/main/java/dev/revere/obfuscator/config/Configuration.java:91-96 | the global inclusions grow by the trimmed patterns, per-transformer settings unchanged |
| Configuration.AddGlobalExclusions | commons/src/main/java/dev/revere/obfuscator/config/Configuration.java:97-100 | the global exclusions grow by the trimmed patterns, per-transformer settings unchanged |
| Configuration.ApplyProperty | commons/src/main/java/dev/revere/obfuscator/config/Configuration.java:50-89 | one property changes the per-transformer settings exactly as its key prescribes, and nothing global |
| Configuration.ApplyKey | commons/src/main/java/dev/revere/obfuscator/config/Configuration.java:50-89 | one key changes the settings only if it starts with `transformers.` and has at least three parts, then only those of the transformer its second part names; enabled flags and custom settings stay set, pattern lists only grow at the end |
| Configuration.ApplyKeys | commons/src/main/java/dev/revere/obfuscator/config/Configuration.java:50-89 | the key loop over all properties: without a `transformers.` key nothing changes, and settings only ever grow in the sense of `ApplyKey` |
| Configuration.LoadFromProperties | commons/src/main/java/dev/revere/obfuscator/config/Configuration.java:40-109 | the loaded settings are every property applied in turn; the global lists are the parsed global keys; no library path |
| JavaText.JavaSplit | commons/src/main/java/dev/revere/obfuscator/config/Configuration.java:52 | `String.split`: no separator gives the whole string; pieces contain no separator; trailing empty pieces are dropped |
| JavaText.JavaSplitJoin | commons/src/main/java/dev/revere/obfuscator/config/Configuration.java:68 | splitting comma-joined items, the last one non-empty, gives the items back |
| JavaText.TrimIsInnerPart | commons/src/main/java/dev/revere/obfuscator/config/Configuration.java:70 | trimming yields a middle part of the input that neither starts nor ends with a blank |
| JavaText.TrimKeepsClean | commons/src/main/java/dev/revere/obfuscator/config/Configuration.java:70 | a string that neither starts nor ends with a blank is its own trim |
| JavaText.Dotted | obfuscator/src/main/java/dev/revere/obfuscator/hierarchy/Hierarchy.java:28 | replacing `/` by `.` keeps the length and leaves no `/` |
| ClassModel.MethodKeyOwner | obfuscator/src/main/java/dev/revere/obfuscator/hierarchy/Hierarchy.java:41 | for a legal member name and descriptor the text before the last dot of `class.name+desc` is the class |
| ClassModel.ClassNameOfKey | obfuscator/src/main/java/dev/revere/obfuscator/transformer/transformers/MethodTransformer.java:38 | the class name taken from a jar entry as written (`/` to `.`, then every `.class` removed) has no `/` and is no longer than the entry |
| ClassModel.ClassNameOfClassFile | obfuscator/src/main/java/dev/revere/obfuscator/transformer/transformers/MethodTransformer.java:38 | for an entry `n.class` whose dotted stem holds no `.class`, the derived name is the dotted stem |
| ClassModel.ClassNameOfKeyCutsPackage | obfuscator/src/main/java/dev/revere/obfuscator/transformer/transformers/MethodTransformer.java:38 | for an entry `p/classq/x.class` the as-written derivation yields `pq.x`, which differs from the class's name `p.classq.x` |
| ClassModel.ClassloaderPackageIsAnInstance | obfuscator/src/main/java/dev/revere/obfuscator/transformer/transformers/MethodTransformer.java:38 | the entry `com/classloader/X.class` meets the premises of the previous lemma, with `p`, `q`, `x` = `com`, `loader`, `X` |
| ClassModel.ClassNameOfEntry | obfuscator/src/main/java/dev/revere/obfuscator/transformer/transformers/MethodTransformer.java:38 | the corrected derivation: for an entry ending in `.class` the name followed by `.class` is the dotted entry; no `/`, no longer than the entry |
| ClassModel.ClassNameOfEntryOfClassFile | obfuscator/src/main/java/dev/revere/obfuscator/transformer/transformers/MethodTransformer.java:38 | the corrected derivation maps every entry `n.class` to the dotted stem, with no condition on the stem |
| ClassModel.ClassNameOfKeyAsIntended | obfuscator/src/main/java/dev/revere/obfuscator/transformer/transformers/MethodTransformer.java:38 | as written and corrected agree on `n.class` whenever the dotted stem holds no `.class` |
| Naming.Hex | obfuscator/src/main/java/dev/revere/obfuscator/transformer/transformers/MethodTransformer.java:243-246 | two lower-case hex digits per byte, high nibble first |
| Naming.HexIsHex | obfuscator/src/main/java/dev/revere/obfuscator/transformer/transformers/MethodTransformer.java:243-246 | hex output consists of hex digits only |
| Naming.HexInjective | obfuscator/src/main/java/dev/revere/obfuscator/transformer/transformers/MethodTransformer.java:243-246 | different byte strings give different hex strings |
| Naming.EncodeHex | obfuscator/src/main/java/dev/revere/obfuscator/transformer/transformers/MethodTransformer.java:243-246 | the loop over the digest computes exactly the hex encoding |
| Naming.SecureMethodName | obfuscator/src/main/java/dev/revere/obfuscator/transformer/transformers/MethodTransformer.java:238-254 | a method name is one letter followed by 63 hex digits |
| Naming.SecureFieldName | obfuscator/src/main/java/dev/revere/obfuscator/transformer/transformers/FieldTransformer.java:86-102 | a field name is one letter followed by 64 hex digits |
| Naming.MethodNameForgetsFirstDigit | obfuscator/src/main/java/dev/revere/obfuscator/transformer/transformers/MethodTransformer.java:248 | two method names coincide iff the letter, the low nibble of byte 0 and bytes 1 to 31 coincide |
| Naming.FieldNameDeterminesDraw | obfuscator/src/main/java/dev/revere/obfuscator/transformer/transformers/FieldTransformer.java:91-96 | a field name determines the letter and the whole digest it came from |
| Naming.SecureNameHasNoDot | obfuscator/src/main/java/dev/revere/obfuscator/transformer/transformers/MethodTransformer.java:238-254 | generated names contain no dot |
| Hierarchy.Hierarchy.constructor | obfuscator/src/main/java/dev/revere/obfuscator/hierarchy/Hierarchy.java:21-25 | a new hierarchy has empty tables and is valid |
| Hierarchy.Added | obfuscator/src/main/java/dev/revere/obfuscator/hierarchy/Hierarchy.java:27-44 | `addClass` on the maps: the class is known under its dotted name; every other class keeps its superclass edge; a declared superclass becomes the new edge and lists the class among its subclasses; without a superclass neither edge map changes; index entries only grow |
| Hierarchy.IndexMethods | obfuscator/src/main/java/dev/revere/obfuscator/hierarchy/Hierarchy.java:40-43 | index entries only grow, and each new key is the key of one of the class's methods |
| Hierarchy.Hierarchy.AddClass | obfuscator/src/main/java/dev/revere/obfuscator/hierarchy/Hierarchy.java:27-44 | the state becomes the class added (node, edge, method set, index); validity and index ownership are kept |
| Hierarchy.Hierarchy.IndexClassMethods | obfuscator/src/main/java/dev/revere/obfuscator/hierarchy/Hierarchy.java:37-43 | the method index gains the class under each of its method keys; the other tables are unchanged |
| Hierarchy.AddedKeepsValid | obfuscator/src/main/java/dev/revere/obfuscator/hierarchy/Hierarchy.java:27-44 | adding a class keeps the index valid: every edge and index entry names an added class, and every superclass edge is backed by the superclass's subclass entry |
| Hierarchy.IndexMethodsEntries | obfuscator/src/main/java/dev/revere/obfuscator/hierarchy/Hierarchy.java:37-43 | each index entry is the old entry plus the class exactly when the class declares that key |
| Hierarchy.IndexListsDeclaringClass | obfuscator/src/main/java/dev/revere/obfuscator/hierarchy/Hierarchy.java:37-43 | every declared method's key lists the declaring class |
| Hierarchy.IndexedClasses | obfuscator/src/main/java/dev/revere/obfuscator/hierarchy/Hierarchy.java:37-43 | the index gains no class other than the one being added |
| Hierarchy.Hierarchy.BuildHierarchy | obfuscator/src/main/java/dev/revere/obfuscator/hierarchy/Hierarchy.java:46-53 | the superclass map is rebuilt from the subclass sets, in the iteration order; validity, edge backing included, is kept; the rest is unchanged |
| Hierarchy.Rebuilt | obfuscator/src/main/java/dev/revere/obfuscator/hierarchy/Hierarchy.java:46-53 | no class loses its superclass edge, and every edge is the old one or points to a visited superclass that lists the class |
| Hierarchy.Hierarchy.WriteSuperclass | obfuscator/src/main/java/dev/revere/obfuscator/hierarchy/Hierarchy.java:49-51 | every subclass of one superclass points to that superclass afterwards |
| Hierarchy.RebuiltEdge | obfuscator/src/main/java/dev/revere/obfuscator/hierarchy/Hierarchy.java:46-53 | a class points, after the rebuild, to the last superclass in the iteration order whose subclass set lists it |
| Hierarchy.RebuiltKeepsOthers | obfuscator/src/main/java/dev/revere/obfuscator/hierarchy/Hierarchy.java:46-53 | a class listed in no subclass set keeps its old superclass entry |
| Hierarchy.SuperChain | obfuscator/src/main/java/dev/revere/obfuscator/hierarchy/Hierarchy.java:59-65 | the chain of superclasses is empty exactly for a class without a superclass entry |
| Hierarchy.Hierarchy.IsSubclassOf | obfuscator/src/main/java/dev/revere/obfuscator/hierarchy/Hierarchy.java:55-67 | true iff the classes are equal or the second lies on the first's superclass chain |
| Hierarchy.Hierarchy.GetClass | obfuscator/src/main/java/dev/revere/obfuscator/hierarchy/Hierarchy.java:69-71 | a node is returned exactly for a known class |
| Hierarchy.Hierarchy.GetSubclasses | obfuscator/src/main/java/dev/revere/obfuscator/hierarchy/Hierarchy.java:73-75 | an unknown class has no subclasses |
| Hierarchy.Hierarchy.GetSuperclass | obfuscator/src/main/java/dev/revere/obfuscator/hierarchy/Hierarchy.java:77-79 | a superclass is returned exactly for a class with an edge |
| Hierarchy.Hierarchy.GetMethodsInClass | obfuscator/src/main/java/dev/revere/obfuscator/hierarchy/Hierarchy.java:81-83 | an unknown class has no methods |
| Hierarchy.Hierarchy.GetClassesWithMethod | obfuscator/src/main/java/dev/revere/obfuscator/hierarchy/Hierarchy.java:85-88 | since the key names the class, the lookup can only return that class |
| Hierarchy.Hierarchy.GetHierarchy | obfuscator/src/main/java/dev/revere/obfuscator/hierarchy/Hierarchy.java:90-101 | the loop returns the class followed by its known ancestors, nearest first |
| Hierarchy.Ancestry | obfuscator/src/main/java/dev/revere/obfuscator/hierarchy/Hierarchy.java:90-101 | the ancestry starts with the class itself |
| Hierarchy.AncestryFollowsEdges | obfuscator/src/main/java/dev/revere/obfuscator/hierarchy/Hierarchy.java:90-101 | each next element is the superclass of the one before, and a known class |
| Hierarchy.AncestryStopsAtUnknown | obfuscator/src/main/java/dev/revere/obfuscator/hierarchy/Hierarchy.java:94-98 | the walk ends at a class whose superclass is missing or unknown |
| Hierarchy.AncestrySuffix | obfuscator/src/main/java/dev/revere/obfuscator/hierarchy/Hierarchy.java:90-101 | from any element on, the ancestry is that element's own ancestry |
| Hierarchy.AncestryWithinSuperChain | obfuscator/src/main/java/dev/revere/obfuscator/hierarchy/Hierarchy.java:90-101 | the ancestry is a prefix of the class plus its superclass chain |
| TransformationContext.TransformationContext.constructor | obfuscator/src/main/java/dev/revere/obfuscator/transformer/TransformationContext.java:21-25 | a new context has no mappings |
| TransformationContext.TransformationContext.AddFieldMapping | obfuscator/src/main/java/dev/revere/obfuscator/transformer/TransformationContext.java:27-29 | the renamed field reads back as the new name; every other pair and all method mappings unchanged |
| TransformationContext.TransformationContext.GetNewFieldName | obfuscator/src/main/java/dev/revere/obfuscator/transformer/TransformationContext.java:31-37 | the recorded new name, or the old name when none is recorded |
| TransformationContext.TransformationContext.AddMethodMapping | obfuscator/src/main/java/dev/revere/obfuscator/transformer/TransformationContext.java:39-41 | the renamed method reads back as the new name; every other pair and all field mappings unchanged |
| TransformationContext.TransformationContext.GetNewMethodName | obfuscator/src/main/java/dev/revere/obfuscator/transformer/TransformationContext.java:43-49 | the recorded new name, or the old name when none is recorded |
| TransformationContext.TransformationContext.GetFieldMappings | obfuscator/src/main/java/dev/revere/obfuscator/transformer/TransformationContext.java:51-53 | the class's mapping, empty for an unknown class |
| TransformationContext.TransformationContext.GetMethodMappings | obfuscator/src/main/java/dev/revere/obfuscator/transformer/TransformationContext.java:55-57 | the class's mapping, empty for an unknown class |
| TransformerContext.TransformerContext.constructor | obfuscator/src/main/java/dev/revere/obfuscator/transformer/context/TransformerContext.java:27-31 | a new context protects nothing and keeps the given hierarchy |
| TransformerContext.TransformerContext.AddProtectedField | obfuscator/src/main/java/dev/revere/obfuscator/transformer/context/TransformerContext.java:33-35 | the field is protected afterwards, no other pair changes status, and re-adding changes nothing |
| TransformerContext.TransformerContext.AddProtectedMethod | obfuscator/src/main/java/dev/revere/obfuscator/transformer/context/TransformerContext.java:37-39 | the method is protected afterwards, no other pair changes status, and re-adding changes nothing |
| TransformerContext.TransformerContext.GetHierarchy | obfuscator/src/main/java/dev/revere/obfuscator/transformer/context/TransformerContext.java:24-25 | the hierarchy the context was built with |
| TransformerManager.FirstNamed | obfuscator/src/main/java/dev/revere/obfuscator/transformer/TransformerManager.java:35-43 | none iff no registration has the name, otherwise a registration with that name |
| TransformerManager.EnabledOnly | obfuscator/src/main/java/dev/revere/obfuscator/transformer/TransformerManager.java:45-51 | exactly the registered transformers the configuration enables, all enabled |
| TransformerManager.EnabledOnlyAppend | obfuscator/src/main/java/dev/revere/obfuscator/transformer/TransformerManager.java:45-51 | the enabled selection of a concatenation is the concatenation of the selections |
| TransformerManager.ApplyAllRunsEnabledInOrder | obfuscator/src/main/java/dev/revere/obfuscator/transformer/TransformerManager.java:53-68 | the run is the chain of the enabled transformers in registration order |
| TransformerManager.ChainAppend | obfuscator/src/main/java/dev/revere/obfuscator/transformer/TransformerManager.java:55-66 | chaining a concatenation runs the second list on the first list's output, unless the first failed |
| TransformerManager.FailureStopsTheRun | obfuscator/src/main/java/dev/revere/obfuscator/transformer/TransformerManager.java:58-64 | the first failing enabled transformer's failure is the result; later ones do not run |
| TransformerManager.NothingEnabled | obfuscator/src/main/java/dev/revere/obfuscator/transformer/TransformerManager.java:53-68 | with nothing enabled the classes come back unchanged |
| TransformerManager.Chain | obfuscator/src/main/java/dev/revere/obfuscator/transformer/TransformerManager.java:55-66 | running transformers in turn: a failure is, unchanged, the failure of one of them; if none can fail, neither can the chain |
| TransformerManager.ApplyAll | obfuscator/src/main/java/dev/revere/obfuscator/transformer/TransformerManager.java:53-68 | the loop over the registered transformers: a failure is the failure of an enabled one; with none enabled the classes come back unchanged |
| TransformerManager.TransformerManager.constructor | obfuscator/src/main/java/dev/revere/obfuscator/transformer/TransformerManager.java:26-29 | a new manager has no transformers and a fresh empty context |
| TransformerManager.TransformerManager.AddTransformer | obfuscator/src/main/java/dev/revere/obfuscator/transformer/TransformerManager.java:31-33 | registration appends |
| TransformerManager.TransformerManager.GetTransformer | obfuscator/src/main/java/dev/revere/obfuscator/transformer/TransformerManager.java:35-43 | the loop returns the first registration with the name, none if there is none |
| TransformerManager.TransformerManager.CollectInformation | obfuscator/src/main/java/dev/revere/obfuscator/transformer/TransformerManager.java:45-51 | information is collected from exactly the enabled transformers, in order |
| TransformerManager.TransformerManager.ApplyTransformations | obfuscator/src/main/java/dev/revere/obfuscator/transformer/TransformerManager.java:53-68 | the loop computes the chained run of the enabled transformers |
| MethodTransformer.ListedNamesAreExcluded | obfuscator/src/main/java/dev/revere/obfuscator/transformer/transformers/MethodTransformer.java:225-236 | a name is excluded iff the comma-separated setting lists it; without the setting nothing is |
| MethodTransformer.IsExcludedMethod | obfuscator/src/main/java/dev/revere/obfuscator/transformer/transformers/MethodTransformer.java:225-236 | without the `method-exclusions` setting no method is excluded; an excluded name holds no comma and neither starts nor ends with a blank |
| MethodTransformer.NewMethodName | obfuscator/src/main/java/dev/revere/obfuscator/transformer/transformers/MethodTransformer.java:238-254 | every generated method name has the secure shape |
| MethodTransformer.RenameMethods | obfuscator/src/main/java/dev/revere/obfuscator/transformer/transformers/MethodTransformer.java:76-93 | methods keep everything but their names, in the same order, and draws only grow |
| MethodTransformer.RenameKeepsEntries | obfuscator/src/main/java/dev/revere/obfuscator/transformer/transformers/MethodTransformer.java:79-90 | existing mapping entries are never overwritten (first writer wins) |
| MethodTransformer.RenameMappingKeys | obfuscator/src/main/java/dev/revere/obfuscator/transformer/transformers/MethodTransformer.java:76-93 | the mapping's keys are the old ones plus the keys of the non-excluded methods, the new entries secure names |
| MethodTransformer.RenamedMethods | obfuscator/src/main/java/dev/revere/obfuscator/transformer/transformers/MethodTransformer.java:76-93 | each method is renamed to its recorded entry when not excluded and unchanged when excluded |
| MethodTransformer.DeclarationPass | obfuscator/src/main/java/dev/revere/obfuscator/transformer/transformers/MethodTransformer.java:37-41 | the pass changes method names only, and only in the classes it visits |
| MethodTransformer.DeclarationKeys | obfuscator/src/main/java/dev/revere/obfuscator/transformer/transformers/MethodTransformer.java:37-41 | the global mapping has an entry exactly for each non-excluded method of a visited class |
| MethodTransformer.DeclaredNamesAreSecure | obfuscator/src/main/java/dev/revere/obfuscator/transformer/transformers/MethodTransformer.java:37-41 | every recorded new name has the secure shape |
| MethodTransformer.DeclarationRenames | obfuscator/src/main/java/dev/revere/obfuscator/transformer/transformers/MethodTransformer.java:37-41 | in every visited class each method carries its recorded name, or its own when excluded |
| MethodTransformer.DeclareTwoInAnyOrder | obfuscator/src/main/java/dev/revere/obfuscator/transformer/transformers/MethodTransformer.java:37-41 | one signature declared in two classes gets two different keys whichever class comes first |
| MethodTransformer.FindMatchingMethod | obfuscator/src/main/java/dev/revere/obfuscator/transformer/transformers/MethodTransformer.java:203-210 | the first method with the name and descriptor; none iff no method has them |
| MethodTransformer.PreserveOverrideAnnotation | obfuscator/src/main/java/dev/revere/obfuscator/transformer/transformers/MethodTransformer.java:212-223 | the list becomes non-null and holds `@Override` exactly once if absent before; nothing else changes |
| MethodTransformer.PreserveOverrideIdempotent | obfuscator/src/main/java/dev/revere/obfuscator/transformer/transformers/MethodTransformer.java:212-223 | annotating twice equals annotating once |
| MethodTransformer.OverriddenMethod | obfuscator/src/main/java/dev/revere/obfuscator/transformer/transformers/MethodTransformer.java:188-197 | a method matching a superclass method with a recorded entry takes that name and `@Override`, otherwise unchanged |
| MethodTransformer.OverrideClass | obfuscator/src/main/java/dev/revere/obfuscator/transformer/transformers/MethodTransformer.java:183-201 | only the method list may change, and only for a class with a known superclass |
| MethodTransformer.OverridePass | obfuscator/src/main/java/dev/revere/obfuscator/transformer/transformers/MethodTransformer.java:46-50 | every class goes through the override step, no class appears or disappears |
| MethodTransformer.OverrideMissesRenamedMethod | obfuscator/src/main/java/dev/revere/obfuscator/transformer/transformers/MethodTransformer.java:189 | a subclass method already carrying a generated name never matches the superclass's original names |
| MethodTransformer.OverridePassKeepsRenamed | obfuscator/src/main/java/dev/revere/obfuscator/transformer/transformers/MethodTransformer.java:46-50 | over an image whose methods all carry generated names, the override pass changes nothing |
| MethodTransformer.FindNewMethodName | obfuscator/src/main/java/dev/revere/obfuscator/transformer/transformers/MethodTransformer.java:164-174 | none iff no class of the ancestry has an entry for the signature |
| MethodTransformer.FindNewMethodNameIsFirst | obfuscator/src/main/java/dev/revere/obfuscator/transformer/transformers/MethodTransformer.java:164-174 | otherwise the entry of the nearest such class |
| MethodTransformer.UpdatedInsn | obfuscator/src/main/java/dev/revere/obfuscator/transformer/transformers/MethodTransformer.java:147-161 | only method instructions change, only in name, and only to a name the ancestry lookup finds |
| MethodTransformer.OverrideIsLost | obfuscator/src/main/java/dev/revere/obfuscator/transformer/transformers/MethodTransformer.java:31-64 | a subclass override and its superclass method end with different names, while a call through the superclass resolves to the superclass's name |
| MethodTransformer.ResolvedNameIsOutermost | obfuscator/src/main/java/dev/revere/obfuscator/transformer/transformers/MethodTransformer.java:164-174 | the corrected lookup takes the entry of the outermost ancestor that has one |
| MethodTransformer.VirtualCallReachesOverride | obfuscator/src/main/java/dev/revere/obfuscator/transformer/transformers/MethodTransformer.java:144-174 | corrected: a call whose owner is an ancestor of the class resolves to the same name the class's method receives |
| MethodTransformer.OverrideKeepsName | obfuscator/src/main/java/dev/revere/obfuscator/transformer/transformers/MethodTransformer.java:183-201 | corrected: an override is renamed to its superclass method's new name |
| MethodTransformer.OverrideIsKept | obfuscator/src/main/java/dev/revere/obfuscator/transformer/transformers/MethodTransformer.java:31-64 | corrected: the override and its superclass method end with the same name |
| MethodTransformer.TransformResult | obfuscator/src/main/java/dev/revere/obfuscator/transformer/transformers/MethodTransformer.java:31-64 | the three passes as written keep the entries, the draws never go back, classes change only in their methods, by count kept; with distinct entries a signature is mapped iff it is a renamable declaration of a visited class |
| MethodTransformer.CorrectedTransformResult | obfuscator/src/main/java/dev/revere/obfuscator/transformer/transformers/MethodTransformer.java:31-64 | the same guarantees for the corrected override and call-site resolution |
| MethodTransformer.MethodTransformer.constructor | obfuscator/src/main/java/dev/revere/obfuscator/transformer/transformers/MethodTransformer.java:25-28 | a new transformer has an empty global mapping and no draws |
| MethodTransformer.MethodTransformer.GenerateSecureMethodName | obfuscator/src/main/java/dev/revere/obfuscator/transformer/transformers/MethodTransformer.java:238-254 | the name of the next draw; one draw used; the mapping unchanged |
| MethodTransformer.MethodTransformer.RenameMethodsInClass | obfuscator/src/main/java/dev/revere/obfuscator/transformer/transformers/MethodTransformer.java:66-94 | the loop computes the per-class renaming and its mapping |
| MethodTransformer.MethodTransformer.RenameAllClasses | obfuscator/src/main/java/dev/revere/obfuscator/transformer/transformers/MethodTransformer.java:37-41 | the loop computes the declaration pass over the visited classes |
| MethodTransformer.MethodTransformer.HandleOverriddenMethods | obfuscator/src/main/java/dev/revere/obfuscator/transformer/transformers/MethodTransformer.java:183-201 | the loop computes the override step of one class |
| MethodTransformer.MethodTransformer.HandleAllOverrides | obfuscator/src/main/java/dev/revere/obfuscator/transformer/transformers/MethodTransformer.java:46-50 | the loop computes the override pass |
| MethodTransformer.MethodTransformer.FindNewMethodNameInHierarchy | obfuscator/src/main/java/dev/revere/obfuscator/transformer/transformers/MethodTransformer.java:164-174 | the loop computes the nearest recorded name along the ancestry |
| MethodTransformer.MethodTransformer.UpdateMethodReferences | obfuscator/src/main/java/dev/revere/obfuscator/transformer/transformers/MethodTransformer.java:144-162 | the loop rewrites each instruction of the method as the call-site rule prescribes |
| MethodTransformer.MethodTransformer.UpdateAllReferences | obfuscator/src/main/java/dev/revere/obfuscator/transformer/transformers/MethodTransformer.java:53-58 | the loop computes the call-site pass |
| MethodTransformer.MethodTransformer.UpdateClassReferences | obfuscator/src/main/java/dev/revere/obfuscator/transformer/transformers/MethodTransformer.java:53-58 | every method of the class gets its references rewritten |
| MethodTransformer.MethodTransformer.Transform | obfuscator/src/main/java/dev/revere/obfuscator/transformer/transformers/MethodTransformer.java:30-64 | the three passes in order, over the same entry names |
| FieldTransformer.NewFieldName | obfuscator/src/main/java/dev/revere/obfuscator/transformer/transformers/FieldTransformer.java:86-102 | every generated field name has the secure shape |
| FieldTransformer.RenameFields | obfuscator/src/main/java/dev/revere/obfuscator/transformer/transformers/FieldTransformer.java:41-53 | kept fields unchanged, every other field renamed to a secure name with all else the same |
| FieldTransformer.RenameFieldsKeys | obfuscator/src/main/java/dev/revere/obfuscator/transformer/transformers/FieldTransformer.java:41-53 | the class mapping's keys are the old ones plus those of the renamed fields |
| FieldTransformer.EmptyMappingIffAllKept | obfuscator/src/main/java/dev/revere/obfuscator/transformer/transformers/FieldTransformer.java:54-56 | a class's mapping is empty iff every field is protected, synthetic or an enum constant |
| FieldTransformer.RenamedFieldsRecorded | obfuscator/src/main/java/dev/revere/obfuscator/transformer/transformers/FieldTransformer.java:50-52 | each renamed field's `name+desc` maps to its new name |
| FieldTransformer.DeclarationPass | obfuscator/src/main/java/dev/revere/obfuscator/transformer/transformers/FieldTransformer.java:35-58 | only field names change, and not in unvisited or filtered-out classes |
| FieldTransformer.DeclaredFields | obfuscator/src/main/java/dev/revere/obfuscator/transformer/transformers/FieldTransformer.java:35-58 | every admitted class's fields carry the names its mapping records |
| FieldTransformer.DeclaredKeys | obfuscator/src/main/java/dev/revere/obfuscator/transformer/transformers/FieldTransformer.java:35-58 | mappings exist only for admitted classes, and only for their renamed keys |
| FieldTransformer.UpdatedFieldInsn | obfuscator/src/main/java/dev/revere/obfuscator/transformer/transformers/FieldTransformer.java:64-74 | only field instructions change, only in name, and only through an entry of their exact owner |
| FieldTransformer.ReferencePass | obfuscator/src/main/java/dev/revere/obfuscator/transformer/transformers/FieldTransformer.java:61-78 | references are rewritten without touching any field declaration |
| FieldTransformer.ReferencesFollowDeclarations | obfuscator/src/main/java/dev/revere/obfuscator/transformer/transformers/FieldTransformer.java:35-78 | a reference through the declaring class ends with the field's new name |
| FieldTransformer.InheritedFieldReferenceLost | obfuscator/src/main/java/dev/revere/obfuscator/transformer/transformers/FieldTransformer.java:64-74 | a reference to an inherited field through the subclass keeps the old name while the field is renamed |
| FieldTransformer.DeclaringClass | obfuscator/src/main/java/dev/revere/obfuscator/transformer/transformers/FieldTransformer.java:64-74 | corrected lookup: the first class of the ancestry that declares the field; none iff none does |
| FieldTransformer.ResolvedFieldInsn | obfuscator/src/main/java/dev/revere/obfuscator/transformer/transformers/FieldTransformer.java:64-74 | corrected: only field instructions change, and only in name |
| FieldTransformer.InheritedFieldReferenceKept | obfuscator/src/main/java/dev/revere/obfuscator/transformer/transformers/FieldTransformer.java:64-74 | corrected: the reference through the subclass takes the field's new name |
| FieldTransformer.TransformResult | obfuscator/src/main/java/dev/revere/obfuscator/transformer/transformers/FieldTransformer.java:29-84 | both passes keep the entries and the field and method counts, each field changes at most its name, the draws never go back, and a class not visited or not admitted keeps its fields |
| FieldTransformer.FieldTransformer.constructor | obfuscator/src/main/java/dev/revere/obfuscator/transformer/transformers/FieldTransformer.java:24-26 | a new transformer has used no draws |
| FieldTransformer.FieldTransformer.GenerateSecureFieldName | obfuscator/src/main/java/dev/revere/obfuscator/transformer/transformers/FieldTransformer.java:86-102 | the name of the next draw; one draw used |
| FieldTransformer.FieldTransformer.RenameFieldsInClass | obfuscator/src/main/java/dev/revere/obfuscator/transformer/transformers/FieldTransformer.java:41-57 | the loop computes the per-class renaming and records the mapping when it is not empty |
| FieldTransformer.FieldTransformer.RenameAllClasses | obfuscator/src/main/java/dev/revere/obfuscator/transformer/transformers/FieldTransformer.java:35-58 | the loop computes the declaration pass |
| FieldTransformer.FieldTransformer.UpdateFieldReferences | obfuscator/src/main/java/dev/revere/obfuscator/transformer/transformers/FieldTransformer.java:66-74 | the loop rewrites every instruction of a method |
| FieldTransformer.FieldTransformer.UpdateAllReferences | obfuscator/src/main/java/dev/revere/obfuscator/transformer/transformers/FieldTransformer.java:61-78 | the loop computes the reference pass |
| FieldTransformer.FieldTransformer.UpdateClassReferences | obfuscator/src/main/java/dev/revere/obfuscator/transformer/transformers/FieldTransformer.java:62-76 | every method of the class gets its references rewritten |
| FieldTransformer.FieldTransformer.Transform | obfuscator/src/main/java/dev/revere/obfuscator/transformer/transformers/FieldTransformer.java:28-84 | both passes in order over the same entry names |
| StringTransformer.MagicByteOf | obfuscator/src/main/java/dev/revere/obfuscator/transformer/transformers/StringTransformer.java:212-215 | each byte of the magic constant is below 256 |
| StringTransformer.MagicByte | obfuscator/src/main/java/dev/revere/obfuscator/transformer/transformers/StringTransformer.java:209-215 | the byte mixed in at each position is below 256 |
| StringTransformer.EncryptedByte | obfuscator/src/main/java/dev/revere/obfuscator/transformer/transformers/StringTransformer.java:216 | the cipher byte is the plain byte XOR the low bytes of key, magic byte and index; the sign extension and high bytes drop out |
| StringTransformer.Cipher | obfuscator/src/main/java/dev/revere/obfuscator/transformer/transformers/StringTransformer.java:211-217 | the output has the input's length and each byte is masked |
| StringTransformer.CipherIsInvolution | obfuscator/src/main/java/dev/revere/obfuscator/transformer/transformers/StringTransformer.java:216 | applying the cipher twice with one key restores the bytes |
| StringTransformer.CipherSeesLowKeyByte | obfuscator/src/main/java/dev/revere/obfuscator/transformer/transformers/StringTransformer.java:216 | two keys give the same cipher text iff their low bytes agree |
| StringTransformer.DecryptEncrypt | obfuscator/src/main/java/dev/revere/obfuscator/transformer/transformers/StringTransformer.java:206-219 | Base64-decoding, deciphering and UTF-8-decoding an encrypted string gives it back |
| StringTransformer.StringTransformer.Encrypt | obfuscator/src/main/java/dev/revere/obfuscator/transformer/transformers/StringTransformer.java:206-219 | the encryption of the input under the key |
| StringTransformer.EncryptText | obfuscator/src/main/java/dev/revere/obfuscator/transformer/transformers/StringTransformer.java:206-219 | the cipher text has four Base64 digits per three UTF-8 bytes begun, so it is never shorter than the input |
| StringTransformer.DecryptText | obfuscator/src/main/java/dev/revere/obfuscator/transformer/transformers/StringTransformer.java:206-219 | the decryption that inverts `encrypt`: a text whose length is not a multiple of four is rejected, and an accepted one decodes to at most three characters per four digits |
| StringTransformer.JavaInt | obfuscator/src/main/java/dev/revere/obfuscator/transformer/transformers/StringTransformer.java:188 | the key pushed on the stack is a signed 32-bit value |
| StringTransformer.KeyOfJavaInt | obfuscator/src/main/java/dev/revere/obfuscator/transformer/transformers/StringTransformer.java:188-193 | the pushed integer determines the key |
| StringTransformer.Utf16Length | obfuscator/src/main/java/dev/revere/obfuscator/transformer/transformers/StringTransformer.java:187 | the Java length is at least the number of code points |
| StringTransformer.NoEncryptableIffCountZero | obfuscator/src/main/java/dev/revere/obfuscator/transformer/transformers/StringTransformer.java:183-199 | no literal qualifies iff the count is zero |
| StringTransformer.RewriteInsns | obfuscator/src/main/java/dev/revere/obfuscator/transformer/transformers/StringTransformer.java:183-199 | each qualifying literal becomes three instructions and uses one draw |
| StringTransformer.NothingToEncrypt | obfuscator/src/main/java/dev/revere/obfuscator/transformer/transformers/StringTransformer.java:183-199 | without qualifying literals nothing changes |
| StringTransformer.RestoreRewrite | obfuscator/src/main/java/dev/revere/obfuscator/transformer/transformers/StringTransformer.java:191-197 | the rewrite loses nothing: undoing every replacement gives the original list |
| StringTransformer.LongLiteralReplaced | obfuscator/src/main/java/dev/revere/obfuscator/transformer/transformers/StringTransformer.java:187-197 | an 11-character literal is replaced by the cipher text, the key and the call |
| StringTransformer.ShortLiteralKept | obfuscator/src/main/java/dev/revere/obfuscator/transformer/transformers/StringTransformer.java:187 | a 2-character literal stays |
| StringTransformer.RewriteMethods | obfuscator/src/main/java/dev/revere/obfuscator/transformer/transformers/StringTransformer.java:49-51 | every method is rewritten, its instruction list grows by two per literal |
| StringTransformer.ModifiedIffSomeLiteral | obfuscator/src/main/java/dev/revere/obfuscator/transformer/transformers/StringTransformer.java:47-53 | the class counts as modified iff some method holds a qualifying literal |
| StringTransformer.StringTransformer.constructor | obfuscator/src/main/java/dev/revere/obfuscator/transformer/transformers/StringTransformer.java:28-34 | the key table holds the first 16 draws |
| StringTransformer.StringTransformer.TransformMethod | obfuscator/src/main/java/dev/revere/obfuscator/transformer/transformers/StringTransformer.java:180-204 | the loop computes the rewrite, reports modification iff a literal qualified |
| StringTransformer.StringTransformer.DoTransform | obfuscator/src/main/java/dev/revere/obfuscator/transformer/transformers/StringTransformer.java:36-66 | the helper class is added at most once overall; the result is a class image iff a method was modified |
| Base64.Encode | obfuscator/src/main/java/dev/revere/obfuscator/transformer/transformers/StringTransformer.java:218 | four characters for every started three bytes |
| Base64.Decode | obfuscator/src/main/java/dev/revere/obfuscator/transformer/transformers/StringTransformer.java:218 | only whole four-digit groups decode, each to three bytes but the last, which may give one or two |
| Base64.DecodeEncode | obfuscator/src/main/java/dev/revere/obfuscator/transformer/transformers/StringTransformer.java:218 | decoding the encoding gives the bytes back |
| Utf8.Encode | obfuscator/src/main/java/dev/revere/obfuscator/transformer/transformers/StringTransformer.java:207 | at least one byte per character |
| Utf8.Decode | obfuscator/src/main/java/dev/revere/obfuscator/transformer/transformers/StringTransformer.java:207 | the inverse of the UTF-8 encoding; every character takes at least one byte |
| Utf8.DecodeEncode | obfuscator/src/main/java/dev/revere/obfuscator/transformer/transformers/StringTransformer.java:207 | decoding the encoding gives the string back |
| Utf8.EncodeInjective | obfuscator/src/main/java/dev/revere/obfuscator/transformer/transformers/StringTransformer.java:207 | different strings encode to different bytes |
| Utf8.AsciiIsOneBytePerChar | obfuscator/src/main/java/dev/revere/obfuscator/transformer/transformers/StringTransformer.java:207 | an ASCII string encodes to one byte per character, its code |
| AsciiArtTransformer.SaltChar | obfuscator/src/main/java/dev/revere/obfuscator/transformer/transformers/AsciiArtTransformer.java:78 | every salt character is a letter |
| AsciiArtTransformer.EveryLetterIsASaltChar | obfuscator/src/main/java/dev/revere/obfuscator/transformer/transformers/AsciiArtTransformer.java:78 | every ASCII letter occurs in the salt |
| AsciiArtTransformer.SaltIndex | obfuscator/src/main/java/dev/revere/obfuscator/transformer/transformers/AsciiArtTransformer.java:82 | the index drawn lies within the salt |
| AsciiArtTransformer.RandomString | obfuscator/src/main/java/dev/revere/obfuscator/transformer/transformers/AsciiArtTransformer.java:77-85 | a string of the asked length made of letters |
| AsciiArtTransformer.RandomStringStep | obfuscator/src/main/java/dev/revere/obfuscator/transformer/transformers/AsciiArtTransformer.java:81-84 | each further character comes from the next draw |
| AsciiArtTransformer.ArtFields | obfuscator/src/main/java/dev/revere/obfuscator/transformer/transformers/AsciiArtTransformer.java:57-65 | one field per picture line |
| AsciiArtTransformer.ArtFieldsShape | obfuscator/src/main/java/dev/revere/obfuscator/transformer/transformers/AsciiArtTransformer.java:58-64 | each field is `public static final String`, three letters long, with its line as constant |
| AsciiArtTransformer.DecorationPass | obfuscator/src/main/java/dev/revere/obfuscator/transformer/transformers/AsciiArtTransformer.java:52-69 | no entry appears or disappears |
| AsciiArtTransformer.DecorationOfEntry | obfuscator/src/main/java/dev/revere/obfuscator/transformer/transformers/AsciiArtTransformer.java:52-69 | each admitted visited class gains the picture's fields; every other class is unchanged |
| AsciiArtTransformer.DecorateOnce | obfuscator/src/main/java/dev/revere/obfuscator/transformer/transformers/AsciiArtTransformer.java:57-67 | the class keeps its fields and gains the art fields, each registered as protected |
| AsciiArtTransformer.TransformResult | obfuscator/src/main/java/dev/revere/obfuscator/transformer/transformers/AsciiArtTransformer.java:47-75 | over the whole image: admitted classes decorated, the others unchanged |
| AsciiArtTransformer.ArtFieldKeptOnlyIfProtected | obfuscator/src/main/java/dev/revere/obfuscator/transformer/transformers/AsciiArtTransformer.java:58-66 | an art field is neither synthetic nor enum, so the field renamer keeps it only because it is protected |
| AsciiArtTransformer.DecoratedFieldsKept | obfuscator/src/main/java/dev/revere/obfuscator/transformer/transformers/AsciiArtTransformer.java:66 | a later field pass keeps every added art field |
| AsciiArtTransformer.AsciiArtTransformer.constructor | obfuscator/src/main/java/dev/revere/obfuscator/transformer/transformers/AsciiArtTransformer.java:21-23 | the sampler and picture are stored, no draws used |
| AsciiArtTransformer.AsciiArtTransformer.GetRandomString | obfuscator/src/main/java/dev/revere/obfuscator/transformer/transformers/AsciiArtTransformer.java:77-86 | the loop computes the random name and uses one draw per character |
| AsciiArtTransformer.AsciiArtTransformer.NewArtField | obfuscator/src/main/java/dev/revere/obfuscator/transformer/transformers/AsciiArtTransformer.java:58-66 | the new field as prescribed, its name now protected in the class and nothing else |
| AsciiArtTransformer.AsciiArtTransformer.AddArt | obfuscator/src/main/java/dev/revere/obfuscator/transformer/transformers/AsciiArtTransformer.java:57-67 | the class gains exactly the art fields; their names become protected |
| AsciiArtTransformer.AsciiArtTransformer.Transform | obfuscator/src/main/java/dev/revere/obfuscator/transformer/transformers/AsciiArtTransformer.java:47-75 | the loop computes the decoration pass and protects exactly the new names |

## Left out

- I/O: reading and writing jars, and the ASM `ClassReader`/`ClassWriter` codec. `StringTransformer.StringTransformer.DoTransform` returns the rewritten node, not the bytes `ClassWriter` would produce.
- The decryptor class that the string encryptor emits is a parameter (`decryptorClass`). Its instructions are not modelled, and as emitted they do not compute the inverse of the cipher. `StringTransformer.DecryptText` is the inverse those instructions are meant to compute, and `StringTransformer.DecryptEncrypt` proves it inverts the encryption.
- The helper class name and method name that the rewritten code calls are a parameter (`helper`).
- The 16-entry key table that the string encryptor's constructor fills is modelled, although nothing reads it.
- `Random`, `System.nanoTime`, `System.currentTimeMillis` and SHA-256 become oracles indexed by a draw counter. `nextFloat() * 52` becomes a 24-bit sample scaled to 52 in exact integer arithmetic, so float rounding is not modelled.
- Random names are not checked for collisions, in the source or in the model.
- The salt alphabet is an index function (`AsciiArtTransformer.SaltChar`) rather than a string constant.
- The picture is a constructor parameter; its 19 lines of glyphs are not reproduced.
- Aliasing and in-place mutation of ASM nodes are not modelled. Transformers return the new image, and the string encryptor returns the updated entry map instead of mutating the shared `allClasses` map.
- `HashMap` iteration order is a parameter (`order`) that enumerates the keys.
- Interfaces, and superclasses outside the jar beyond stopping the walk, are not modelled.
- Superclass walks require that the superclass edges end (`Hierarchy.ChainsEnd`). The source would loop forever on a cycle.
- Two methods sharing `name+desc` inside one class are not modelled: the key would be ambiguous. The model requires legal member names (`ClassModel.IsLegalMember`).
- `loadLibraries` and all file-system access are not modelled. `Configuration.LoadFromProperties` starts from the parsed properties, so its library paths stay empty.
- Custom settings of a type other than `String` are not modelled.
- Logging, `debugHierarchy` and the debug output for single classes are not modelled.
- `propagateRenamesToSubclasses` and `findSuperMethodSignature` (`MethodTransformer.java:96-142`) are never called and are not modelled.
- Wrapping a failure into `ObfuscationException` is not modelled. A failure is the `Failure` outcome that `run` returns.
- `TransformerManager.TransformerManager.CollectInformation` returns the transformers it consults. What each one gathers is not modelled, and the manager's context is not passed through the runs.
- `MethodTransformer.CorrectedTransformResult` and `FieldTransformer.ResolvedFieldInsn` carry the corrections under "Findings". The class methods `Transform` still model the code as written.
- `PatternMatcher.Matches` requires `IsGlob(pattern)`: patterns holding other regex metacharacters (`\ [ ] ( ) { } ^ $ | +`) are not modelled. The source passes them to the regex engine unescaped, so `a+` means one or more `a`, and `a(` throws `PatternSyntaxException`.
- `Utf8.DecodeEncode` and `StringTransformer.DecryptEncrypt` are stated over Dafny strings, which hold Unicode scalar values only. A Java string may hold an unpaired surrogate, which `getBytes(UTF_8)` (`StringTransformer.java:207`) replaces by `?`; for such strings the round trip does not hold and the model cannot express them.
- `ClassModel.ClassNameOfKey` is the derivation as written, and the passes use it. It agrees with the corrected `ClassModel.ClassNameOfEntry` whenever no dotted stem holds `.class` (`ClassModel.ClassNameOfKeyAsIntended`).
- `MethodTransformer.OverridePassKeepsRenamed` is stated only for an image in which every method carries a generated name. After a declaration pass that leaves some method with its original name (its signature was already mapped), the override pass can give it the new name of the matching superclass method and add `@Override`; the lemma does not cover that case.

## Findings

| source | as written | input that shows it | evidently intended | confidence | as-written member | corrected member |
|---|---|---|---|---|---|---|
| obfuscator/src/main/java/dev/revere/obfuscator/transformer/transformers/MethodTransformer.java:183-201 | the override pass looks up the subclass method's current name, already replaced by a generated one, among the superclass's original method names, so it never matches | class `C` extends `S`, both declaring `m()V`, `m` not excluded | the override takes the name of the method it overrides, so virtual dispatch still reaches it | not executed | MethodTransformer.OverrideIsLost | MethodTransformer.OverrideIsKept |
| obfuscator/src/main/java/dev/revere/obfuscator/transformer/transformers/FieldTransformer.java:64-74 | a field reference is renamed only through the mapping of its exact owner | `C` extends `S`, `S` declares field `f`, code reads `C.f` | the reference is resolved to the declaring class up the hierarchy and takes the field's new name | not executed | FieldTransformer.InheritedFieldReferenceLost | FieldTransformer.InheritedFieldReferenceKept |
| obfuscator/src/main/java/dev/revere/obfuscator/transformer/transformers/MethodTransformer.java:38 | the class name is the entry with `/` replaced by `.` and then every `.class` removed, anywhere in it (the same at `FieldTransformer.java:36` and `AsciiArtTransformer.java:53`); a package whose name holds `class` loses part of its name | the entry `com/classloader/X.class` gives `comloader.X` instead of `com.classloader.X` | only the trailing `.class` suffix is removed, so mapping keys and filter decisions use the real class name | not executed | ClassModel.ClassNameOfKeyCutsPackage | ClassModel.ClassNameOfEntry |
