/**
 * The obfuscator's configuration: which transformers are enabled, the
 * per-transformer and global inclusion/exclusion pattern lists, free-form
 * per-transformer settings and library paths, plus the dispatch of
 * `transformers.<name>.<setting>[.<custom>]` property keys.
 */
module Configuration {
  import opened JavaText

  class Configuration {
    var enabledTransformers: map<string, bool>
    var inclusions: map<string, seq<string>>
    var exclusions: map<string, seq<string>>
    var customSettings: map<string, map<string, string>>
    var globalInclusions: seq<string>
    var globalExclusions: seq<string>
    var libraryPaths: seq<string>

    constructor ()
      ensures enabledTransformers == map[] && inclusions == map[] && exclusions == map[]
      ensures customSettings == map[]
      ensures globalInclusions == [] && globalExclusions == [] && libraryPaths == []
    {
      enabledTransformers := map[];
      inclusions := map[];
      exclusions := map[];
      customSettings := map[];
      globalInclusions := [];
      globalExclusions := [];
      libraryPaths := [];
    }

    method SetTransformerEnabled(transformerName: string, enabled: bool)
      modifies this
      ensures IsTransformerEnabled(transformerName) == enabled
      ensures enabledTransformers == old(enabledTransformers)[transformerName := enabled]
      ensures inclusions == old(inclusions) && exclusions == old(exclusions)
      ensures customSettings == old(customSettings)
      ensures globalInclusions == old(globalInclusions) && globalExclusions == old(globalExclusions)
      ensures libraryPaths == old(libraryPaths)
    {
      enabledTransformers := enabledTransformers[transformerName := enabled];
    }

    /** A transformer never mentioned is disabled. */
    predicate IsTransformerEnabled(transformerName: string)
      reads this
    {
      GetOr(enabledTransformers, transformerName, false)
    }

    function GetEnabledTransformers(): set<string>
      reads this
    {
      enabledTransformers.Keys
    }

    method AddInclusion(transformerName: string, pattern: string)
      modifies this
      ensures GetInclusions(transformerName) == old(GetInclusions(transformerName)) + [pattern]
      ensures inclusions == old(inclusions)[transformerName := old(GetInclusions(transformerName)) + [pattern]]
      ensures enabledTransformers == old(enabledTransformers) && exclusions == old(exclusions)
      ensures customSettings == old(customSettings)
      ensures globalInclusions == old(globalInclusions) && globalExclusions == old(globalExclusions)
      ensures libraryPaths == old(libraryPaths)
    {
      inclusions := inclusions[transformerName := GetInclusions(transformerName) + [pattern]];
    }

    method AddExclusion(transformerName: string, pattern: string)
      modifies this
      ensures GetExclusions(transformerName) == old(GetExclusions(transformerName)) + [pattern]
      ensures exclusions == old(exclusions)[transformerName := old(GetExclusions(transformerName)) + [pattern]]
      ensures enabledTransformers == old(enabledTransformers) && inclusions == old(inclusions)
      ensures customSettings == old(customSettings)
      ensures globalInclusions == old(globalInclusions) && globalExclusions == old(globalExclusions)
      ensures libraryPaths == old(libraryPaths)
    {
      exclusions := exclusions[transformerName := GetExclusions(transformerName) + [pattern]];
    }

    /** The inclusion patterns of a transformer, empty for an unknown one. */
    function GetInclusions(transformerName: string): seq<string>
      reads this
    {
      GetOr(inclusions, transformerName, [])
    }

    function GetExclusions(transformerName: string): seq<string>
      reads this
    {
      GetOr(exclusions, transformerName, [])
    }

    method AddGlobalInclusion(pattern: string)
      modifies this
      ensures globalInclusions == old(globalInclusions) + [pattern]
      ensures enabledTransformers == old(enabledTransformers) && inclusions == old(inclusions)
      ensures exclusions == old(exclusions) && customSettings == old(customSettings)
      ensures globalExclusions == old(globalExclusions) && libraryPaths == old(libraryPaths)
    {
      globalInclusions := globalInclusions + [pattern];
    }

    method AddGlobalExclusion(pattern: string)
      modifies this
      ensures globalExclusions == old(globalExclusions) + [pattern]
      ensures enabledTransformers == old(enabledTransformers) && inclusions == old(inclusions)
      ensures exclusions == old(exclusions) && customSettings == old(customSettings)
      ensures globalInclusions == old(globalInclusions) && libraryPaths == old(libraryPaths)
    {
      globalExclusions := globalExclusions + [pattern];
    }

    method AddLibraryPath(path: string)
      modifies this
      ensures libraryPaths == old(libraryPaths) + [path]
      ensures enabledTransformers == old(enabledTransformers) && inclusions == old(inclusions)
      ensures exclusions == old(exclusions) && customSettings == old(customSettings)
      ensures globalInclusions == old(globalInclusions) && globalExclusions == old(globalExclusions)
    {
      libraryPaths := libraryPaths + [path];
    }

    method AddCustomSetting(transformerName: string, settingName: string, value: string)
      modifies this
      ensures GetCustomSetting(transformerName, settingName) == Some(value)
      ensures customSettings == old(customSettings)[transformerName :=
        old(GetCustomSettings(transformerName))[settingName := value]]
      ensures enabledTransformers == old(enabledTransformers) && inclusions == old(inclusions)
      ensures exclusions == old(exclusions)
      ensures globalInclusions == old(globalInclusions) && globalExclusions == old(globalExclusions)
      ensures libraryPaths == old(libraryPaths)
    {
      var settings := GetCustomSettings(transformerName);
      customSettings := customSettings[transformerName := settings[settingName := value]];
    }

    /** A setting's value; None (Java null) for an unknown transformer or setting. */
    function GetCustomSetting(transformerName: string, settingName: string): Option<string>
      reads this
    {
      var settings := GetCustomSettings(transformerName);
      if settingName in settings then Some(settings[settingName]) else None
    }

    function GetCustomSettings(transformerName: string): map<string, string>
      reads this
    {
      GetOr(customSettings, transformerName, map[])
    }
  }

  /** What the `transformers.*` keys of a properties file set. */
  datatype TransformerSettings = TransformerSettings(
    enabled: map<string, bool>,
    inclusions: map<string, seq<string>>,
    exclusions: map<string, seq<string>>,
    custom: map<string, map<string, string>>)

  const NoSettings := TransformerSettings(map[], map[], map[], map[])

  const TransformersPrefix := "transformers."

  /** A comma-separated pattern list as the loader reads it: split on `,`, each item trimmed. */
  function PatternList(value: string): (r: seq<string>)
    ensures ',' !in value ==> r == [Trim(value)]
  {
    TrimAll(JavaSplit(value, ','))
  }

  /**
   * The pattern map after `addInclusion`/`addExclusion` was called for each
   * item in turn: a transformer gets an entry only once an item is added.
   */
  function AppendPatterns(m: map<string, seq<string>>, transformer: string, items: seq<string>): (r: map<string, seq<string>>)
    ensures items == [] ==> r == m
    ensures items != [] ==> r == m[transformer := GetOr(m, transformer, []) + items]
  {
    if items == [] then m else m[transformer := GetOr(m, transformer, []) + items]
  }

  /** Adding one more item extends the transformer's list by that item. */
  lemma AppendPatternsStep(m: map<string, seq<string>>, transformer: string, items: seq<string>, item: string)
    ensures var before := AppendPatterns(m, transformer, items);
      AppendPatterns(m, transformer, items + [item]) == before[transformer := GetOr(before, transformer, []) + [item]]
  {
    var before := AppendPatterns(m, transformer, items);
    assert GetOr(before, transformer, []) == GetOr(m, transformer, []) + items;
    assert GetOr(m, transformer, []) + (items + [item]) == GetOr(before, transformer, []) + [item];
  }

  /**
   * The effect of one property on the transformer settings (the body of the
   * key loop). Only a `transformers.` key of at least three parts has an
   * effect, only on the transformer its second part names, and pattern
   * lists are only ever appended to.
   */
  function ApplyKey(s: TransformerSettings, key: string, value: string): (r: TransformerSettings)
    ensures r == s || (StartsWith(key, TransformersPrefix) && |JavaSplit(key, '.')| >= 3)
    ensures |JavaSplit(key, '.')| >= 2 ==>
      var name := JavaSplit(key, '.')[1];
      && r.enabled - {name} == s.enabled - {name} && r.inclusions - {name} == s.inclusions - {name}
      && r.exclusions - {name} == s.exclusions - {name} && r.custom - {name} == s.custom - {name}
    ensures Grows(s, r)
  {
    if !StartsWith(key, TransformersPrefix) then s
    else
      var parts := JavaSplit(key, '.');
      if |parts| < 3 then s
      else
        var transformer := parts[1];
        var setting := parts[2];
        if setting == "enabled" then
          s.(enabled := s.enabled[transformer := ParseBoolean(value)])
        else if setting == "inclusions" then
          s.(inclusions := AppendPatterns(s.inclusions, transformer, PatternList(value)))
        else if setting == "exclusions" then
          s.(exclusions := AppendPatterns(s.exclusions, transformer, PatternList(value)))
        else if setting == "custom" then
          if |parts| > 3 then
            s.(custom := s.custom[transformer := GetOr(s.custom, transformer, map[])[parts[3] := value]])
          else s
        else s
  }

  /** Every entry stays, and every pattern list keeps its patterns in front. */
  predicate Grows(s: TransformerSettings, r: TransformerSettings) {
    && s.enabled.Keys <= r.enabled.Keys && s.custom.Keys <= r.custom.Keys
    && (forall n :: n in s.inclusions ==> n in r.inclusions && s.inclusions[n] <= r.inclusions[n])
    && (forall n :: n in s.exclusions ==> n in r.exclusions && s.exclusions[n] <= r.exclusions[n])
  }

  /** A word of a property key: a non-empty text without a dot. */
  predicate IsKeyWord(w: string) {
    w != [] && '.' !in w
  }

  /** The prefix is the word `transformers` and a dot. */
  lemma PrefixWord()
    ensures '.' !in "transformers" && "transformers" + ['.'] == TransformersPrefix
  {
    var w := "transformers";
    assert forall i :: 0 <= i < |w| ==> w[i] != '.';
  }

  /** `transformers.` followed by dot-joined words splits into `transformers` and those words. */
  lemma TransformerKeyParts(words: seq<string>)
    requires words != [] && forall i :: 0 <= i < |words| ==> IsKeyWord(words[i])
    ensures StartsWith(TransformersPrefix + Join(words, '.'), TransformersPrefix)
    ensures JavaSplit(TransformersPrefix + Join(words, '.'), '.') == ["transformers"] + words
  {
    var all := ["transformers"] + words;
    PrefixedJoin(words);
    PrefixedWordsHaveNoDot(words);
    JavaSplitJoin(all, '.');
    var key := TransformersPrefix + Join(words, '.');
    assert key[..|TransformersPrefix|] == TransformersPrefix;
  }

  /** The prefix word and the key words, together, are dot-free pieces ending in a non-empty one. */
  lemma PrefixedWordsHaveNoDot(words: seq<string>)
    requires words != [] && forall i :: 0 <= i < |words| ==> IsKeyWord(words[i])
    ensures var all := ["transformers"] + words;
      all[|all| - 1] != [] && forall i :: 0 <= i < |all| ==> '.' !in all[i]
  {
    var all := ["transformers"] + words;
    PrefixWord();
    assert forall i :: 1 <= i < |all| ==> all[i] == words[i - 1];
  }

  lemma PrefixedJoin(words: seq<string>)
    requires words != []
    ensures Join(["transformers"] + words, '.') == TransformersPrefix + Join(words, '.')
  {
    var all := ["transformers"] + words;
    assert all[0] == "transformers" && all[1..] == words && |all| > 1;
    PrefixWord();
  }

  lemma JoinTwo(a: string, b: string)
    ensures Join([a, b], '.') == a + "." + b
  {
    assert [a, b][1..] == [b];
  }

  lemma JoinThree(a: string, b: string, c: string)
    ensures Join([a, b, c], '.') == a + "." + b + "." + c
  {
    assert [a, b, c][1..] == [b, c];
    JoinTwo(b, c);
  }

  /** A key of two words after the prefix splits into the prefix word and those two words. */
  lemma KeyOfTwoWords(name: string, word: string, key: string)
    requires IsKeyWord(name) && IsKeyWord(word)
    requires key == "transformers." + name + "." + word
    ensures StartsWith(key, TransformersPrefix) && JavaSplit(key, '.') == ["transformers", name, word]
  {
    TransformerKeyParts([name, word]);
    JoinTwo(name, word);
    assert TransformersPrefix + (name + "." + word) == key;
  }

  /** A key of three words after the prefix splits into the prefix word and those three words. */
  lemma KeyOfThreeWords(name: string, word: string, setting: string, key: string)
    requires IsKeyWord(name) && IsKeyWord(word) && IsKeyWord(setting)
    requires key == "transformers." + name + "." + word + "." + setting
    ensures StartsWith(key, TransformersPrefix) && JavaSplit(key, '.') == ["transformers", name, word, setting]
  {
    TransformerKeyParts([name, word, setting]);
    JoinThree(name, word, setting);
    assert TransformersPrefix + (name + "." + word + "." + setting) == key;
  }

  /** `transformers.<name>.enabled` sets the flag to the parsed value. */
  lemma EnabledKey(s: TransformerSettings, name: string, value: string)
    requires IsKeyWord(name)
    ensures ApplyKey(s, "transformers." + name + ".enabled", value)
         == s.(enabled := s.enabled[name := ParseBoolean(value)])
  {
    KeyOfTwoWords(name, "enabled", "transformers." + name + ".enabled");
  }

  /**
   * `transformers.<name>.inclusions` appends the trimmed items of the value
   * to that transformer's list and touches nothing else.
   */
  lemma InclusionsKey(s: TransformerSettings, name: string, value: string)
    requires IsKeyWord(name)
    ensures var r := ApplyKey(s, "transformers." + name + ".inclusions", value);
      GetOr(r.inclusions, name, []) == GetOr(s.inclusions, name, []) + PatternList(value)
      && (forall n :: n != name ==> GetOr(r.inclusions, n, []) == GetOr(s.inclusions, n, []))
      && r == s.(inclusions := r.inclusions)
  {
    KeyOfTwoWords(name, "inclusions", "transformers." + name + ".inclusions");
  }

  /** The same for `transformers.<name>.exclusions`. */
  lemma ExclusionsKey(s: TransformerSettings, name: string, value: string)
    requires IsKeyWord(name)
    ensures var r := ApplyKey(s, "transformers." + name + ".exclusions", value);
      GetOr(r.exclusions, name, []) == GetOr(s.exclusions, name, []) + PatternList(value)
      && (forall n :: n != name ==> GetOr(r.exclusions, n, []) == GetOr(s.exclusions, n, []))
      && r == s.(exclusions := r.exclusions)
  {
    KeyOfTwoWords(name, "exclusions", "transformers." + name + ".exclusions");
  }

  /** `transformers.<name>.custom.<setting>` stores the value under the setting, replacing an earlier one. */
  lemma CustomKey(s: TransformerSettings, name: string, setting: string, value: string)
    requires IsKeyWord(name) && IsKeyWord(setting)
    ensures ApplyKey(s, "transformers." + name + ".custom." + setting, value)
         == s.(custom := s.custom[name := GetOr(s.custom, name, map[])[setting := value]])
  {
    KeyOfThreeWords(name, "custom", setting, "transformers." + name + ".custom." + setting);
  }

  /** A `custom` key without a setting name is ignored. */
  lemma CustomKeyWithoutSetting(s: TransformerSettings, name: string, value: string)
    requires IsKeyWord(name)
    ensures ApplyKey(s, "transformers." + name + ".custom", value) == s
  {
    KeyOfTwoWords(name, "custom", "transformers." + name + ".custom");
  }

  /** A setting word other than the four known ones is ignored. */
  lemma UnknownSettingIgnored(s: TransformerSettings, name: string, setting: string, value: string)
    requires IsKeyWord(name) && IsKeyWord(setting)
    requires setting != "enabled" && setting != "inclusions" && setting != "exclusions" && setting != "custom"
    ensures ApplyKey(s, "transformers." + name + "." + setting, value) == s
  {
    KeyOfTwoWords(name, setting, "transformers." + name + "." + setting);
  }

  /** A key with only two dot-separated parts is skipped. */
  lemma ShortKeyIgnored(s: TransformerSettings, name: string, value: string)
    requires IsKeyWord(name)
    ensures ApplyKey(s, "transformers." + name, value) == s
  {
    TransformerKeyParts([name]);
  }

  /** An empty list value is one empty pattern, not none. */
  lemma EmptyValueIsOneEmptyPattern()
    ensures PatternList("") == [""]
  {
    assert Trim("") == "";
  }

  /** A missing global list key leaves that list holding one empty pattern. */
  lemma MissingGlobalKey(props: seq<(string, string)>, key: string)
    requires forall i :: 0 <= i < |props| ==> props[i].0 != key
    ensures PatternList(GetProperty(props, key, "")) == [""]
  {
    EmptyValueIsOneEmptyPattern();
  }

  /**
   * The settings after the key loop over `props`, in order. Properties
   * outside the `transformers.` namespace change nothing, and the loop only
   * adds entries and appends patterns.
   */
  function ApplyKeys(s: TransformerSettings, props: seq<(string, string)>): (r: TransformerSettings)
    ensures (forall i :: 0 <= i < |props| ==> !StartsWith(props[i].0, TransformersPrefix)) ==> r == s
    ensures Grows(s, r)
  {
    if props == [] then s
    else ApplyKey(ApplyKeys(s, props[..|props| - 1]), props[|props| - 1].0, props[|props| - 1].1)
  }

  predicate DistinctKeys(props: seq<(string, string)>) {
    forall i, j :: 0 <= i < j < |props| ==> props[i].0 != props[j].0
  }

  /** `props.getProperty(key, default)`. */
  function GetProperty(props: seq<(string, string)>, key: string, default: string): (r: string)
    ensures (forall i :: 0 <= i < |props| ==> props[i].0 != key) ==> r == default
    ensures forall i :: 0 <= i < |props| && props[i].0 == key && DistinctKeys(props) ==> r == props[i].1
  {
    if props == [] then default
    else if props[0].0 == key then props[0].1
    else GetProperty(props[1..], key, default)
  }

  /** The transformer settings a configuration object currently holds. */
  function SettingsOf(config: Configuration): TransformerSettings
    reads config
  {
    TransformerSettings(config.enabledTransformers, config.inclusions, config.exclusions, config.customSettings)
  }

  /** The `inclusions` case of the key loop: each trimmed item is added in turn. */
  method AddInclusions(config: Configuration, transformer: string, patterns: seq<string>)
    modifies config
    ensures config.inclusions == AppendPatterns(old(config.inclusions), transformer, TrimAll(patterns))
    ensures config.enabledTransformers == old(config.enabledTransformers)
    ensures config.exclusions == old(config.exclusions) && config.customSettings == old(config.customSettings)
    ensures config.globalInclusions == old(config.globalInclusions)
    ensures config.globalExclusions == old(config.globalExclusions)
    ensures config.libraryPaths == old(config.libraryPaths)
  {
    for j := 0 to |patterns|
      invariant config.inclusions == AppendPatterns(old(config.inclusions), transformer, TrimAll(patterns[..j]))
      invariant config.enabledTransformers == old(config.enabledTransformers)
      invariant config.exclusions == old(config.exclusions) && config.customSettings == old(config.customSettings)
      invariant config.globalInclusions == old(config.globalInclusions)
      invariant config.globalExclusions == old(config.globalExclusions)
      invariant config.libraryPaths == old(config.libraryPaths)
    {
      TrimAllStep(patterns, j);
      AppendPatternsStep(old(config.inclusions), transformer, TrimAll(patterns[..j]), Trim(patterns[j]));
      config.AddInclusion(transformer, Trim(patterns[j]));
    }
    assert patterns[..|patterns|] == patterns;
  }

  /** The `exclusions` case of the key loop. */
  method AddExclusions(config: Configuration, transformer: string, patterns: seq<string>)
    modifies config
    ensures config.exclusions == AppendPatterns(old(config.exclusions), transformer, TrimAll(patterns))
    ensures config.enabledTransformers == old(config.enabledTransformers)
    ensures config.inclusions == old(config.inclusions) && config.customSettings == old(config.customSettings)
    ensures config.globalInclusions == old(config.globalInclusions)
    ensures config.globalExclusions == old(config.globalExclusions)
    ensures config.libraryPaths == old(config.libraryPaths)
  {
    for j := 0 to |patterns|
      invariant config.exclusions == AppendPatterns(old(config.exclusions), transformer, TrimAll(patterns[..j]))
      invariant config.enabledTransformers == old(config.enabledTransformers)
      invariant config.inclusions == old(config.inclusions) && config.customSettings == old(config.customSettings)
      invariant config.globalInclusions == old(config.globalInclusions)
      invariant config.globalExclusions == old(config.globalExclusions)
      invariant config.libraryPaths == old(config.libraryPaths)
    {
      TrimAllStep(patterns, j);
      AppendPatternsStep(old(config.exclusions), transformer, TrimAll(patterns[..j]), Trim(patterns[j]));
      config.AddExclusion(transformer, Trim(patterns[j]));
    }
    assert patterns[..|patterns|] == patterns;
  }

  /** The global inclusion loop of `loadFromFile`. */
  method AddGlobalInclusions(config: Configuration, patterns: seq<string>)
    modifies config
    ensures config.globalInclusions == old(config.globalInclusions) + TrimAll(patterns)
    ensures SettingsOf(config) == old(SettingsOf(config))
    ensures config.globalExclusions == old(config.globalExclusions)
    ensures config.libraryPaths == old(config.libraryPaths)
  {
    for j := 0 to |patterns|
      invariant config.globalInclusions == old(config.globalInclusions) + TrimAll(patterns[..j])
      invariant SettingsOf(config) == old(SettingsOf(config))
      invariant config.globalExclusions == old(config.globalExclusions)
      invariant config.libraryPaths == old(config.libraryPaths)
    {
      TrimAllStep(patterns, j);
      config.AddGlobalInclusion(Trim(patterns[j]));
    }
    assert patterns[..|patterns|] == patterns;
  }

  /** The global exclusion loop of `loadFromFile`. */
  method AddGlobalExclusions(config: Configuration, patterns: seq<string>)
    modifies config
    ensures config.globalExclusions == old(config.globalExclusions) + TrimAll(patterns)
    ensures SettingsOf(config) == old(SettingsOf(config))
    ensures config.globalInclusions == old(config.globalInclusions)
    ensures config.libraryPaths == old(config.libraryPaths)
  {
    for j := 0 to |patterns|
      invariant config.globalExclusions == old(config.globalExclusions) + TrimAll(patterns[..j])
      invariant SettingsOf(config) == old(SettingsOf(config))
      invariant config.globalInclusions == old(config.globalInclusions)
      invariant config.libraryPaths == old(config.libraryPaths)
    {
      TrimAllStep(patterns, j);
      config.AddGlobalExclusion(Trim(patterns[j]));
    }
    assert patterns[..|patterns|] == patterns;
  }

  /** One iteration of the key loop of `loadFromFile`. */
  method ApplyProperty(config: Configuration, key: string, value: string)
    modifies config
    ensures SettingsOf(config) == ApplyKey(old(SettingsOf(config)), key, value)
    ensures config.globalInclusions == old(config.globalInclusions)
    ensures config.globalExclusions == old(config.globalExclusions)
    ensures config.libraryPaths == old(config.libraryPaths)
  {
    if StartsWith(key, TransformersPrefix) {
      var parts := JavaSplit(key, '.');
      if |parts| >= 3 {
        var transformer := parts[1];
        var setting := parts[2];
        if setting == "enabled" {
          config.SetTransformerEnabled(transformer, ParseBoolean(value));
        } else if setting == "inclusions" {
          AddInclusions(config, transformer, JavaSplit(value, ','));
        } else if setting == "exclusions" {
          AddExclusions(config, transformer, JavaSplit(value, ','));
        } else if setting == "custom" {
          if |parts| > 3 {
            config.AddCustomSetting(transformer, parts[3], value);
          }
        }
      }
    }
  }

  /**
   * `Configuration.loadFromFile` after `Properties.load`: the properties are
   * given as (key, value) pairs in the order `stringPropertyNames` yields them.
   */
  method LoadFromProperties(props: seq<(string, string)>) returns (config: Configuration)
    requires DistinctKeys(props)
    ensures fresh(config)
    ensures SettingsOf(config) == ApplyKeys(NoSettings, props)
    ensures config.globalInclusions == PatternList(GetProperty(props, "global.inclusions", ""))
    ensures config.globalExclusions == PatternList(GetProperty(props, "global.exclusions", ""))
    ensures config.libraryPaths == []
  {
    config := new Configuration();
    for i := 0 to |props|
      invariant SettingsOf(config) == ApplyKeys(NoSettings, props[..i])
      invariant config.globalInclusions == [] && config.globalExclusions == [] && config.libraryPaths == []
    {
      assert props[..i + 1][..i] == props[..i];
      ApplyProperty(config, props[i].0, props[i].1);
    }
    assert props[..|props|] == props;
    var globalInclusionsString := GetProperty(props, "global.inclusions", "");
    var globalExclusionsString := GetProperty(props, "global.exclusions", "");
    AddGlobalInclusions(config, JavaSplit(globalInclusionsString, ','));
    AddGlobalExclusions(config, JavaSplit(globalExclusionsString, ','));
  }
}
