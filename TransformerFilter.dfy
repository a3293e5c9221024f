/**
 * Which classes a transformer may touch: a class name is checked against
 * the global and the per-transformer inclusion and exclusion pattern lists
 * of the configuration.
 */
module TransformerFilter {
  import opened JavaText
  import opened Configuration

  const PackageSuffix := "/**"
  const ExactMarker := "^"

  /**
   * One pattern: a package pattern (base followed by the package suffix) matches every class name starting with the
   * dotted base, `^name` and a plain `name` match the dotted name exactly. So a package pattern matches only names
   * at least as long as its base, and any other pattern only a name without `/` no longer than itself, of exactly
   * its length when the pattern is unmarked.
   */
  function MatchesPattern(className: string, pattern: string): (r: bool)
    ensures r && EndsWith(pattern, PackageSuffix) ==> |pattern| - |PackageSuffix| <= |className|
    ensures r && !EndsWith(pattern, PackageSuffix) ==> '/' !in className && |className| <= |pattern|
    ensures r && !EndsWith(pattern, PackageSuffix) && !StartsWith(pattern, ExactMarker) ==> |className| == |pattern|
  {
    if EndsWith(pattern, PackageSuffix) then
      StartsWith(className, Dotted(pattern[..|pattern| - |PackageSuffix|]))
    else if StartsWith(pattern, ExactMarker) then
      className == Dotted(pattern[|ExactMarker|..])
    else
      className == Dotted(pattern)
  }

  /** The early-return search over a pattern list. */
  function MatchesAny(className: string, patterns: seq<string>): (r: bool)
    ensures r <==> exists i :: 0 <= i < |patterns| && MatchesPattern(className, patterns[i])
  {
    if patterns == [] then false
    else if MatchesPattern(className, patterns[0]) then true
    else
      var rest := MatchesAny(className, patterns[1..]);
      assert forall i :: 1 <= i < |patterns| ==> patterns[i] == patterns[1..][i - 1];
      assert rest ==> exists i :: 1 <= i < |patterns| && MatchesPattern(className, patterns[i]);
      rest
  }

  /**
   * The precedence of `shouldTransform` over the four match results. It
   * amounts to: a globally excluded class is eligible iff a transformer
   * inclusion matches; any other class is eligible iff no transformer
   * exclusion matches. Global inclusions never change the outcome.
   */
  function Eligible(className: string, globalExclusions: seq<string>, globalInclusions: seq<string>,
                    exclusions: seq<string>, inclusions: seq<string>): (r: bool)
    ensures MatchesAny(className, globalExclusions) ==> (r <==> MatchesAny(className, inclusions))
    ensures !MatchesAny(className, globalExclusions) ==> (r <==> !MatchesAny(className, exclusions))
  {
    var isGloballyExcluded := MatchesAny(className, globalExclusions);
    var isGloballyIncluded := MatchesAny(className, globalInclusions);
    var isTransformerExcluded := MatchesAny(className, exclusions);
    var isTransformerIncluded := MatchesAny(className, inclusions);
    if isGloballyExcluded then
      isTransformerIncluded
    else if isGloballyIncluded then
      !isTransformerExcluded
    else if isTransformerIncluded then
      !isTransformerExcluded
    else
      !isTransformerExcluded
  }

  /** The four pattern lists `shouldTransform` consults for one transformer. */
  datatype Policy = Policy(globalExclusions: seq<string>, globalInclusions: seq<string>,
                           exclusions: seq<string>, inclusions: seq<string>)

  /**
   * Whether the policy lets a transformer touch the class: a globally
   * excluded class only when a transformer inclusion matches it, any other
   * class unless a transformer exclusion matches it.
   */
  function Admits(policy: Policy, className: string): (r: bool)
    ensures r <==> if MatchesAny(className, policy.globalExclusions) then MatchesAny(className, policy.inclusions)
                   else !MatchesAny(className, policy.exclusions)
  {
    Eligible(className, policy.globalExclusions, policy.globalInclusions, policy.exclusions, policy.inclusions)
  }

  /** The lists the configuration holds for a transformer, as `shouldTransform` reads them. */
  function PolicyFor(config: Configuration, transformerName: string): Policy
    reads config
  {
    Policy(config.globalExclusions, config.globalInclusions,
           config.GetExclusions(transformerName), config.GetInclusions(transformerName))
  }

  /**
   * `TransformerFilter.shouldTransform(className, transformerName, config)`.
   * Without global exclusions and without exclusions of its own, a
   * transformer touches every class.
   */
  function ShouldTransform(className: string, transformerName: string, config: Configuration): (r: bool)
    reads config
    ensures r <==> if MatchesAny(className, config.globalExclusions)
                   then MatchesAny(className, config.GetInclusions(transformerName))
                   else !MatchesAny(className, config.GetExclusions(transformerName))
    ensures config.globalExclusions == [] && transformerName !in config.exclusions ==> r
  {
    Admits(PolicyFor(config, transformerName), className)
  }

  /** The global inclusion list has no influence on eligibility. */
  lemma GlobalInclusionsIrrelevant(className: string, globalExclusions: seq<string>,
                                   globalInclusions1: seq<string>, globalInclusions2: seq<string>,
                                   exclusions: seq<string>, inclusions: seq<string>)
    ensures Eligible(className, globalExclusions, globalInclusions1, exclusions, inclusions) ==
            Eligible(className, globalExclusions, globalInclusions2, exclusions, inclusions)
  {
  }

  /** With every list empty, every class is eligible. */
  lemma EverythingEligibleByDefault(className: string)
    ensures Eligible(className, [], [], [], [])
  {
  }

  /** A package pattern matches by prefix of the dotted base; no trailing `.` is required. */
  lemma PackagePatternIsPrefix(className: string, base: string)
    ensures MatchesPattern(className, base + PackageSuffix) <==> StartsWith(className, Dotted(base))
  {
    var p := base + PackageSuffix;
    assert p[|p| - 3..] == PackageSuffix;
    assert p[..|p| - 3] == base;
  }

  /** A pattern that is neither a package pattern nor marked means exact equality. */
  lemma PlainPatternIsExact(className: string, name: string)
    requires !EndsWith(name, PackageSuffix) && !StartsWith(name, ExactMarker)
    ensures MatchesPattern(className, name) <==> className == Dotted(name)
  {
  }

  lemma {:induction false} MarkedPatternIsNoPackagePattern(name: string)
    requires !EndsWith(name, PackageSuffix)
    ensures !EndsWith(ExactMarker + name, PackageSuffix)
  {
    var p := ExactMarker + name;
    if |name| >= 3 {
      assert p[|p| - 3..] == name[|name| - 3..];
    } else if |p| >= 3 {
      assert p[|p| - 3..] == p;
      assert p[0] != PackageSuffix[0];
    }
  }

  /** `^name` means the same as the plain `name`: exact equality with the dotted name. */
  lemma ExactMarkerIsRedundant(className: string, name: string)
    requires !EndsWith(name, PackageSuffix)
    ensures MatchesPattern(className, ExactMarker + name) <==> className == Dotted(name)
  {
    MarkedPatternIsNoPackagePattern(name);
    var p := ExactMarker + name;
    assert p[1..] == name;
  }

  /** Dotting an internal name `pkg/name` whose last segment has no `/` gives the dotted package, `.`, and the name. */
  lemma DottedLastSegment(pkg: string, name: string)
    requires '/' !in name
    ensures Dotted(pkg + "/" + name) == Dotted(pkg) + "." + name
  {
    DottedJoin(pkg, name);
    DottedKeepsPlainName(name);
  }

  /**
   * A globally excluded package with one class re-included for a
   * transformer (the package pattern globally excluded, `pkg/keep` included): only that
   * class of the package stays eligible.
   */
  lemma ExcludedPackageWithException(pkg: string, keep: string, other: string)
    requires '/' !in keep && '/' !in other && keep != other
    requires !EndsWith(pkg + "/" + keep, PackageSuffix) && !StartsWith(pkg, ExactMarker)
    ensures Eligible(Dotted(pkg) + "." + keep, [pkg + PackageSuffix], [], [], [pkg + "/" + keep])
    ensures !Eligible(Dotted(pkg) + "." + other, [pkg + PackageSuffix], [], [], [pkg + "/" + keep])
  {
    var dp := Dotted(pkg);
    DottedLastSegment(pkg, keep);
    var exact := pkg + "/" + keep;
    assert !StartsWith(exact, ExactMarker) by {
      if pkg == [] { assert exact[0] == '/'; } else { assert exact[0] == pkg[0]; }
    }
    InExcludedPackage(pkg, keep);
    InExcludedPackage(pkg, other);
    SingleMatch(dp + "." + keep, exact);
    SingleMatch(dp + "." + other, exact);
    PlainPatternIsExact(dp + "." + keep, exact);
    PlainPatternIsExact(dp + "." + other, exact);
    assert dp + "." + other != dp + "." + keep by {
      assert other == (dp + "." + other)[|dp| + 1..];
      assert keep == (dp + "." + keep)[|dp| + 1..];
    }
  }

  /** A one-pattern list matches what its pattern matches. */
  lemma SingleMatch(className: string, pattern: string)
    ensures MatchesAny(className, [pattern]) == MatchesPattern(className, pattern)
  {
    assert [pattern][0] == pattern;
  }

  /** A class of a package is matched by the package's pattern. */
  lemma InExcludedPackage(pkg: string, name: string)
    ensures MatchesAny(Dotted(pkg) + "." + name, [pkg + PackageSuffix])
  {
    var c := Dotted(pkg) + "." + name;
    PackagePatternIsPrefix(c, pkg);
    assert c[..|pkg|] == Dotted(pkg);
    SingleMatch(c, pkg + PackageSuffix);
  }

  /** A package pattern needs no separator after its base: `com/example` also covers `com.exampleX`. */
  lemma PackagePatternNeedsNoSeparator(base: string, rest: string)
    ensures MatchesPattern(Dotted(base) + rest, base + PackageSuffix)
  {
    PackagePatternIsPrefix(Dotted(base) + rest, base);
    assert (Dotted(base) + rest)[..|base|] == Dotted(base);
  }

  /** The empty pattern a missing global key leaves behind matches only the empty name. */
  lemma EmptyPatternMatchesOnlyEmptyName(className: string)
    ensures MatchesPattern(className, "") <==> className == ""
  {
  }
}
