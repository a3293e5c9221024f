/**
 * The registry of transformers and the driver that runs them: the enabled
 * ones, in registration order, each on the output of the one before, with
 * the first failure ending the run.
 */
module TransformerManager {
  import opened JavaText
  import Configuration
  import TransformationContext

  /** A registered transformer, known by its name; `id` tells apart two registrations under one name. */
  datatype Transformer = Transformer(name: string, id: nat)

  /** The class files of the jar, entry name to bytes. */
  type Classes = map<string, seq<Octet>>

  /** What `transformAllClasses` returns, or the exception it throws. */
  datatype Outcome = Success(classes: Classes) | Failure(message: string)

  /** A transformer runs when the configuration enables it; a name it never mentions is disabled. */
  predicate Enabled(enabled: map<string, bool>, t: Transformer) {
    GetOr(enabled, t.name, false)
  }

  /** The first transformer registered under a name. */
  function FirstNamed(transformers: seq<Transformer>, name: string): (r: Option<Transformer>)
    ensures r.None? <==> forall i :: 0 <= i < |transformers| ==> transformers[i].name != name
    ensures r.Some? ==> exists i :: 0 <= i < |transformers| && transformers[i] == r.value && r.value.name == name
                                    && forall j :: 0 <= j < i ==> transformers[j].name != name
  {
    if transformers == [] then None
    else if transformers[0].name == name then Some(transformers[0])
    else
      var r := FirstNamed(transformers[1..], name);
      assert forall i :: 1 <= i < |transformers| ==> transformers[i] == transformers[1..][i - 1];
      r
  }

  /** The enabled transformers, in registration order. */
  function EnabledOnly(transformers: seq<Transformer>, enabled: map<string, bool>): (r: seq<Transformer>)
    ensures forall i :: 0 <= i < |r| ==> Enabled(enabled, r[i])
    ensures forall t :: t in r <==> t in transformers && Enabled(enabled, t)
  {
    if transformers == [] then []
    else
      var rest := EnabledOnly(transformers[1..], enabled);
      assert forall t :: t in transformers <==> t == transformers[0] || t in transformers[1..];
      if Enabled(enabled, transformers[0]) then [transformers[0]] + rest else rest
  }

  /** Filtering a list split in two filters each part and keeps them in that order. */
  lemma {:induction false} EnabledOnlyAppend(a: seq<Transformer>, b: seq<Transformer>, enabled: map<string, bool>)
    ensures EnabledOnly(a + b, enabled) == EnabledOnly(a, enabled) + EnabledOnly(b, enabled)
    decreases |a|
  {
    if a != [] {
      assert (a + b)[0] == a[0] && (a + b)[1..] == a[1..] + b;
      EnabledOnlyAppend(a[1..], b, enabled);
      var head := if Enabled(enabled, a[0]) then [a[0]] else [];
      assert EnabledOnly(a + b, enabled) == head + EnabledOnly(a[1..] + b, enabled);
      assert EnabledOnly(a, enabled) == head + EnabledOnly(a[1..], enabled);
    } else {
      assert a + b == b;
    }
  }

  /**
   * Every transformer of the list run in turn, each on the previous one's
   * output, up to the first failure. A failure is, unchanged, the failure
   * of one of the transformers; if none of them can fail, neither can the
   * chain.
   */
  function Chain(run: (Transformer, Classes) -> Outcome, transformers: seq<Transformer>, classes: Classes): (r: Outcome)
    ensures r.Failure? ==> exists i, c :: 0 <= i < |transformers| && run(transformers[i], c) == r
    ensures (forall i, c :: 0 <= i < |transformers| ==> run(transformers[i], c).Success?) ==> r.Success?
  {
    if transformers == [] then Success(classes)
    else
      match run(transformers[0], classes)
      case Failure(message) => Failure(message)
      case Success(next) =>
        var r := Chain(run, transformers[1..], next);
        assert forall i :: 1 <= i < |transformers| ==> transformers[i] == transformers[1..][i - 1];
        r
  }

  /**
   * The loop of `applyTransformations`: a disabled transformer is passed
   * over. A failure is, unchanged, the failure of an enabled transformer;
   * with none enabled, the classes come back as they were.
   */
  function ApplyAll(run: (Transformer, Classes) -> Outcome, transformers: seq<Transformer>,
                    enabled: map<string, bool>, classes: Classes): (r: Outcome)
    ensures r.Failure? ==> exists i, c :: 0 <= i < |transformers| && Enabled(enabled, transformers[i]) && run(transformers[i], c) == r
    ensures (forall i :: 0 <= i < |transformers| ==> !Enabled(enabled, transformers[i])) ==> r == Success(classes)
  {
    if transformers == [] then Success(classes)
    else
      assert forall i :: 1 <= i < |transformers| ==> transformers[i] == transformers[1..][i - 1];
      if !Enabled(enabled, transformers[0]) then ApplyAll(run, transformers[1..], enabled, classes)
      else
        match run(transformers[0], classes)
        case Failure(message) => Failure(message)
        case Success(next) => ApplyAll(run, transformers[1..], enabled, next)
  }

  /** The run is the chain of exactly the enabled transformers, in registration order. */
  lemma {:induction false} ApplyAllRunsEnabledInOrder(run: (Transformer, Classes) -> Outcome, transformers: seq<Transformer>,
                                                       enabled: map<string, bool>, classes: Classes)
    ensures ApplyAll(run, transformers, enabled, classes) == Chain(run, EnabledOnly(transformers, enabled), classes)
    decreases |transformers|
  {
    if transformers != [] {
      var rest := EnabledOnly(transformers[1..], enabled);
      if Enabled(enabled, transformers[0]) {
        assert ([transformers[0]] + rest)[1..] == rest;
        match run(transformers[0], classes)
        case Failure(_) =>
        case Success(next) => ApplyAllRunsEnabledInOrder(run, transformers[1..], enabled, next);
      } else {
        ApplyAllRunsEnabledInOrder(run, transformers[1..], enabled, classes);
      }
    }
  }

  /** Running `a` then `b` is running `a`, then `b` on its output unless it failed. */
  lemma {:induction false} ChainAppend(run: (Transformer, Classes) -> Outcome, a: seq<Transformer>, b: seq<Transformer>,
                                       classes: Classes)
    ensures Chain(run, a + b, classes) ==
      match Chain(run, a, classes)
      case Failure(message) => Failure(message)
      case Success(next) => Chain(run, b, next)
    decreases |a|
  {
    if a == [] {
      assert a + b == b;
    } else {
      assert (a + b)[0] == a[0] && (a + b)[1..] == a[1..] + b;
      match run(a[0], classes)
      case Failure(_) =>
      case Success(next) => ChainAppend(run, a[1..], b, next);
    }
  }

  /** A failure is final: whatever is registered after the failing transformer never runs. */
  lemma FailureStopsTheRun(run: (Transformer, Classes) -> Outcome, before: seq<Transformer>, t: Transformer,
                           after: seq<Transformer>, enabled: map<string, bool>, classes: Classes, reached: Classes)
    requires ApplyAll(run, before, enabled, classes) == Success(reached)
    requires Enabled(enabled, t) && run(t, reached).Failure?
    ensures ApplyAll(run, before + [t] + after, enabled, classes) == run(t, reached)
  {
    ApplyAllRunsEnabledInOrder(run, before, enabled, classes);
    ApplyAllRunsEnabledInOrder(run, before + [t] + after, enabled, classes);
    EnabledOnlyAppend(before + [t], after, enabled);
    EnabledOnlyAppend(before, [t], enabled);
    var pre := EnabledOnly(before, enabled);
    assert EnabledOnly([t], enabled) == [t];
    ChainAppend(run, pre + [t], EnabledOnly(after, enabled), classes);
    ChainAppend(run, pre, [t], classes);
    assert Chain(run, [t], reached) == run(t, reached);
  }

  /** With no transformer enabled the classes come back as they went in. */
  lemma {:induction false} NothingEnabled(run: (Transformer, Classes) -> Outcome, transformers: seq<Transformer>,
                                          enabled: map<string, bool>, classes: Classes)
    requires forall i :: 0 <= i < |transformers| ==> !Enabled(enabled, transformers[i])
    ensures ApplyAll(run, transformers, enabled, classes) == Success(classes)
    decreases |transformers|
  {
    if transformers != [] {
      NothingEnabled(run, transformers[1..], enabled, classes);
    }
  }

  class TransformerManager {
    var transformers: seq<Transformer>
    const context: TransformationContext.TransformationContext

    constructor ()
      ensures transformers == []
      ensures fresh(context) && context.fieldMappings == map[] && context.methodMappings == map[]
    {
      transformers := [];
      context := new TransformationContext.TransformationContext();
    }

    /** `addTransformer`: registration appends. */
    method AddTransformer(transformer: Transformer)
      modifies this
      ensures transformers == old(transformers) + [transformer]
    {
      transformers := transformers + [transformer];
    }

    /** `getTransformer`: the first registration under the name, `None` for null. */
    method GetTransformer(name: string) returns (r: Option<Transformer>)
      ensures r == FirstNamed(transformers, name)
    {
      for i := 0 to |transformers|
        invariant FirstNamed(transformers, name) == FirstNamed(transformers[i..], name)
      {
        assert transformers[i..][1..] == transformers[i + 1..];
        if transformers[i].name == name {
          return Some(transformers[i]);
        }
      }
      return None;
    }

    /**
     * `collectInformation`: each enabled transformer, in registration
     * order, gathers what it needs into the shared context. What a
     * transformer gathers is not part of this model, so the method returns
     * the transformers whose `collectInformation` it called, in call order.
     */
    method CollectInformation(classes: Classes, config: Configuration.Configuration) returns (visited: seq<Transformer>)
      ensures visited == EnabledOnly(transformers, config.enabledTransformers)
    {
      visited := [];
      for i := 0 to |transformers|
        invariant visited == EnabledOnly(transformers[..i], config.enabledTransformers)
      {
        EnabledOnlyAppend(transformers[..i], [transformers[i]], config.enabledTransformers);
        assert transformers[..i + 1] == transformers[..i] + [transformers[i]];
        if config.IsTransformerEnabled(transformers[i].name) {
          visited := visited + [transformers[i]];
        }
      }
      assert transformers[..|transformers|] == transformers;
    }

    /**
     * `applyTransformations`: `run` stands for each transformer's
     * `transformAllClasses` with this manager's context.
     */
    method ApplyTransformations(classes: Classes, config: Configuration.Configuration,
                                run: (Transformer, Classes) -> Outcome)
      returns (result: Outcome)
      ensures result == ApplyAll(run, transformers, config.enabledTransformers, classes)
    {
      var transformedClasses := classes;
      for i := 0 to |transformers|
        invariant ApplyAll(run, transformers, config.enabledTransformers, classes)
               == ApplyAll(run, transformers[i..], config.enabledTransformers, transformedClasses)
      {
        assert transformers[i..][1..] == transformers[i + 1..];
        if config.IsTransformerEnabled(transformers[i].name) {
          var outcome := run(transformers[i], transformedClasses);
          if outcome.Failure? {
            return outcome;
          }
          transformedClasses := outcome.classes;
        }
      }
      return Success(transformedClasses);
    }
  }
}
