/**
 * The glob matcher of the commons module: a pattern is translated into a
 * regular expression (`.` escaped, `*` to `.*`, `?` to `.`) and matched
 * against the whole input, except that the pattern `*` matches everything.
 */
module PatternMatcher {

  /** The pieces a translated pattern consists of. */
  datatype Token = Lit(c: char) | AnyChar | AnyRun

  /** Characters the regex `.` does not match (no DOTALL flag). */
  predicate IsLineTerminator(c: char) {
    c == '\n' || c == '\r' || c == '\U{85}' || c == '\U{2028}' || c == '\U{2029}'
  }

  /** Regex metacharacters other than `.`, `*` and `?`; the translation leaves them unescaped. */
  predicate IsOtherMeta(c: char) {
    c in "\\[](){}^$|+"
  }

  predicate IsGlob(pattern: string) {
    forall i :: 0 <= i < |pattern| ==> !IsOtherMeta(pattern[i])
  }

  /** The regex the source builds from a glob pattern. */
  function Translate(pattern: string): (r: seq<Token>)
    ensures |r| == |pattern|
    ensures forall i :: 0 <= i < |pattern| ==>
      r[i] == (if pattern[i] == '*' then AnyRun else if pattern[i] == '?' then AnyChar else Lit(pattern[i]))
  {
    if pattern == [] then []
    else
      [if pattern[0] == '*' then AnyRun else if pattern[0] == '?' then AnyChar else Lit(pattern[0])]
      + Translate(pattern[1..])
  }

  /**
   * Full match of a translated pattern against an input (`Pattern.matches`).
   * Neither wildcard consumes a line terminator: an input that holds one
   * matches only where the pattern holds the same character as a literal.
   */
  function FullMatch(tokens: seq<Token>, input: string): (r: bool)
    ensures r ==> forall i :: 0 <= i < |input| && IsLineTerminator(input[i]) ==> Lit(input[i]) in tokens
    decreases |input|, |tokens|
  {
    if tokens == [] then input == []
    else
      assert forall t :: t in tokens[1..] ==> t in tokens;
      assert forall i :: 1 <= i < |input| ==> input[i] == input[1..][i - 1];
      match tokens[0]
      case Lit(c) => input != [] && input[0] == c && FullMatch(tokens[1..], input[1..])
      case AnyChar => input != [] && !IsLineTerminator(input[0]) && FullMatch(tokens[1..], input[1..])
      case AnyRun =>
        FullMatch(tokens[1..], input) ||
        (input != [] && !IsLineTerminator(input[0]) && FullMatch(tokens, input[1..]))
  }

  /**
   * `PatternMatcher.matches(pattern, input)`: `*` matches everything; any
   * other pattern accepts a line terminator only where it spells it out,
   * and one without `*` accepts only inputs of its own length.
   */
  function Matches(pattern: string, input: string): (r: bool)
    requires IsGlob(pattern)
    ensures pattern == "*" ==> r
    ensures r && pattern != "*" ==> forall i :: 0 <= i < |input| && IsLineTerminator(input[i]) ==> input[i] in pattern
    ensures r && '*' !in pattern ==> |input| == |pattern|
  {
    if pattern == "*" then true
    else
      var tokens := Translate(pattern);
      var m := FullMatch(tokens, input);
      if m then
        assert forall c :: Lit(c) in tokens ==> c in pattern;
        if '*' !in pattern then
          assert forall i :: 0 <= i < |tokens| ==> tokens[i].Lit? || tokens[i].AnyChar?;
          MatchIsWhole(tokens, input);
          m
        else m
      else m
  }

  lemma StarMatchesEverything(input: string)
    ensures Matches("*", input)
  {
  }

  /** Without wildcards, a pattern matches only the identical input: `.` is a literal dot. */
  lemma {:induction false} LiteralMatchesExactly(pattern: string, input: string)
    requires IsGlob(pattern)
    requires '*' !in pattern && '?' !in pattern
    ensures Matches(pattern, input) <==> input == pattern
  {
    LiteralTokens(pattern, input);
  }

  lemma {:induction false} LiteralTokens(pattern: string, input: string)
    requires '*' !in pattern && '?' !in pattern
    ensures FullMatch(Translate(pattern), input) <==> input == pattern
    decreases |pattern|
  {
    var t := Translate(pattern);
    if pattern != [] {
      assert t[0] == Lit(pattern[0]) && t[1..] == Translate(pattern[1..]);
      if input != [] {
        LiteralTokens(pattern[1..], input[1..]);
        if input == pattern {
          assert input[1..] == pattern[1..];
        }
        if input[0] == pattern[0] && input[1..] == pattern[1..] {
          assert input == [input[0]] + input[1..];
          assert pattern == [pattern[0]] + pattern[1..];
        }
      }
    }
  }

  /** A `*` matches any run of characters (line terminators excepted), the empty run included. */
  lemma {:induction false} AnyRunMatchesAnyRun(rest: seq<Token>, run: string, tail: string)
    requires forall i :: 0 <= i < |run| ==> !IsLineTerminator(run[i])
    requires FullMatch(rest, tail)
    ensures FullMatch([AnyRun] + rest, run + tail)
    decreases |run|
  {
    var t := [AnyRun] + rest;
    assert t[1..] == rest;
    if run != [] {
      AnyRunMatchesAnyRun(rest, run[1..], tail);
      var input := run + tail;
      assert input[0] == run[0] && input[1..] == run[1..] + tail;
      assert input != [] && !IsLineTerminator(input[0]) && FullMatch(t, input[1..]);
    } else {
      assert run + tail == tail;
    }
  }

  /** A `?` matches exactly one character that is not a line terminator. */
  lemma AnyCharMatchesOne(rest: seq<Token>, input: string)
    ensures FullMatch([AnyChar] + rest, input) <==>
      input != [] && !IsLineTerminator(input[0]) && FullMatch(rest, input[1..])
  {
    assert ([AnyChar] + rest)[1..] == rest;
  }

  /** A literal character matches only itself: in particular `.` is not a wildcard. */
  lemma LiteralMatchesItself(c: char, rest: seq<Token>, input: string)
    ensures FullMatch([Lit(c)] + rest, input) <==>
      input != [] && input[0] == c && FullMatch(rest, input[1..])
  {
    assert ([Lit(c)] + rest)[1..] == rest;
  }

  /** Matching is anchored at both ends: a pattern without wildcards never matches a longer input. */
  lemma {:induction false} MatchIsWhole(tokens: seq<Token>, input: string)
    requires forall i :: 0 <= i < |tokens| ==> tokens[i].Lit? || tokens[i].AnyChar?
    requires FullMatch(tokens, input)
    ensures |input| == |tokens|
    decreases |tokens|
  {
    if tokens != [] {
      MatchIsWhole(tokens[1..], input[1..]);
    }
  }

  lemma {:induction false} TranslateAppend(a: string, b: string)
    ensures Translate(a + b) == Translate(a) + Translate(b)
  {
    var l, r := Translate(a + b), Translate(a) + Translate(b);
    assert |l| == |r|;
    forall i | 0 <= i < |l| ensures l[i] == r[i] {
      if i < |a| { assert (a + b)[i] == a[i]; } else { assert (a + b)[i] == b[i - |a|]; }
    }
  }

  /** A single `*` between literal parts matches any run of characters (line terminators excepted). */
  lemma StarBetweenLiterals(pre: string, post: string, run: string)
    requires IsGlob(pre + "*" + post)
    requires '*' !in pre && '?' !in pre && '*' !in post && '?' !in post
    requires forall i :: 0 <= i < |run| ==> !IsLineTerminator(run[i])
    ensures Matches(pre + "*" + post, pre + run + post)
  {
    TranslateAppend(pre, "*" + post);
    TranslateAppend("*", post);
    assert pre + "*" + post == pre + ("*" + post);
    var rest := Translate(post);
    LiteralTokens(post, post);
    AnyRunMatchesAnyRun(rest, run, post);
    var lits := Translate(pre);
    LiteralPrefix(lits, [AnyRun] + rest, pre, run + post);
    assert Translate(pre + "*" + post) == lits + ([AnyRun] + rest);
    assert pre + (run + post) == pre + run + post;
  }

  /** A run a wildcard may consume. */
  predicate LineFree(run: string) {
    forall i :: 0 <= i < |run| ==> !IsLineTerminator(run[i])
  }

  /**
   * Conversely, every input `pre*post` accepts is `pre`, a run without line
   * terminators, and `post`; only the lone `*` accepts more.
   */
  lemma StarBetweenLiteralsOnly(pre: string, post: string, input: string)
    requires IsGlob(pre + "*" + post)
    requires '*' !in pre && '?' !in pre && '*' !in post && '?' !in post
    requires Matches(pre + "*" + post, input)
    ensures (pre == [] && post == []) || exists run :: LineFree(run) && input == pre + run + post
  {
    var pattern := pre + "*" + post;
    if pre != [] || post != [] {
      assert pattern != "*" by { assert |pattern| > 1; }
      assert FullMatch(Translate(pattern), input);
      TranslateStar(pre, post);
      var run := StarTokensSplit(pre, post, input);
    }
  }

  lemma TranslateStar(pre: string, post: string)
    ensures Translate(pre + "*" + post) == Translate(pre) + ([AnyRun] + Translate(post))
  {
    TranslateAppend(pre, "*" + post);
    TranslateAppend("*", post);
    assert pre + "*" + post == pre + ("*" + post);
  }

  /** The tokens of `pre*post` split a matching input into `pre`, a line-free run, and `post`. */
  lemma StarTokensSplit(pre: string, post: string, input: string) returns (run: string)
    requires '*' !in pre && '?' !in pre && '*' !in post && '?' !in post
    requires FullMatch(Translate(pre) + ([AnyRun] + Translate(post)), input)
    ensures LineFree(run) && input == pre + run + post
  {
    var rest := Translate(post);
    LiteralWord(pre);
    LiteralPrefixConsumed(Translate(pre), [AnyRun] + rest, pre, input);
    var after := input[|pre|..];
    var k := AnyRunSplits(rest, after);
    LiteralTokens(post, after[k..]);
    run := after[..k];
    assert input == input[..|pre|] + after;
    assert after == run + after[k..];
  }

  /** Literal tokens that spell a word consume exactly that word from the front of the input. */
  lemma {:induction false} LiteralPrefixConsumed(lits: seq<Token>, rest: seq<Token>, word: string, input: string)
    requires |lits| == |word|
    requires forall i :: 0 <= i < |lits| ==> lits[i] == Lit(word[i])
    requires FullMatch(lits + rest, input)
    ensures |word| <= |input| && input[..|word|] == word && FullMatch(rest, input[|word|..])
    decreases |lits|
  {
    if lits != [] {
      LiteralMatchesItself(word[0], lits[1..] + rest, input);
      assert lits + rest == [Lit(word[0])] + (lits[1..] + rest);
      LiteralPrefixConsumed(lits[1..], rest, word[1..], input[1..]);
      assert input[1..][|word| - 1..] == input[|word|..];
      assert input[..|word|] == [input[0]] + input[1..][..|word| - 1];
      assert word == [word[0]] + word[1..];
    } else {
      assert lits + rest == rest;
    }
  }

  /** A leading `*` consumes some line-free prefix of the input and leaves the rest to what follows. */
  lemma {:induction false} AnyRunSplits(rest: seq<Token>, input: string) returns (k: nat)
    requires FullMatch([AnyRun] + rest, input)
    ensures k <= |input| && LineFree(input[..k]) && FullMatch(rest, input[k..])
    decreases |input|
  {
    var t := [AnyRun] + rest;
    assert t[1..] == rest;
    if FullMatch(rest, input) {
      k := 0;
      assert input[0..] == input;
    } else {
      var k' := AnyRunSplits(rest, input[1..]);
      k := k' + 1;
      assert input[..k] == [input[0]] + input[1..][..k'];
      assert input[k..] == input[1..][k'..];
    }
  }

  /**
   * A `.` is literal: where the pattern has a `.` after a literal part, an
   * input with another character there does not match (so `com.*.Main`
   * rejects `comXexample.Main`).
   */
  lemma DotMatchesOnlyDot(pre: string, post: string, input: string)
    requires IsGlob(pre + "." + post) && '*' !in pre && '?' !in pre
    requires |input| > |pre| && input[..|pre|] == pre && input[|pre|] != '.'
    ensures !Matches(pre + "." + post, input)
  {
    var word := pre + ".";
    assert (pre + "." + post)[|pre|] == '.';
    TranslateAppend(word, post);
    assert '*' !in word && '?' !in word by {
      assert forall i :: 0 <= i < |word| ==> word[i] == '.' || word[i] == pre[i];
    }
    LiteralWord(word);
    assert input[..|word|] != word by {
      assert input[..|word|][|pre|] != word[|pre|];
    }
    LiteralPrefixMismatch(Translate(word), Translate(post), word, input);
  }

  /** A word without wildcards translates to its characters as literals. */
  lemma LiteralWord(word: string)
    requires '*' !in word && '?' !in word
    ensures forall i :: 0 <= i < |word| ==> Translate(word)[i] == Lit(word[i])
  {
    forall i | 0 <= i < |word| ensures Translate(word)[i] == Lit(word[i]) {
      assert word[i] in word;
    }
  }

  /** Literal tokens that spell a word match no input that does not start with that word. */
  lemma {:induction false} LiteralPrefixMismatch(lits: seq<Token>, rest: seq<Token>, word: string, input: string)
    requires |lits| == |word| <= |input|
    requires forall i :: 0 <= i < |lits| ==> lits[i] == Lit(word[i])
    requires input[..|word|] != word
    ensures !FullMatch(lits + rest, input)
    decreases |lits|
  {
    assert lits != [];
    LiteralMatchesItself(word[0], lits[1..] + rest, input);
    assert lits + rest == [Lit(word[0])] + (lits[1..] + rest);
    if input[0] == word[0] {
      assert input[1..][..|word| - 1] != word[1..] by {
        assert input[..|word|] == [input[0]] + input[1..][..|word| - 1];
        assert word == [word[0]] + word[1..];
      }
      LiteralPrefixMismatch(lits[1..], rest, word[1..], input[1..]);
    }
  }

  lemma {:induction false} LiteralPrefix(lits: seq<Token>, rest: seq<Token>, word: string, tail: string)
    requires |lits| == |word|
    requires forall i :: 0 <= i < |lits| ==> lits[i] == Lit(word[i])
    requires FullMatch(rest, tail)
    ensures FullMatch(lits + rest, word + tail)
    decreases |lits|
  {
    if lits != [] {
      LiteralPrefix(lits[1..], rest, word[1..], tail);
      LiteralMatchesItself(word[0], lits[1..] + rest, word + tail);
      assert lits + rest == [Lit(word[0])] + (lits[1..] + rest);
      assert (word + tail)[1..] == word[1..] + tail;
    } else {
      assert lits + rest == rest && word + tail == tail;
    }
  }
}
