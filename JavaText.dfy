/**
 * The java.lang.String operations the obfuscator relies on, stated over
 * Dafny strings (sequences of Unicode scalar values), together with the
 * Option type that stands for Java's nullable references.
 */
module JavaText {

  datatype Option<+T> = None | Some(value: T)

  /** An element of a `byte[]`, read as an unsigned value. */
  type Octet = b: int | 0 <= b < 256

  /** `map.getOrDefault(k, default)`. */
  function GetOr<K, V>(m: map<K, V>, k: K, default: V): (r: V)
    ensures k in m ==> r == m[k]
    ensures k !in m ==> r == default
  {
    if k in m then m[k] else default
  }

  /** A number below 2^24 is the sum of its four six-bit digits, each at its place. */
  lemma SplitIntoSextets(n: int)
    requires 0 <= n < 0x100_0000
    ensures n / 262144 * 262144 + n / 4096 % 64 * 4096 + n / 64 % 64 * 64 + n % 64 == n
  {
    var a, b := n / 64, n / 4096;
    assert n == a * 64 + n % 64;
    assert a == b * 64 + a % 64;
    assert b == n / 262144 * 64 + b % 64 by {
      assert n / 262144 == b / 64;
    }
  }

  /** `s.replace(from, to)` for single characters. */
  function ReplaceChar(s: string, from: char, to: char): (r: string)
    ensures |r| == |s|
    ensures forall i :: 0 <= i < |s| ==> r[i] == (if s[i] == from then to else s[i])
  {
    if s == [] then [] else [if s[0] == from then to else s[0]] + ReplaceChar(s[1..], from, to)
  }

  /** Class names use `/` in the class file and `.` in the obfuscator's maps. */
  function Dotted(s: string): (r: string)
    ensures |r| == |s| && '/' !in r
  {
    ReplaceChar(s, '/', '.')
  }

  lemma DottedAppend(a: string, b: string)
    ensures Dotted(a + b) == Dotted(a) + Dotted(b)
  {
    var l, r := Dotted(a + b), Dotted(a) + Dotted(b);
    forall i | 0 <= i < |l| ensures l[i] == r[i] {
      if i < |a| { assert (a + b)[i] == a[i]; } else { assert (a + b)[i] == b[i - |a|]; }
    }
  }

  lemma DottedSlash()
    ensures Dotted("/") == "."
  {
    assert Dotted("/")[0] == '.';
  }

  /** Dotting distributes over the segments of an internal name. */
  lemma DottedJoin(a: string, b: string)
    ensures Dotted(a + "/" + b) == Dotted(a) + "." + Dotted(b)
  {
    DottedAppend(a + "/", b);
    DottedAppend(a, "/");
    DottedSlash();
  }

  /** Replacing `/` leaves a name without `/` as it is. */
  lemma DottedKeepsPlainName(s: string)
    requires '/' !in s
    ensures Dotted(s) == s
  {
  }

  predicate StartsWith(s: string, prefix: string) {
    |prefix| <= |s| && s[..|prefix|] == prefix
  }

  predicate EndsWith(s: string, suffix: string) {
    |suffix| <= |s| && s[|s| - |suffix|..] == suffix
  }

  /** `s.replace(target, "")`: every non-overlapping occurrence, scanned left to right, is removed. */
  function RemoveAll(s: string, target: string): (r: string)
    requires target != []
    ensures |r| <= |s|
    ensures !StartsWith(s, target) && s != [] ==> r != [] && r[0] == s[0]
    decreases |s|
  {
    if s == [] then []
    else if StartsWith(s, target) then RemoveAll(s[|target|..], target)
    else [s[0]] + RemoveAll(s[1..], target)
  }

  /** `s.contains(t)`. */
  predicate Contains(s: string, t: string) {
    exists i :: 0 <= i <= |s| && StartsWith(s[i..], t)
  }

  /**
   * Removing every occurrence of `target` from `s + target` gives back `s`
   * when `s` holds no occurrence and the first character of `target` does
   * not recur in it, so that no occurrence can straddle the junction.
   */
  lemma {:induction false} RemoveAllOfSuffix(s: string, target: string)
    requires target != [] && !Contains(s, target)
    requires forall k :: 0 < k < |target| ==> target[k] != target[0]
    ensures RemoveAll(s + target, target) == s
    decreases |s|
  {
    if s == [] {
      assert s + target == target;
      assert target[|target|..] == [];
    } else {
      var st := s + target;
      assert !StartsWith(st, target) by {
        if |s| >= |target| {
          assert s[0..] == s;
          assert st[..|target|] == s[..|target|];
        } else {
          assert st[|s|] == target[0] != target[|s|];
          assert st[..|target|][|s|] != target[|s|];
        }
      }
      assert !Contains(s[1..], target) by {
        forall i | 0 <= i <= |s[1..]| ensures !StartsWith(s[1..][i..], target) {
          assert s[1..][i..] == s[i + 1..];
        }
      }
      RemoveAllOfSuffix(s[1..], target);
      assert st[1..] == s[1..] + target;
      assert [s[0]] + s[1..] == s;
    }
  }

  /** A prefix none of whose characters begins `target` passes through the removal untouched. */
  lemma {:induction false} RemoveAllKeepsPrefix(p: string, rest: string, target: string)
    requires target != [] && target[0] !in p
    ensures RemoveAll(p + rest, target) == p + RemoveAll(rest, target)
    decreases |p|
  {
    if p != [] {
      var s := p + rest;
      assert !StartsWith(s, target) by { if |target| <= |s| { assert s[..|target|][0] == p[0]; } }
      RemoveAllKeepsPrefix(p[1..], rest, target);
      assert s[1..] == p[1..] + rest;
    } else {
      assert p + rest == rest;
    }
  }

  /** `p + target + q + target` loses both occurrences of `target` and nothing else. */
  lemma RemoveAllAround(p: string, q: string, target: string)
    requires target != [] && target[0] !in p && !Contains(q, target)
    requires forall k :: 0 < k < |target| ==> target[k] != target[0]
    ensures RemoveAll(p + target + q + target, target) == p + q
  {
    var t := target + q + target;
    assert StartsWith(t, target) by { assert t[..|target|] == target; }
    assert t[|target|..] == q + target;
    RemoveAllOfSuffix(q, target);
    assert RemoveAll(t, target) == q;
    RemoveAllKeepsPrefix(p, t, target);
    assert p + target + q + target == p + t;
  }

  /** Joins pieces with a separator: the inverse of SplitAll. */
  function Join(pieces: seq<string>, sep: char): string {
    if pieces == [] then []
    else if |pieces| == 1 then pieces[0]
    else pieces[0] + [sep] + Join(pieces[1..], sep)
  }

  /** Every piece between separators, empty pieces included. */
  function SplitAll(s: string, sep: char): (r: seq<string>)
    ensures |r| >= 1
    ensures forall i :: 0 <= i < |r| ==> sep !in r[i]
    ensures sep !in s ==> r == [s]
  {
    if s == [] then [[]]
    else if s[0] == sep then [[]] + SplitAll(s[1..], sep)
    else
      var rest := SplitAll(s[1..], sep);
      assert sep !in s ==> sep !in s[1..] && [s[0]] + s[1..] == s;
      [[s[0]] + rest[0]] + rest[1..]
  }

  lemma {:induction false} JoinSplitAll(s: string, sep: char)
    ensures Join(SplitAll(s, sep), sep) == s
  {
    if s == [] {
    } else if s[0] == sep {
      JoinSplitAll(s[1..], sep);
      var rest := SplitAll(s[1..], sep);
      assert SplitAll(s, sep) == [[]] + rest;
      assert ([[]] + rest)[1..] == rest;
    } else {
      JoinSplitAll(s[1..], sep);
      var rest := SplitAll(s[1..], sep);
      var r := [[s[0]] + rest[0]] + rest[1..];
      assert SplitAll(s, sep) == r;
      if |rest| == 1 {
        assert r == [[s[0]] + rest[0]];
      } else {
        assert r[1..] == rest[1..];
        assert Join(rest, sep) == rest[0] + [sep] + Join(rest[1..], sep);
      }
    }
  }

  lemma {:induction false} SplitAllAfterPiece(a: string, b: string, sep: char)
    requires sep !in a
    ensures SplitAll(a + [sep] + b, sep) == [a] + SplitAll(b, sep)
    decreases |a|
  {
    var s := a + [sep] + b;
    if a == [] {
      assert s[0] == sep && s[1..] == b;
    } else {
      SplitAllAfterPiece(a[1..], b, sep);
      assert s[0] == a[0] && s[1..] == a[1..] + [sep] + b;
      assert [a[0]] + a[1..] == a;
    }
  }

  /** Splitting pieces joined by a separator they do not contain gives the pieces back. */
  lemma {:induction false} SplitAllJoin(pieces: seq<string>, sep: char)
    requires pieces != []
    requires forall i :: 0 <= i < |pieces| ==> sep !in pieces[i]
    ensures SplitAll(Join(pieces, sep), sep) == pieces
    decreases |pieces|
  {
    if |pieces| > 1 {
      SplitAllJoin(pieces[1..], sep);
      SplitAllAfterPiece(pieces[0], Join(pieces[1..], sep), sep);
      assert pieces == [pieces[0]] + pieces[1..];
    }
  }

  /** The same for `split`, provided the last piece is not empty. */
  lemma JavaSplitJoin(pieces: seq<string>, sep: char)
    requires pieces != [] && pieces[|pieces| - 1] != []
    requires forall i :: 0 <= i < |pieces| ==> sep !in pieces[i]
    ensures JavaSplit(Join(pieces, sep), sep) == pieces
  {
    SplitAllJoin(pieces, sep);
  }

  function DropTrailingEmpty(pieces: seq<string>): (r: seq<string>)
    ensures |r| <= |pieces| && r == pieces[..|r|]
    ensures r == [] || r[|r| - 1] != []
    ensures forall i :: |r| <= i < |pieces| ==> pieces[i] == []
  {
    if pieces == [] then []
    else if pieces[|pieces| - 1] == [] then DropTrailingEmpty(pieces[..|pieces| - 1])
    else pieces
  }

  /**
   * `s.split(sep)` for a one-character, non-metacharacter pattern (or an
   * escaped one): with no separator the result is `[s]`; otherwise all
   * pieces, with trailing empty pieces removed.
   */
  function JavaSplit(s: string, sep: char): (r: seq<string>)
    ensures sep !in s ==> r == [s]
    ensures forall i :: 0 <= i < |r| ==> sep !in r[i]
    ensures sep in s ==> r == DropTrailingEmpty(SplitAll(s, sep))
  {
    if sep !in s then [s] else DropTrailingEmpty(SplitAll(s, sep))
  }

  /** The characters `String.trim` strips: code points up to U+0020. */
  predicate IsTrimmable(c: char) {
    c <= ' '
  }

  function TrimStart(s: string): string {
    if s != [] && IsTrimmable(s[0]) then TrimStart(s[1..]) else s
  }

  function TrimEnd(s: string): string {
    if s != [] && IsTrimmable(s[|s| - 1]) then TrimEnd(s[..|s| - 1]) else s
  }

  /** `String.trim`: leading and trailing characters up to U+0020 removed. */
  function Trim(s: string): string {
    TrimEnd(TrimStart(s))
  }

  /** TrimStart drops exactly the longest prefix of trimmable characters. */
  lemma {:induction false} TrimStartDropsPrefix(s: string)
    ensures TrimStart(s) == [] || !IsTrimmable(TrimStart(s)[0])
    ensures |TrimStart(s)| <= |s| && TrimStart(s) == s[|s| - |TrimStart(s)|..]
    ensures forall i :: 0 <= i < |s| - |TrimStart(s)| ==> IsTrimmable(s[i])
  {
    if s != [] && IsTrimmable(s[0]) {
      var tail := s[1..];
      TrimStartDropsPrefix(tail);
      assert TrimStart(s) == TrimStart(tail);
      forall i | 1 <= i < |s| - |TrimStart(s)| ensures IsTrimmable(s[i]) {
        assert s[i] == tail[i - 1];
      }
    }
  }

  /** TrimEnd drops exactly the longest suffix of trimmable characters. */
  lemma {:induction false} TrimEndDropsSuffix(s: string)
    ensures TrimEnd(s) == [] || !IsTrimmable(TrimEnd(s)[|TrimEnd(s)| - 1])
    ensures |TrimEnd(s)| <= |s| && TrimEnd(s) == s[..|TrimEnd(s)|]
    ensures forall i :: |TrimEnd(s)| <= i < |s| ==> IsTrimmable(s[i])
  {
    if s != [] && IsTrimmable(s[|s| - 1]) {
      var init := s[..|s| - 1];
      TrimEndDropsSuffix(init);
      assert TrimEnd(s) == TrimEnd(init);
      forall i | |TrimEnd(s)| <= i < |s| - 1 ensures IsTrimmable(s[i]) {
        assert s[i] == init[i];
      }
    }
  }

  /**
   * The trimmed string is a contiguous part of the input, starts and ends
   * with a non-trimmable character, and everything cut off was trimmable.
   */
  lemma TrimIsInnerPart(s: string)
    ensures var r := Trim(s); r == [] || (!IsTrimmable(r[0]) && !IsTrimmable(r[|r| - 1]))
    ensures exists a, b ::
              && 0 <= a <= b <= |s| && Trim(s) == s[a..b]
              && (forall i :: 0 <= i < a ==> IsTrimmable(s[i]))
              && (forall i :: b <= i < |s| ==> IsTrimmable(s[i]))
  {
    TrimEndsUntrimmable(s);
    var t := TrimStart(s);
    TrimStartDropsPrefix(s);
    TrimEndDropsSuffix(t);
    InnerPart(s, t, Trim(s), |s| - |t|, |TrimEnd(t)|);
  }

  lemma TrimEndsUntrimmable(s: string)
    ensures var r := Trim(s); r == [] || (!IsTrimmable(r[0]) && !IsTrimmable(r[|r| - 1]))
  {
    var t := TrimStart(s);
    TrimStartDropsPrefix(s);
    TrimEndDropsSuffix(t);
    var r := Trim(s);
    if r != [] {
      assert r[0] == t[0];
    }
  }

  /** A part cut out of the part left after a trimmable prefix is a part of the whole. */
  lemma InnerPart(s: string, t: string, r: string, a: nat, k: nat)
    requires a <= |s| && t == s[a..] && forall i :: 0 <= i < a ==> IsTrimmable(s[i])
    requires k <= |t| && r == t[..k] && forall i :: k <= i < |t| ==> IsTrimmable(t[i])
    ensures exists a, b ::
              && 0 <= a <= b <= |s| && r == s[a..b]
              && (forall i :: 0 <= i < a ==> IsTrimmable(s[i]))
              && (forall i :: b <= i < |s| ==> IsTrimmable(s[i]))
  {
    var b := a + k;
    SliceOfSuffix(s, a, k);
    forall i | b <= i < |s| ensures IsTrimmable(s[i]) {
      assert s[i] == t[i - a];
    }
  }

  lemma SliceOfSuffix(s: string, a: nat, k: nat)
    requires a + k <= |s|
    ensures s[a..][..k] == s[a..a + k]
  {
  }

  /** A string that neither starts nor ends with a character up to U+0020 is its own trim. */
  lemma {:induction false} TrimKeepsClean(s: string)
    requires s == [] || (!IsTrimmable(s[0]) && !IsTrimmable(s[|s| - 1]))
    ensures Trim(s) == s
  {
    assert TrimStart(s) == s;
    assert TrimEnd(s) == s;
  }

  /** Trims every piece, keeping their order. */
  function TrimAll(pieces: seq<string>): (r: seq<string>)
    ensures |r| == |pieces|
    ensures forall i :: 0 <= i < |pieces| ==> r[i] == Trim(pieces[i])
  {
    if pieces == [] then [] else [Trim(pieces[0])] + TrimAll(pieces[1..])
  }

  /** Trimming one more piece of a prefix appends its trim. */
  lemma TrimAllStep(pieces: seq<string>, j: nat)
    requires j < |pieces|
    ensures TrimAll(pieces[..j + 1]) == TrimAll(pieces[..j]) + [Trim(pieces[j])]
  {
    var l, r := TrimAll(pieces[..j + 1]), TrimAll(pieces[..j]) + [Trim(pieces[j])];
    assert |l| == |r|;
    forall i | 0 <= i < |l| ensures l[i] == r[i] {
      assert pieces[..j + 1][i] == pieces[i];
      if i < j { assert pieces[..j][i] == pieces[i]; }
    }
  }

  /** `Boolean.parseBoolean`: true exactly for "true" in any letter case. */
  predicate ParseBoolean(s: string) {
    |s| == 4 && s[0] in "tT" && s[1] in "rR" && s[2] in "uU" && s[3] in "eE"
  }
}
