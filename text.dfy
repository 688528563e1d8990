/**
 * The JavaScript string operations the server and the pages rely on:
 * `trim`, `split` on one character, `join`, `includes`, `startsWith`,
 * `toLowerCase`, and the whitespace class shared by `trim` and the regex `\s`.
 */
module Text {

  /** The characters `String.prototype.trim` removes and the regex class `\s` matches:
      ECMAScript WhiteSpace (tab, vertical tab, form feed, space, no-break space,
      byte-order mark and the Unicode Zs category) and LineTerminator (LF, CR, LS, PS). */
  predicate IsWhitespace(c: char) {
    || c == '\t' || c == '\n' || c == '\U{000B}' || c == '\U{000C}' || c == '\r'
    || c == ' ' || c == '\U{00A0}' || c == '\U{1680}' || ('\U{2000}' <= c <= '\U{200A}')
    || c == '\U{2028}' || c == '\U{2029}' || c == '\U{202F}' || c == '\U{205F}'
    || c == '\U{3000}' || c == '\U{FEFF}'
  }

  predicate AllWhitespace(s: string) {
    forall i :: 0 <= i < |s| ==> IsWhitespace(s[i])
  }

  /** `s` matches `^\S*$`. */
  predicate NoWhitespace(s: string) {
    forall i :: 0 <= i < |s| ==> !IsWhitespace(s[i])
  }

  // ---------------------------------------------------------------- case

  /** Lower-casing of one character, restricted to ASCII letters. */
  function LowerChar(c: char): char {
    if 'A' <= c <= 'Z' then (c as int + 32) as char else c
  }

  /** `s.toLowerCase()` (ASCII letters only). */
  function ToLower(s: string): string {
    seq(|s|, i requires 0 <= i < |s| => LowerChar(s[i]))
  }

  lemma ToLowerIdempotent(s: string)
    ensures ToLower(ToLower(s)) == ToLower(s)
  {
  }

  /** Lower-casing never turns a character into or out of whitespace. */
  lemma ToLowerKeepsWhitespace(s: string)
    ensures forall i :: 0 <= i < |s| ==> (IsWhitespace(ToLower(s)[i]) <==> IsWhitespace(s[i]))
  {
  }

  // ---------------------------------------------------------------- prefixes and substrings

  /** `s.startsWith(p)`. */
  predicate StartsWith(s: string, p: string) {
    |p| <= |s| && s[..|p|] == p
  }

  /** `t` occurs in `s` starting at index `i`. */
  predicate OccursAt(s: string, t: string, i: int) {
    0 <= i && i + |t| <= |s| && s[i..i + |t|] == t
  }

  /** `s.includes(t)`. */
  predicate Includes(s: string, t: string)
    decreases |s|
  {
    StartsWith(s, t) || (s != [] && Includes(s[1..], t))
  }

  /** An occurrence at any index is found by `includes`. */
  lemma {:induction false} IncludesAt(s: string, t: string, i: int)
    requires OccursAt(s, t, i)
    ensures Includes(s, t)
    decreases i
  {
    if i == 0 {
      assert StartsWith(s, t);
    } else {
      assert s[1..][i - 1..i - 1 + |t|] == s[i..i + |t|];
      IncludesAt(s[1..], t, i - 1);
    }
  }

  /** Whatever `includes` finds occurs at some index. */
  lemma {:induction false} IncludesWitness(s: string, t: string) returns (i: int)
    requires Includes(s, t)
    ensures OccursAt(s, t, i)
    decreases |s|
  {
    if StartsWith(s, t) {
      i := 0;
    } else {
      var j := IncludesWitness(s[1..], t);
      assert s[1..][j..j + |t|] == s[j + 1..j + 1 + |t|];
      i := j + 1;
    }
  }

  /** `includes` finds `t` exactly when `t` occurs in `s` at some index. */
  lemma IncludesIff(s: string, t: string)
    ensures Includes(s, t) <==> exists i :: OccursAt(s, t, i)
  {
    if Includes(s, t) {
      var i := IncludesWitness(s, t);
    }
    forall i | OccursAt(s, t, i) ensures Includes(s, t) {
      IncludesAt(s, t, i);
    }
  }

  /** Every string includes the empty string. */
  lemma IncludesEmpty(s: string)
    ensures Includes(s, "")
  {
    assert StartsWith(s, "");
  }

  /** A string includes each of its middle parts. */
  lemma IncludesMiddle(a: string, b: string, c: string)
    ensures Includes(a + b + c, b)
  {
    var s := a + b + c;
    assert s[|a|..|a| + |b|] == b;
    IncludesAt(s, b, |a|);
  }

  /** `xs.some(x => x.toLowerCase().includes(t.toLowerCase()))`. */
  predicate SomeIncludesIgnoringCase(xs: seq<string>, t: string) {
    exists k :: 0 <= k < |xs| && Includes(ToLower(xs[k]), ToLower(t))
  }

  // ---------------------------------------------------------------- split and join

  /** `s.split(sep)` for a one-character separator: the pieces between separators,
      empty pieces included, and always at least one piece (`"".split(",")` is `[""]`). */
  function Split(s: string, sep: char): (r: seq<string>)
    ensures |r| >= 1
    decreases |s|
  {
    if s == [] then [""]
    else
      var rest := Split(s[1..], sep);
      if s[0] == sep then [""] + rest else [[s[0]] + rest[0]] + rest[1..]
  }

  /** `xs.join(sep)`. */
  function Join(xs: seq<string>, sep: string): string
    decreases |xs|
  {
    if |xs| == 0 then "" else if |xs| == 1 then xs[0] else xs[0] + sep + Join(xs[1..], sep)
  }

  /** No piece of a split contains the separator. */
  lemma {:induction false} SplitPiecesOmitSeparator(s: string, sep: char)
    ensures forall k :: 0 <= k < |Split(s, sep)| ==> sep !in Split(s, sep)[k]
    decreases |s|
  {
    if s != [] {
      SplitPiecesOmitSeparator(s[1..], sep);
      var rest := Split(s[1..], sep);
      if s[0] != sep {
        assert sep !in rest[0];
        assert forall k :: 0 <= k < |rest| - 1 ==> sep !in rest[1..][k];
      }
    }
  }

  /** Joining the pieces of a split with the separator gives back the string. */
  lemma {:induction false} JoinSplit(s: string, sep: char)
    ensures Join(Split(s, sep), [sep]) == s
    decreases |s|
  {
    if s != [] {
      JoinSplit(s[1..], sep);
      var rest := Split(s[1..], sep);
      if s[0] == sep {
        assert Split(s, sep) == [""] + rest;
        assert Join([""] + rest, [sep]) == "" + [sep] + Join(rest, [sep]);
      } else {
        var first := [s[0]] + rest[0];
        assert Split(s, sep) == [first] + rest[1..];
        if |rest| == 1 {
          assert Join([first], [sep]) == first;
        } else {
          assert ([first] + rest[1..])[1..] == rest[1..];
          assert Join(rest, [sep]) == rest[0] + [sep] + Join(rest[1..], [sep]);
        }
      }
    }
  }

  /** A separator-free string is a single piece. */
  lemma {:induction false} SplitWithoutSeparator(s: string, sep: char)
    requires sep !in s
    ensures Split(s, sep) == [s]
    decreases |s|
  {
    if s != [] {
      SplitWithoutSeparator(s[1..], sep);
      assert [s[0]] + s[1..] == s;
    }
  }

  /** Splitting at the first separator: the separator-free head is the first piece. */
  lemma {:induction false} SplitAtFirstSeparator(a: string, sep: char, b: string)
    requires sep !in a
    ensures Split(a + [sep] + b, sep) == [a] + Split(b, sep)
    decreases |a|
  {
    if a == [] {
      assert a + [sep] + b == [sep] + b;
      assert ([sep] + b)[1..] == b;
    } else {
      var s := a + [sep] + b;
      assert s[1..] == a[1..] + [sep] + b;
      SplitAtFirstSeparator(a[1..], sep, b);
      assert [a[0]] + a[1..] == a;
    }
  }

  /** Joining a concatenation joins each part and puts the separator between them. */
  lemma {:induction false} JoinAppend(xs: seq<string>, ys: seq<string>, sep: string)
    requires |xs| >= 1 && |ys| >= 1
    ensures Join(xs + ys, sep) == Join(xs, sep) + sep + Join(ys, sep)
    decreases |xs|
  {
    var zs := xs + ys;
    assert zs[0] == xs[0] && zs[1..] == xs[1..] + ys;
    if |xs| > 1 {
      JoinAppend(xs[1..], ys, sep);
    }
  }

  /** Splitting a join of separator-free pieces gives back the pieces. */
  lemma {:induction false} SplitJoin(xs: seq<string>, sep: char)
    requires |xs| >= 1
    requires forall k :: 0 <= k < |xs| ==> sep !in xs[k]
    ensures Split(Join(xs, [sep]), sep) == xs
    decreases |xs|
  {
    if |xs| == 1 {
      SplitWithoutSeparator(xs[0], sep);
    } else {
      SplitJoin(xs[1..], sep);
      SplitAtFirstSeparator(xs[0], sep, Join(xs[1..], [sep]));
      assert [xs[0]] + xs[1..] == xs;
    }
  }

  /** Splitting at any separator splits each side. */
  lemma SplitAround(a: string, sep: char, b: string)
    ensures Split(a + [sep] + b, sep) == Split(a, sep) + Split(b, sep)
  {
    var xs, ys := Split(a, sep), Split(b, sep);
    JoinSplit(a, sep);
    JoinSplit(b, sep);
    JoinAppend(xs, ys, [sep]);
    SplitPiecesOmitSeparator(a, sep);
    SplitPiecesOmitSeparator(b, sep);
    assert forall k :: 0 <= k < |xs + ys| ==> sep !in (xs + ys)[k];
    SplitJoin(xs + ys, sep);
  }

  // ---------------------------------------------------------------- trim

  /** The index of the first character at or after `i` that is not whitespace
      (`|s|` when there is none). */
  function SkipWhitespace(s: string, i: nat): (k: nat)
    requires i <= |s|
    ensures i <= k <= |s|
    decreases |s| - i
  {
    if i < |s| && IsWhitespace(s[i]) then SkipWhitespace(s, i + 1) else i
  }

  /** The end of `s[lo..j]` once its trailing whitespace is dropped. */
  function DropTrailingWhitespace(s: string, lo: nat, j: nat): (k: nat)
    requires lo <= j <= |s|
    ensures lo <= k <= j
    decreases j
  {
    if lo < j && IsWhitespace(s[j - 1]) then DropTrailingWhitespace(s, lo, j - 1) else j
  }

  /** The number of whitespace characters `s` starts with. */
  function LeadingWhitespace(s: string): nat {
    SkipWhitespace(s, 0)
  }

  /** `s.trim()`: the leading whitespace is dropped, then the trailing whitespace of the rest. */
  function Trim(s: string): string {
    var a := LeadingWhitespace(s);
    s[a..DropTrailingWhitespace(s, a, |s|)]
  }

  /** Neither begins nor ends with whitespace. */
  predicate IsTrimmed(s: string) {
    s == [] || (!IsWhitespace(s[0]) && !IsWhitespace(s[|s| - 1]))
  }

  /** The skipped characters are whitespace, and the scan stops at one that is not. */
  lemma {:induction false} SkipWhitespaceSpec(s: string, i: nat)
    requires i <= |s|
    ensures forall p :: i <= p < SkipWhitespace(s, i) ==> IsWhitespace(s[p])
    ensures SkipWhitespace(s, i) < |s| ==> !IsWhitespace(s[SkipWhitespace(s, i)])
    decreases |s| - i
  {
    if i < |s| && IsWhitespace(s[i]) {
      SkipWhitespaceSpec(s, i + 1);
    }
  }

  /** The dropped characters are whitespace, and the scan stops after one that is not. */
  lemma {:induction false} DropTrailingWhitespaceSpec(s: string, lo: nat, j: nat)
    requires lo <= j <= |s|
    ensures forall p :: DropTrailingWhitespace(s, lo, j) <= p < j ==> IsWhitespace(s[p])
    ensures lo < DropTrailingWhitespace(s, lo, j) ==> !IsWhitespace(s[DropTrailingWhitespace(s, lo, j) - 1])
    decreases j
  {
    if lo < j && IsWhitespace(s[j - 1]) {
      DropTrailingWhitespaceSpec(s, lo, j - 1);
    }
  }

  /** `trim` leaves neither leading nor trailing whitespace. */
  lemma TrimIsTrimmed(s: string)
    ensures IsTrimmed(Trim(s))
  {
    var a := LeadingWhitespace(s);
    var b := DropTrailingWhitespace(s, a, |s|);
    SkipWhitespaceSpec(s, 0);
    DropTrailingWhitespaceSpec(s, a, |s|);
    if a < b {
      assert Trim(s)[0] == s[a];
      assert Trim(s)[b - a - 1] == s[b - 1];
    }
  }

  /** What `trim` computes: the trimmed part of `s` starting after its leading
      whitespace, with only whitespace before and after it. */
  lemma TrimSpec(s: string)
    ensures IsTrimmed(Trim(s))
    ensures OccursAt(s, Trim(s), LeadingWhitespace(s))
    ensures AllWhitespace(s[..LeadingWhitespace(s)])
    ensures AllWhitespace(s[LeadingWhitespace(s) + |Trim(s)|..])
  {
    var a := LeadingWhitespace(s);
    var b := DropTrailingWhitespace(s, a, |s|);
    TrimIsTrimmed(s);
    SkipWhitespaceSpec(s, 0);
    DropTrailingWhitespaceSpec(s, a, |s|);
    assert forall p :: 0 <= p < a ==> s[..a][p] == s[p];
    assert forall p :: 0 <= p < |s| - b ==> s[b..][p] == s[b + p];
  }

  /** Trimming only drops characters. */
  lemma TrimKeepsChars(s: string)
    ensures forall c :: c in Trim(s) ==> c in s
  {
    var a := LeadingWhitespace(s);
    forall c | c in Trim(s) ensures c in s {
      var k :| 0 <= k < |Trim(s)| && Trim(s)[k] == c;
      assert s[a + k] == c;
    }
  }

  /** Trimming leaves an already trimmed string alone. */
  lemma TrimOfTrimmed(s: string)
    requires IsTrimmed(s)
    ensures Trim(s) == s
  {
    assert LeadingWhitespace(s) == 0;
    assert s[0..|s|] == s;
  }

  /** Scanning past whitespace commutes with a prefix. */
  lemma {:induction false} SkipWhitespaceAfter(w: string, s: string, i: nat)
    requires i <= |s|
    ensures SkipWhitespace(w + s, |w| + i) == |w| + SkipWhitespace(s, i)
    decreases |s| - i
  {
    if i < |s| {
      assert (w + s)[|w| + i] == s[i];
      if IsWhitespace(s[i]) {
        SkipWhitespaceAfter(w, s, i + 1);
      }
    }
  }

  /** A whitespace prefix is skipped entirely. */
  lemma {:induction false} SkipWhitespacePrefix(w: string, s: string, i: nat)
    requires AllWhitespace(w) && i <= |w|
    ensures SkipWhitespace(w + s, i) == |w| + SkipWhitespace(s, 0)
    decreases |w| - i
  {
    if i < |w| {
      assert (w + s)[i] == w[i];
      SkipWhitespacePrefix(w, s, i + 1);
    } else {
      SkipWhitespaceAfter(w, s, 0);
    }
  }

  /** Dropping trailing whitespace commutes with a prefix. */
  lemma {:induction false} DropTrailingWhitespaceAfter(w: string, s: string, lo: nat, j: nat)
    requires lo <= j <= |s|
    ensures DropTrailingWhitespace(w + s, |w| + lo, |w| + j) == |w| + DropTrailingWhitespace(s, lo, j)
    decreases j
  {
    if lo < j {
      assert (w + s)[|w| + j - 1] == s[j - 1];
      if IsWhitespace(s[j - 1]) {
        DropTrailingWhitespaceAfter(w, s, lo, j - 1);
      }
    }
  }

  /** Leading whitespace never survives trimming. */
  lemma TrimDropsLeadingWhitespace(w: string, s: string)
    requires AllWhitespace(w)
    ensures Trim(w + s) == Trim(s)
  {
    var a := LeadingWhitespace(s);
    SkipWhitespacePrefix(w, s, 0);
    DropTrailingWhitespaceAfter(w, s, a, |s|);
    var b := DropTrailingWhitespace(s, a, |s|);
    assert Trim(w + s) == (w + s)[|w| + a..|w| + b];
    assert (w + s)[|w| + a..|w| + b] == s[a..b];
  }
}
