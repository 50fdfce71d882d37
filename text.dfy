/** The few JavaScript string operations the controller relies on, written out
    on `seq<char>`: `split` and `join` on a one-character separator, a search
    for a literal pattern (what `match` on a regular expression made of plain
    letters decides), a `^`-anchored match, removal of all `\s` characters and
    character replacement. */
module Text {

  /** `s` begins with `p` (a regular expression anchored with `^`). */
  predicate StartsWith(s: string, p: string) {
    |p| <= |s| && s[..|p|] == p
  }

  /** `pat` occurs in `s` starting at index `i`. */
  ghost predicate OccursAt(s: string, pat: string, i: int) {
    0 <= i && i + |pat| <= |s| && s[i..i + |pat|] == pat
  }

  /** The reference meaning of "`pat` occurs somewhere in `s`". */
  ghost predicate OccursIn(s: string, pat: string) {
    exists i :: OccursAt(s, pat, i)
  }

  /** A left-to-right search for `pat` in `s`, as an unanchored regular
      expression made of plain characters searches. */
  function Contains(s: string, pat: string): bool
    decreases |s|
  {
    StartsWith(s, pat) || (|s| > 0 && Contains(s[1..], pat))
  }

  /** The search finds the pattern exactly when it occurs. */
  lemma {:induction false} ContainsIff(s: string, pat: string)
    ensures Contains(s, pat) <==> OccursIn(s, pat)
    decreases |s|
  {
    if StartsWith(s, pat) {
      assert OccursAt(s, pat, 0);
    } else if |s| > 0 {
      ContainsIff(s[1..], pat);
      if Contains(s[1..], pat) {
        var i :| OccursAt(s[1..], pat, i);
        assert s[1..][i..i + |pat|] == s[i + 1..i + 1 + |pat|];
        assert OccursAt(s, pat, i + 1);
      }
      if OccursIn(s, pat) {
        var i :| OccursAt(s, pat, i);
        assert i != 0;
        assert s[1..][i - 1..i - 1 + |pat|] == s[i..i + |pat|];
        assert OccursAt(s[1..], pat, i - 1);
      }
    }
  }

  /** Appending characters never removes an occurrence. */
  lemma {:induction false} ContainsAppend(s: string, more: string, pat: string)
    requires Contains(s, pat)
    ensures Contains(s + more, pat)
    decreases |s|
  {
    if StartsWith(s, pat) {
      assert (s + more)[..|pat|] == s[..|pat|];
    } else {
      assert (s + more)[1..] == s[1..] + more;
      ContainsAppend(s[1..], more, pat);
    }
  }

  /** The characters JavaScript's `\s` class matches: space, tab to carriage
      return (U+0009 to U+000D), and the Unicode spaces from U+00A0 on. */
  predicate IsWhitespace(c: char) {
    if c <= ' ' then c == ' ' || ('\t' <= c <= '\r')
    else if c < '\U{00A0}' then false
    else
      || c == '\U{00A0}' || c == '\U{1680}' || ('\U{2000}' <= c <= '\U{200A}')
      || c == '\U{2028}' || c == '\U{2029}' || c == '\U{202F}' || c == '\U{205F}'
      || c == '\U{3000}' || c == '\U{FEFF}'
  }

  /** `s.replace(/\s/g, "")`: every whitespace character removed, the rest kept in order. */
  function StripWhitespace(s: string): (r: string)
    ensures |r| <= |s|
    ensures forall k :: 0 <= k < |r| ==> !IsWhitespace(r[k])
  {
    if s == [] then []
    else (if IsWhitespace(s[0]) then [] else [s[0]]) + StripWhitespace(s[1..])
  }

  /** Stripping distributes over concatenation. */
  lemma {:induction false} StripWhitespaceAppend(a: string, b: string)
    ensures StripWhitespace(a + b) == StripWhitespace(a) + StripWhitespace(b)
    decreases |a|
  {
    if a == [] {
      assert a + b == b;
    } else {
      assert (a + b)[1..] == a[1..] + b;
      StripWhitespaceAppend(a[1..], b);
    }
  }

  /** A string without whitespace is left as it is. */
  lemma {:induction false} StripWhitespaceKeeps(s: string)
    requires forall k :: 0 <= k < |s| ==> !IsWhitespace(s[k])
    ensures StripWhitespace(s) == s
    decreases |s|
  {
    if s != [] {
      StripWhitespaceKeeps(s[1..]);
    }
  }

  /** A string made only of whitespace strips to nothing. */
  lemma {:induction false} StripWhitespaceDrops(w: string)
    requires forall k :: 0 <= k < |w| ==> IsWhitespace(w[k])
    ensures StripWhitespace(w) == []
    decreases |w|
  {
    if w != [] {
      StripWhitespaceDrops(w[1..]);
    }
  }

  /** Whitespace inserted anywhere does not change the stripped text. */
  lemma StripWhitespaceIgnores(a: string, w: string, b: string)
    requires forall k :: 0 <= k < |w| ==> IsWhitespace(w[k])
    ensures StripWhitespace(a + w + b) == StripWhitespace(a + b)
  {
    StripWhitespaceAppend(a + w, b);
    StripWhitespaceAppend(a, w);
    StripWhitespaceAppend(a, b);
    StripWhitespaceDrops(w);
  }

  /** `s.split(sep)` for a one-character separator: the pieces between the
      separators, in order; the empty string splits into one empty piece. */
  function Split(s: string, sep: char): (r: seq<string>)
    ensures |r| >= 1
    ensures forall k :: 0 <= k < |r| ==> sep !in r[k]
  {
    if s == [] then [[]]
    else
      var rest := Split(s[1..], sep);
      if s[0] == sep then [[]] + rest
      else [[s[0]] + rest[0]] + rest[1..]
  }

  /** `parts.join(sep)`. */
  function Join(parts: seq<string>, sep: char): string
  {
    if |parts| == 0 then []
    else if |parts| == 1 then parts[0]
    else parts[0] + [sep] + Join(parts[1..], sep)
  }

  /** Every occurrence of `from` replaced by `to`, all other characters kept. */
  function ReplaceChar(s: string, from: char, to: char): (r: string)
    ensures |r| == |s|
    ensures forall k :: 0 <= k < |s| ==> r[k] == if s[k] == from then to else s[k]
  {
    if s == [] then []
    else [if s[0] == from then to else s[0]] + ReplaceChar(s[1..], from, to)
  }

  /** Splitting on one separator and joining with another replaces the one by the other. */
  lemma {:induction false} JoinSplitReplace(s: string, from: char, to: char)
    ensures Join(Split(s, from), to) == ReplaceChar(s, from, to)
    decreases |s|
  {
    if s != [] {
      var rest := Split(s[1..], from);
      JoinSplitReplace(s[1..], from, to);
      if s[0] != from && |rest| >= 2 {
        assert Join(rest, to) == rest[0] + [to] + Join(rest[1..], to);
        assert Split(s, from)[1..] == rest[1..];
      }
    }
  }

  /** Splitting and joining with the same separator gives the string back. */
  lemma JoinSplit(s: string, sep: char)
    ensures Join(Split(s, sep), sep) == s
  {
    JoinSplitReplace(s, sep, sep);
    assert ReplaceChar(s, sep, sep) == s;
  }

  /** A string without the separator is a single piece. */
  lemma {:induction false} SplitNoSep(s: string, sep: char)
    requires sep !in s
    ensures Split(s, sep) == [s]
    decreases |s|
  {
    if s != [] {
      assert s[0] != sep && sep !in s[1..];
      SplitNoSep(s[1..], sep);
      assert [s[0]] + s[1..] == s;
    }
  }

  /** A separator cuts the string into the pieces of its two sides. */
  lemma {:induction false} SplitConcat(a: string, b: string, sep: char)
    ensures Split(a + [sep] + b, sep) == Split(a, sep) + Split(b, sep)
    decreases |a|
  {
    if a == [] {
      assert a + [sep] + b == [sep] + b;
      assert ([sep] + b)[1..] == b;
    } else {
      assert (a + [sep] + b)[1..] == a[1..] + [sep] + b;
      SplitConcat(a[1..], b, sep);
    }
  }

  /** Joining pieces that hold no separator and splitting again gives the pieces back. */
  lemma {:induction false} SplitJoin(parts: seq<string>, sep: char)
    requires |parts| >= 1
    requires forall k :: 0 <= k < |parts| ==> sep !in parts[k]
    ensures Split(Join(parts, sep), sep) == parts
    decreases |parts|
  {
    if |parts| == 1 {
      SplitNoSep(parts[0], sep);
    } else {
      SplitJoin(parts[1..], sep);
      SplitConcat(parts[0], Join(parts[1..], sep), sep);
      SplitNoSep(parts[0], sep);
      assert [parts[0]] + parts[1..] == parts;
    }
  }

  /** The last piece follows the last separator. */
  lemma {:induction false} JoinLast(parts: seq<string>, sep: char)
    requires |parts| >= 2
    ensures Join(parts, sep) == Join(parts[..|parts| - 1], sep) + [sep] + parts[|parts| - 1]
    decreases |parts|
  {
    if |parts| > 2 {
      JoinLast(parts[1..], sep);
      assert parts[1..][..|parts| - 2] == parts[..|parts| - 1][1..];
    }
  }

  /** The first piece runs up to the first separator, or to the end when there is none. */
  lemma {:induction false} SplitFirst(s: string, sep: char)
    ensures StartsWith(s + [sep], Split(s, sep)[0] + [sep])
    decreases |s|
  {
    if s != [] {
      SplitFirst(s[1..], sep);
      assert (s + [sep])[1..] == s[1..] + [sep];
    }
  }
}
