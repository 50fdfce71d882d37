/** Reading a component reference out of the text of a clicked element of the
    rendered Pug template: `wiz-page-main` names the app `page.main`. */
module ComponentClick {
  import opened Types
  import opened Text

  /** The handler is installed only when the Pug tab (tab 1) is the current one. */
  const PugTab: int := 1

  /** The prefix every component tag carries. */
  const TagPrefix: string := "wiz-"

  /** A character of the class `[a-z\-]`. */
  predicate IsTagChar(c: char) {
    ('a' <= c <= 'z') || c == '-'
  }

  /** The greedy run of `[a-z\-]` at the start of `s`. */
  function TagRun(s: string): (r: string)
    ensures |r| <= |s| && s[..|r|] == r
    ensures forall k :: 0 <= k < |r| ==> IsTagChar(r[k])
    ensures |r| == |s| || !IsTagChar(s[|r|])
  {
    if s == [] || !IsTagChar(s[0]) then []
    else [s[0]] + TagRun(s[1..])
  }

  /** A string made of tag characters is its own run. */
  lemma {:induction false} TagRunAll(s: string)
    requires forall k :: 0 <= k < |s| ==> IsTagChar(s[k])
    ensures TagRun(s) == s
    decreases |s|
  {
    if s != [] {
      TagRunAll(s[1..]);
      assert [s[0]] + s[1..] == s;
    }
  }

  /** `/^wiz\-[a-z\-]+/.exec(text.replace(/\s/g, ""))`: the matched text `r[0]`,
      or `None` when the expression does not match. */
  function MatchComponentTag(text: string): (m: Option<string>)
    ensures m.Some? ==> StartsWith(StripWhitespace(text), m.value)
    ensures m.Some? ==> StartsWith(m.value, TagPrefix) && |m.value| > |TagPrefix|
    ensures m.Some? ==> forall k :: |TagPrefix| <= k < |m.value| ==> IsTagChar(m.value[k])
    ensures var s := StripWhitespace(text);
      m.Some? <==> StartsWith(s, TagPrefix) && |s| > |TagPrefix| && IsTagChar(s[|TagPrefix|])
    ensures var s := StripWhitespace(text);
      m.Some? ==> |m.value| == |s| || !IsTagChar(s[|m.value|])
  {
    var s := StripWhitespace(text);
    if StartsWith(s, TagPrefix) && |TagRun(s[|TagPrefix|..])| > 0 then
      Some(TagPrefix + TagRun(s[|TagPrefix|..]))
    else None
  }

  /** `r[0].split("-").slice(1).join(".")`: the app id a match names. */
  function ComponentAppId(text: string): Option<string>
  {
    match MatchComponentTag(text)
    case None => None
    case Some(m) => Some(Join(Split(m, '-')[1..], '.'))
  }

  /** The app id is found exactly when the stripped text starts with `wiz-`
      followed by a character of `[a-z\-]`; it is then the maximal run of such
      characters after `wiz-`, with every `-` turned into `.`. */
  lemma ComponentAppIdSpec(text: string)
    ensures var s := StripWhitespace(text);
      ComponentAppId(text).Some? <==> (StartsWith(s, "wiz-") && |s| > 4 && IsTagChar(s[4]))
    ensures var s := StripWhitespace(text);
      ComponentAppId(text).Some? ==> ComponentAppId(text).value == ReplaceChar(TagRun(s[4..]), '-', '.')
  {
    var s := StripWhitespace(text);
    if StartsWith(s, "wiz-") && |s| > 4 && IsTagChar(s[4]) {
      var run := TagRun(s[4..]);
      assert run[0] == s[4];
      assert TagPrefix + run == "wiz" + ['-'] + run;
      SplitConcat("wiz", run, '-');
      SplitNoSep("wiz", '-');
      assert Split(TagPrefix + run, '-')[1..] == Split(run, '-');
      JoinSplitReplace(run, '-', '.');
    }
  }

  /** An app id is never empty, and it holds only lower-case letters and dots:
      no `-` and no whitespace. */
  lemma ComponentAppIdShape(text: string)
    requires ComponentAppId(text).Some?
    ensures var id := ComponentAppId(text).value;
      |id| > 0 && '-' !in id
      && forall k :: 0 <= k < |id| ==> ('a' <= id[k] <= 'z' || id[k] == '.') && !IsWhitespace(id[k])
  {
    ComponentAppIdSpec(text);
  }

  /** Whitespace anywhere in the clicked text (indentation, line breaks)
      does not change which app it names. */
  lemma ComponentAppIdIgnoresWhitespace(a: string, w: string, b: string)
    requires forall k :: 0 <= k < |w| ==> IsWhitespace(w[k])
    ensures ComponentAppId(a + w + b) == ComponentAppId(a + b)
  {
    StripWhitespaceIgnores(a, w, b);
  }

  /** The tag prefix holds no whitespace. */
  lemma TagPrefixStrips()
    ensures StripWhitespace(TagPrefix) == TagPrefix
  {
    StripWhitespaceKeeps(TagPrefix);
  }

  /** A tag holds no whitespace, so stripping leaves it as it is. */
  lemma TagStripsToItself(run: string)
    requires forall k :: 0 <= k < |run| ==> IsTagChar(run[k])
    ensures StripWhitespace(TagPrefix + run) == TagPrefix + run
  {
    TagPrefixStrips();
    StripWhitespaceKeeps(run);
    StripWhitespaceAppend(TagPrefix, run);
  }

  /** A tag written without whitespace, `wiz-` and then a run of `[a-z\-]`,
      names that run with its dashes made dots. */
  lemma ComponentAppIdOfTag(run: string)
    requires |run| > 0
    requires forall k :: 0 <= k < |run| ==> IsTagChar(run[k])
    ensures ComponentAppId(TagPrefix + run) == Some(ReplaceChar(run, '-', '.'))
  {
    var text := TagPrefix + run;
    TagStripsToItself(run);
    assert TagRun(text[4..]) == run by {
      assert text[4..] == run;
      TagRunAll(run);
    }
    ComponentAppIdSpec(text);
  }
}
