/** The two completion providers: which line of the text before the cursor
    they look at, when they offer their fixed snippet table, and the global
    flag that registers them only once. Suggestions are modelled by label. */
module Completion {
  import opened Types
  import opened Text

  /** The labels of the TypeScript snippet table, in order. */
  const TypescriptLabels: seq<string> := [
    "import.wiz.libs", "import.wiz.libs.service", "wiz.call", "wiz.socket",
    "import.toastr", "public.service", "public.change.detector.ref",
    "import.destructure", "import.default"
  ]

  /** The labels of the Pug snippet table, in order. */
  const PugLabels: seq<string> := [
    "ngFor", "ngIf", "[(ngModel)]", "(ngClick)", "(ngChange)",
    "routerLink", "routerLinkVariable", "routerLinkActive", "routerLinkActiveVariable"
  ]

  /** `text.split("\n").slice(-1)[0]`: the line the cursor is on, up to the cursor. */
  function LastLine(text: string): (t: string)
    ensures '\n' !in t
  {
    var lines := Split(text, '\n');
    lines[|lines| - 1]
  }

  /** The last line is the suffix after the final newline, or the whole text
      when there is no newline. */
  lemma LastLineSuffix(text: string)
    ensures |LastLine(text)| <= |text|
    ensures text[|text| - |LastLine(text)|..] == LastLine(text)
    ensures |LastLine(text)| == |text| || text[|text| - |LastLine(text)| - 1] == '\n'
  {
    var lines := Split(text, '\n');
    JoinSplit(text, '\n');
    if |lines| >= 2 {
      JoinLast(lines, '\n');
    }
  }

  /** Those three facts single the last line out: no other suffix meets them. */
  lemma LastLineUnique(text: string, t: string)
    requires |t| <= |text| && text[|text| - |t|..] == t && '\n' !in t
    requires |t| == |text| || text[|text| - |t| - 1] == '\n'
    ensures t == LastLine(text)
  {
    LastLineSuffix(text);
  }

  /** Text on earlier lines does not matter. */
  lemma LastLineAfterNewline(before: string, after: string)
    ensures LastLine(before + "\n" + after) == LastLine(after)
  {
    SplitConcat(before, after, '\n');
  }

  /** Characters typed on the same line extend it. */
  lemma LastLineExtend(text: string, more: string)
    requires '\n' !in more
    ensures LastLine(text + more) == LastLine(text) + more
  {
    var t := LastLine(text) + more;
    LastLineSuffix(text);
    var whole := text + more;
    assert whole[|whole| - |t|..] == t;
    if |t| != |whole| {
      assert whole[|whole| - |t| - 1] == text[|text| - |LastLine(text)| - 1];
    }
    LastLineUnique(whole, t);
  }

  /** The TypeScript trigger: `/wiz/`, `/^import/` or `/public/` matches the line. */
  predicate TypescriptTrigger(t: string) {
    Contains(t, "wiz") || StartsWith(t, "import") || Contains(t, "public")
  }

  /** The Pug trigger: `/ng/` or `/router/` matches the line. */
  predicate PugTrigger(t: string) {
    Contains(t, "ng") || Contains(t, "router")
  }

  /** The TypeScript provider's suggestions for the text before the cursor. */
  function TypescriptSuggestions(textUntilPosition: string): (r: seq<string>)
    ensures r == [] || r == TypescriptLabels
  {
    if TypescriptTrigger(LastLine(textUntilPosition)) then TypescriptLabels else []
  }

  /** The Pug provider's suggestions for the text before the cursor. */
  function PugSuggestions(textUntilPosition: string): (r: seq<string>)
    ensures r == [] || r == PugLabels
  {
    if PugTrigger(LastLine(textUntilPosition)) then PugLabels else []
  }

  /** The TypeScript list (all nine snippets or nothing) is offered exactly
      when `wiz` or `public` occurs in the last line or the line
      begins with `import`. */
  lemma TypescriptSuggestionsSpec(text: string)
    ensures |TypescriptLabels| == 9
    ensures TypescriptSuggestions(text) != [] <==>
      (OccursIn(LastLine(text), "wiz") || StartsWith(LastLine(text), "import")
       || OccursIn(LastLine(text), "public"))
  {
    ContainsIff(LastLine(text), "wiz");
    ContainsIff(LastLine(text), "public");
  }

  /** The Pug list (all nine snippets or nothing) is offered exactly when
      `ng` or `router` occurs in the last line. */
  lemma PugSuggestionsSpec(text: string)
    ensures |PugLabels| == 9
    ensures PugSuggestions(text) != [] <==>
      (OccursIn(LastLine(text), "ng") || OccursIn(LastLine(text), "router"))
  {
    ContainsIff(LastLine(text), "ng");
    ContainsIff(LastLine(text), "router");
  }

  /** Only the cursor's line decides the TypeScript list. */
  lemma TypescriptIgnoresEarlierLines(before: string, after: string)
    ensures TypescriptSuggestions(before + "\n" + after) == TypescriptSuggestions(after)
  {
    LastLineAfterNewline(before, after);
  }

  /** Only the cursor's line decides the Pug list. */
  lemma PugIgnoresEarlierLines(before: string, after: string)
    ensures PugSuggestions(before + "\n" + after) == PugSuggestions(after)
  {
    LastLineAfterNewline(before, after);
  }

  /** Once offered, the TypeScript list stays offered while the user keeps
      typing on the same line. */
  lemma TypescriptKeepsOffering(text: string, more: string)
    requires TypescriptSuggestions(text) != []
    requires '\n' !in more
    ensures TypescriptSuggestions(text + more) == TypescriptLabels
  {
    var t := LastLine(text);
    LastLineExtend(text, more);
    if Contains(t, "wiz") {
      ContainsAppend(t, more, "wiz");
    } else if StartsWith(t, "import") {
      assert (t + more)[..6] == t[..6];
    } else {
      ContainsAppend(t, more, "public");
    }
  }

  /** Once offered, the Pug list stays offered while the user keeps typing
      on the same line. */
  lemma PugKeepsOffering(text: string, more: string)
    requires PugSuggestions(text) != []
    requires '\n' !in more
    ensures PugSuggestions(text + more) == PugLabels
  {
    var t := LastLine(text);
    LastLineExtend(text, more);
    if Contains(t, "ng") {
      ContainsAppend(t, more, "ng");
    } else {
      ContainsAppend(t, more, "router");
    }
  }

  /** The providers registered with Monaco and the global flag
      `window.monacoWIZRecommend` that guards their registration. */
  datatype Registry = Registry(recommendRegistered: bool, providers: seq<Language>)

  /** The guarded registration step of `init`. */
  function RegisterRecommend(r: Registry): (s: Registry)
    ensures s.recommendRegistered
    ensures r.providers <= s.providers && |s.providers| <= |r.providers| + 2
    ensures r.recommendRegistered ==> s == r
    ensures !r.recommendRegistered ==> s.providers == r.providers + [Typescript, Pug]
  {
    if r.recommendRegistered then r
    else Registry(true, r.providers + [Typescript, Pug])
  }

  /** `n` calls of the registration step. */
  function RegisterTimes(r: Registry, n: nat): Registry
  {
    if n == 0 then r else RegisterRecommend(RegisterTimes(r, n - 1))
  }

  /** However many times `init` runs on a fresh page, the two providers are
      registered exactly once, TypeScript first. */
  lemma {:induction false} RegisterOnce(n: nat)
    requires n >= 1
    ensures RegisterTimes(Registry(false, []), n) == Registry(true, [Typescript, Pug])
  {
    if n > 1 {
      RegisterOnce(n - 1);
    }
  }

  /** Registering again after a registration changes nothing. */
  lemma RegisterIdempotent(r: Registry)
    ensures RegisterRecommend(r).recommendRegistered
    ensures RegisterRecommend(RegisterRecommend(r)) == RegisterRecommend(r)
  {
  }
}
