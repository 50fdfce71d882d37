# Monaco editor controller — a Dafny model

This project models the decision logic of the Monaco editor controller of the
wiz IDE plugin (`editor/monaco/view.ts`). The controller:

- offers two fixed snippet tables as completions, chosen by the text on the
  cursor's line;
- reads a component reference such as `wiz-page-main` from a modifier-click
  in the rendered Pug template and opens that app's five source files as tabs;
- saves a file through the backend and then builds, unless the file lies in
  a server-side folder.

The string logic is written out by hand on `seq<char>`. This covers
JavaScript's `split` and `join` on one character, the regular expressions
`/wiz/`, `/^import/`, `/public/`, `/ng/`, `/router/` and `/^wiz\-[a-z\-]+/`,
and `replace(/\s/g, "")`. Backend calls are not executed. A `respond`
function gives the response code of each request, and the response data is
passed in as a parameter. The toasts are a list of emitted events.

Modules, one per part of the controller:

- `Types`: the optional value, the languages, the bridge requests, the toasts, and the success code 200.
- `Text`: the JavaScript string operations, each with its reference meaning and round trips (`Join(Split(s)) == s`, and the reverse).
- `Completion`: the last line before the cursor, the two trigger rules, the two snippet tables, and the once-only registration of the providers.
- `ComponentClick`: getting an app id from the clicked text.
- `AppOpen`: the node, the editor header, the namespace prefix, the five tabs, the mouse-down outcome, and the `data` binding.
- `SaveBuild`: the `update`/`build` decision and its toasts.
- `Controller`: the objects the controller changes (widget, language registry, sessions, tabs, the component). Its methods are proved against the functions above.

Only a failed `build` shows a toast ("Error on build"). A failed `load`
(line 245), `read` (line 311) or `update` (line 343) shows none.

## Model

| member | source | states |
|---|---|---|
| `Text.ContainsIff` | editor/monaco/view.ts:184-186 | the left-to-right search that decides `t.match(/pat/)` finds the pattern exactly when it occurs at some index of the line |
| `Text.ContainsAppend` | editor/monaco/view.ts:211-212 | appending text to a line never removes a match of a plain pattern |
| `Text.StartsWith` | editor/monaco/view.ts:185 | the `^`-anchored pattern `/^import/`: the line begins with the pattern (used in `Completion.TypescriptSuggestionsSpec`) |
| `Text.Contains` | editor/monaco/view.ts:184-186 | `t.match(/pat/)` for a pattern of plain characters: the pattern is tried at each position from the left (its meaning is proved by `Text.ContainsIff`) |
| `Text.StripWhitespace` | editor/monaco/view.ts:240 | `replace(/\s/g, "")` leaves no whitespace character and never lengthens the text |
| `Text.StripWhitespaceAppend` | editor/monaco/view.ts:240 | stripping whitespace distributes over concatenation |
| `Text.StripWhitespaceKeeps` | editor/monaco/view.ts:240 | text with no whitespace is left unchanged |
| `Text.StripWhitespaceIgnores` | editor/monaco/view.ts:240 | whitespace inserted anywhere does not change the stripped text |
| `Text.IsWhitespace` | editor/monaco/view.ts:240 | the `\s` class: space, U+0009 to U+000D, U+00A0, U+1680, U+2000 to U+200A, U+2028, U+2029, U+202F, U+205F, U+3000 and U+FEFF |
| `Text.Split` | editor/monaco/view.ts:183 | `split(sep)` always gives at least one piece, and no piece contains the separator |
| `Text.Join` | editor/monaco/view.ts:243 | `parts.join(sep)`: the pieces with one separator between each two (its round trips with `Split` are `Text.JoinSplit` and `Text.SplitJoin`) |
| `Text.ReplaceChar` | editor/monaco/view.ts:243 | every occurrence of one character is replaced by another and every other character is kept, position by position |
| `Text.JoinSplitReplace` | editor/monaco/view.ts:243 | `split(a).join(b)` is the text with every `a` made `b` |
| `Text.JoinSplit` | editor/monaco/view.ts:243 | joining the pieces of a split with the same separator gives the text back |
| `Text.SplitJoin` | editor/monaco/view.ts:243 | splitting a join of separator-free pieces (at least one piece) gives the pieces back |
| `Text.SplitConcat` | editor/monaco/view.ts:183 | a separator splits a text into the pieces of its left side followed by those of its right side |
| `Text.SplitNoSep` | editor/monaco/view.ts:262 | a text without the separator splits into itself alone |
| `Text.JoinLast` | editor/monaco/view.ts:183 | with two or more pieces, the last piece follows the last separator of the join |
| `Text.SplitFirst` | editor/monaco/view.ts:262 | the first piece of a split runs up to the first separator, or to the end when there is none |
| `Completion.LastLine` | editor/monaco/view.ts:183 | the line taken from the text before the cursor never contains `\n` |
| `Completion.LastLineSuffix` | editor/monaco/view.ts:183 | the line is a suffix of the text: either the whole text or the part right after a `\n` |
| `Completion.LastLineUnique` | editor/monaco/view.ts:210 | any `\n`-free suffix that is the whole text or follows a `\n` is the last line |
| `Completion.LastLineAfterNewline` | editor/monaco/view.ts:183 | text before the final newline does not affect the last line |
| `Completion.LastLineExtend` | editor/monaco/view.ts:210 | typing characters other than `\n` extends the last line by exactly those characters |
| `Completion.TypescriptTrigger` | editor/monaco/view.ts:184-187 | the three tests `/wiz/`, `/^import/` and `/public/` on the line; `Completion.TypescriptSuggestionsSpec` proves it holds iff `wiz` or `public` occurs in the line or the line starts with `import` |
| `Completion.PugTrigger` | editor/monaco/view.ts:211-213 | the two tests `/ng/` and `/router/` on the line; `Completion.PugSuggestionsSpec` proves it holds iff `ng` or `router` occurs in the line |
| `Completion.TypescriptSuggestions` | editor/monaco/view.ts:183-198 | the TypeScript provider returns either no suggestions or the whole TypeScript snippet table |
| `Completion.PugSuggestions` | editor/monaco/view.ts:210-224 | the Pug provider returns either no suggestions or the whole Pug snippet table |
| `Completion.TypescriptSuggestionsSpec` | editor/monaco/view.ts:184-198 | the TypeScript table has nine snippets, and the list is non-empty iff `wiz` occurs in the last line, `public` occurs in it, or the line starts with `import` |
| `Completion.PugSuggestionsSpec` | editor/monaco/view.ts:211-224 | the Pug table has nine snippets, and the list is non-empty iff `ng` or `router` occurs in the last line |
| `Completion.TypescriptIgnoresEarlierLines` | editor/monaco/view.ts:177-189 | only the cursor's line decides the TypeScript list |
| `Completion.PugIgnoresEarlierLines` | editor/monaco/view.ts:204-215 | only the cursor's line decides the Pug list |
| `Completion.TypescriptKeepsOffering` | editor/monaco/view.ts:183-198 | once the TypeScript snippets are offered, they stay offered while the user types on the same line |
| `Completion.PugKeepsOffering` | editor/monaco/view.ts:210-224 | once the Pug snippets are offered, they stay offered while the user types on the same line |
| `Completion.RegisterRecommend` | editor/monaco/view.ts:332-335 | after the guarded step the flag is set; when it was not set, exactly the TypeScript and then the Pug provider are added after those already registered; when it was, nothing changes |
| `Completion.RegisterOnce` | editor/monaco/view.ts:332-335 | however many times `init` runs on a fresh page, the TypeScript and Pug providers end up registered exactly once, in that order, with the flag set |
| `Completion.RegisterIdempotent` | editor/monaco/view.ts:332-335 | after one registration step the flag is set, and a second step changes nothing |
| `ComponentClick.TagRun` | editor/monaco/view.ts:241 | `[a-z\-]+` is greedy: it returns the longest prefix made of tag characters, so the next character (if any) is not one |
| `ComponentClick.IsTagChar` | editor/monaco/view.ts:241 | the class `[a-z\-]`: a lower-case letter or `-` (the greedy run of it is `ComponentClick.TagRun`) |
| `ComponentClick.MatchComponentTag` | editor/monaco/view.ts:240-242 | a match is found iff the stripped text starts with `wiz-` and then a character of `[a-z\-]`; it is a prefix of the stripped text, `wiz-` and then the longest run of such characters |
| `ComponentClick.ComponentAppId` | editor/monaco/view.ts:240-243 | the app id of a click: the match split on `-`, its first piece dropped, joined with `.` (characterised by `ComponentClick.ComponentAppIdSpec`) |
| `ComponentClick.ComponentAppIdSpec` | editor/monaco/view.ts:240-243 | an id is found iff the stripped text starts with `wiz-` and then a character of `[a-z\-]`; the id is the maximal run after `wiz-` with every `-` made `.` |
| `ComponentClick.ComponentAppIdShape` | editor/monaco/view.ts:240-243 | an id is non-empty and holds only lower-case letters and dots: no `-` and no whitespace |
| `ComponentClick.ComponentAppIdIgnoresWhitespace` | editor/monaco/view.ts:240 | whitespace anywhere in the clicked text does not change the app it names |
| `ComponentClick.ComponentAppIdOfTag` | editor/monaco/view.ts:241-243 | `wiz-` followed by a non-empty run of tag characters names that run with its dashes made dots |
| `AppOpen.HeaderTitle` | editor/monaco/view.ts:267 | the title is `app.title` when it is present and non-empty, otherwise `app.namespace` |
| `AppOpen.NodePath` | editor/monaco/view.ts:255 | the app directory is `src/app/` followed by the clicked id |
| `AppOpen.NamespacePrefix` | editor/monaco/view.ts:262-272 | `app.id.split(".")[0] + "."` (characterised by `AppOpen.NamespacePrefixSpec`) |
| `AppOpen.NamespacePrefixSpec` | editor/monaco/view.ts:262-272 | the prefix ends in the only `.` it contains and is a prefix of `app.id + "."`: `app.id` up to its first dot, or `app.id + "."` when there is no dot |
| `AppOpen.FileSegments` | editor/monaco/view.ts:278 | a file of a directory splits on `/` into the directory's segments followed by the file name |
| `AppOpen.Tabs` | editor/monaco/view.ts:274-305 | exactly five tabs, in order `view.pug` (pug), `view.ts` (typescript), `view.scss` (scss), `api.py` (python), `socket.py` (python), each at the node path plus `/` plus that file |
| `AppOpen.TabSegments` | editor/monaco/view.ts:274-305 | every tab is a file directly inside the app's directory |
| `AppOpen.TabsDistinct` | editor/monaco/view.ts:274-305 | no two tabs edit the same path |
| `AppOpen.PlanFor` | editor/monaco/view.ts:247-305 | the node, header, namespace prefix and tabs built for an app whose `load` succeeded (characterised by `AppOpen.PlanForSpec`) |
| `AppOpen.PlanForSpec` | editor/monaco/view.ts:247-305 | the node path is `src/app/` followed by the clicked id; the header shares that path, is titled by `HeaderTitle` and has subtitle `app.id`; the namespace prefix is `NamespacePrefix(app.id)`; the tabs are the five files of the node path |
| `AppOpen.OnMouseDown` | editor/monaco/view.ts:237-245 | a click is ignored iff neither meta nor alt is held or the text names no app; otherwise it loads that app, and the app is opened iff `load` returned 200, and then it opens `PlanFor(appId, data)` for the clicked id and the loaded record |
| `AppOpen.OpenedPath` | editor/monaco/view.ts:240-255 | a modifier-click on `wiz-<run>` whose load succeeds opens `src/app/` followed by the run with dashes made dots |
| `AppOpen.ReadBinding` | editor/monaco/view.ts:310-312 | the `data` binding yields `{ data }` with the read content iff `read` returned 200, and `{}` otherwise |
| `AppOpen.SavedContent` | editor/monaco/view.ts:314-315 | `data.data` is defined iff the tab holds data, and it is that data |
| `AppOpen.SaveAfterRead` | editor/monaco/view.ts:308-316 | a tab saves back exactly what it read, and `undefined` when the read failed |
| `SaveBuild.SkipsBuild` | editor/monaco/view.ts:344 | `["route", "controller", "model", "config"].includes(path.split("/")[1])` (characterised by `SaveBuild.SkipsBuildBySegment` and `SaveBuild.NoSlashBuilds`) |
| `SaveBuild.SkipsBuildBySegment` | editor/monaco/view.ts:344 | for any `<root>/<segment>` or `<root>/<segment>/<rest>`, the build is skipped iff `segment` is `route`, `controller`, `model` or `config` |
| `SaveBuild.NoSlashBuilds` | editor/monaco/view.ts:344 | a path with no `/` has no second segment and is always built |
| `SaveBuild.Save` | editor/monaco/view.ts:342-353 | a save makes one call, `update`, for a server-folder file and two otherwise, `update` first; it shows at most two toasts |
| `SaveBuild.SaveRequestsSpec` | editor/monaco/view.ts:342-353 | a save starts with `update`; exactly one `build` follows iff the path is outside the server folders; whether it follows does not depend on the code `update` returned |
| `SaveBuild.SaveToastsSpec` | editor/monaco/view.ts:343-352 | the info toast "Updated" is shown iff `update` returned 200 for a server-folder file, the success toast "Updated" iff it returned 200 for any other file; "Builded" iff a build ran and returned 200, "Error on build" iff a build ran and failed; nothing else; one toast for a successful update plus one for the build, with the build's toast last |
| `SaveBuild.OpenedTabsBuild` | editor/monaco/view.ts:255-305 | saving any tab of an opened app always builds, because every tab path has `app` as its second segment |
| `Controller.Widget.AddCommand` | editor/monaco/view.ts:330 | `addCommand` appends the shortcut after those already registered |
| `Controller.Tab.Bind` | editor/monaco/view.ts:308-316 | `bind(name, callback)` adds a callback named `name` to the tab and keeps the others |
| `Controller.LanguageRegistry.RegisterProvider` | editor/monaco/view.ts:175 | `registerCompletionItemProvider` adds one provider and leaves the global flag alone |
| `Controller.Component.Loader` | editor/monaco/view.ts:20-23 | `loading` takes the given status and nothing else changes |
| `Controller.Component.constructor` | editor/monaco/view.ts:6-12 | a new component holds the shortcuts and the editor session it is given, starts with `loading` true, and has sent no request and shown no toast |
| `Controller.Component.Init` | editor/monaco/view.ts:326-340 | every shortcut is added once, in order; the registry goes through exactly one guarded registration step; the click handler is installed iff the current tab is the Pug tab; the widget becomes the session's focused editor |
| `Controller.Component.AddComponentClick` | editor/monaco/view.ts:234-237 | the mouse-down handler is installed only when the current tab is 1, the Pug tab |
| `Controller.LoadCode` | editor/monaco/view.ts:244 | when the click names an app, the code is the one the backend returns for `load` of that app |
| `Controller.Component.Update` | editor/monaco/view.ts:342-353 | the requests sent and the toasts shown are exactly those of `SaveBuild.Save` for the codes the backend returns |
| `Controller.Component.ReadTab` | editor/monaco/view.ts:308-312 | the `data` callback stores the app record on the session, sends one `read` for the tab's path and returns `ReadBinding` of its result |
| `Controller.Component.UpdateTab` | editor/monaco/view.ts:313-316 | the `update` callback reads the tab and then saves its content under the tab's path; the session's namespace prefix and the loading flag stay as they were |
| `Controller.Component.BindTabs` | editor/monaco/view.ts:307-317 | the loop gives every tab both its `data` and its `update` callback |
| `Controller.Component.HandleMouseDown` | editor/monaco/view.ts:237-317 | the click handler's outcome is `OnMouseDown`; it sends one `load` exactly when the click is not ignored and shows no toast, and the loading flag stays as it was; on success it creates a new editor with the planned header and namespace prefix and one new tab per planned tab, each with both callbacks bound |
| `Controller.InitTwice` | editor/monaco/view.ts:326-335 | a page that runs `init` twice ends with the two providers registered once |

## Left out

- Monaco engine objects: `getValueInRange`, `getWordUntilPosition`, the `range` built from them, and the suggestion fields `kind`, `documentation`, `insertText` and `insertTextRules`. The text before the cursor is an input, and a suggestion is modelled by its label only.
- The `wiz.call` bridge and the `call` wrapper that builds the `/wiz/ide/api/workspace.app.explore/<fn>` URL (lines 230-232). A request is a value, and its response code comes from the `respond` parameter.
- The `load` and `read` response data are parameters (`loadData`, `readData`). The model does not tie them to the request.
- Toast rendering by toastr. Toasts are recorded as emitted values.
- `ngOnInit` and `service.render` (lines 14-23): Angular lifecycle plumbing. `loader` is modelled as the flag assignment it performs.
- DOM access and timing: `editor.open(location)` and the `setTimeout` that clicks the last `.editor-header` (lines 319-322).
- The editor-session manager: `service.editor.create`, `editor.create` and `bind`. The model keeps only the descriptors passed to it and the names of the bound callbacks. The constant node fields `editable`, `extended`, `isLoading`, `parent` and `type`, the node's `rename` (a second copy of `data.title`), and the tabs' `viewref` are not modelled.
- `Controller.Component.UpdateTab`: it assumes that `tab.data()` runs the tab's own `data` callback. What the session manager really does there is not part of this model.
- Asynchrony and interleaving: each awaited call is modelled as completing before the next statement. Saves or clicks in flight at the same time are not modelled.
- General regular-expression semantics. Only the specific patterns above are written out.
- `app.title` is modelled as `Option<string>`, absent or present. Other falsy JavaScript values (`null`, `0`) are not distinguished from absence. `app.id` and `app.namespace` are always strings.
- JavaScript's loose `==` and `!=` comparisons of response codes are modelled as integer comparison.
