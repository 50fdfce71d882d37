/** What a modifier-click on a component tag opens: the app's tree node, the
    editor header, its namespace prefix and the five file tabs of the app,
    together with what the tabs' `data` binding yields. */
module AppOpen {
  import opened Types
  import opened Text
  import opened ComponentClick

  /** The app record the `load` call returns: only the fields the controller reads. */
  datatype AppData = AppData(id: string, title: Option<string>, namespace: string)

  /** The tree node built for the app. */
  datatype Node = Node(path: string, name: Option<string>, level: nat, meta: AppData)

  /** The descriptor passed to the editor-session manager for the app. */
  datatype Header = Header(componentId: string, path: string, title: string, subtitle: string, current: int)

  /** One file tab: its name, file path, language, and whether Monaco's
      validation decorations are switched off. */
  datatype TabSpec = TabSpec(name: string, path: string, language: Language, validationOff: bool)

  /** Everything an opened app is made of. */
  datatype OpenPlan = OpenPlan(node: Node, header: Header, namespacePrefix: string, tabs: seq<TabSpec>)

  /** What one mouse-down does: nothing, a `load` call that fails, or a
      `load` call for the app followed by the editor it opens. */
  datatype ClickOutcome =
    | Ignored
    | LoadFailed(appId: string)
    | Opened(appId: string, plan: OpenPlan)

  /** The file names of an app's tabs, in the order the tabs are created. */
  const TabFiles: seq<string> := ["view.pug", "view.ts", "view.scss", "api.py", "socket.py"]

  /** The languages of those tabs, in the same order. */
  const TabLanguages: seq<Language> := [Pug, Typescript, Scss, Python, Python]

  /** The directory of an app in the workspace. */
  function NodePath(appId: string): (p: string)
    ensures StartsWith(p, "src/app/") && p[8..] == appId
  {
    "src/app/" + appId
  }

  /** `app.title ? app.title : app.namespace`: a missing or empty title falls
      back to the namespace. */
  function HeaderTitle(app: AppData): (t: string)
    ensures app.title.Some? && app.title.value != [] ==> t == app.title.value
    ensures app.title.None? || app.title.value == [] ==> t == app.namespace
  {
    match app.title
    case Some(title) => if title != [] then title else app.namespace
    case None => app.namespace
  }

  /** `app.id.split(".")[0] + "."`. */
  function NamespacePrefix(id: string): string
  {
    Split(id, '.')[0] + "."
  }

  /** The namespace prefix is the app id up to and including its first dot,
      or the whole id and a dot when it has none. */
  lemma NamespacePrefixSpec(id: string)
    ensures var p := NamespacePrefix(id);
      |p| >= 1 && p[|p| - 1] == '.' && '.' !in p[..|p| - 1] && StartsWith(id + ".", p)
    ensures '.' !in id ==> NamespacePrefix(id) == id + "."
  {
    SplitFirst(id, '.');
    assert NamespacePrefix(id)[..|NamespacePrefix(id)| - 1] == Split(id, '.')[0];
    if '.' !in id {
      SplitNoSep(id, '.');
    }
  }

  /** The five tabs of the app in directory `nodePath`: tab `i` edits file
      `TabFiles[i]` of that directory in language `TabLanguages[i]`. */
  function Tabs(nodePath: string): (r: seq<TabSpec>)
    ensures |r| == 5
    ensures forall i :: 0 <= i < 5 ==>
      r[i].path == nodePath + "/" + TabFiles[i] && r[i].language == TabLanguages[i]
  {
    [
      TabSpec("Pug", nodePath + "/view.pug", Pug, false),
      TabSpec("Component", nodePath + "/view.ts", Typescript, true),
      TabSpec("SCSS", nodePath + "/view.scss", Scss, false),
      TabSpec("API", nodePath + "/api.py", Python, false),
      TabSpec("Socket", nodePath + "/socket.py", Python, false)
    ]
  }

  /** A file of a directory splits into the directory's segments and its name. */
  lemma FileSegments(dir: string, file: string)
    requires '/' !in file
    ensures Split(dir + "/" + file, '/') == Split(dir, '/') + [file]
  {
    SplitConcat(dir, file, '/');
    SplitNoSep(file, '/');
  }

  /** The tabs are siblings: splitting tab `i`'s path on `/` gives the app
      directory's segments and then the file name. */
  lemma TabSegments(nodePath: string, i: int)
    requires 0 <= i < 5
    ensures Split(Tabs(nodePath)[i].path, '/') == Split(nodePath, '/') + [TabFiles[i]]
  {
    assert '/' !in TabFiles[i];
    FileSegments(nodePath, TabFiles[i]);
  }

  /** The five file names are different. */
  lemma TabFilesDistinct(i: int, j: int)
    requires 0 <= i < j < 5
    ensures TabFiles[i] != TabFiles[j]
  {
  }

  /** No two tabs edit the same file. */
  lemma TabsDistinct(nodePath: string, i: int, j: int)
    requires 0 <= i < j < 5
    ensures Tabs(nodePath)[i].path != Tabs(nodePath)[j].path
  {
    var pi, pj := Tabs(nodePath)[i].path, Tabs(nodePath)[j].path;
    TabSegments(nodePath, i);
    TabSegments(nodePath, j);
    TabFilesDistinct(i, j);
    var n := |Split(nodePath, '/')|;
    assert Split(pi, '/')[n] == TabFiles[i];
    assert Split(pj, '/')[n] == TabFiles[j];
  }

  /** The editor opened for app `appId`, whose `load` call returned `app`. */
  function PlanFor(appId: string, app: AppData): OpenPlan
  {
    var node := Node(NodePath(appId), app.title, 1, app);
    var header := Header("workspace.app.explore", node.path, HeaderTitle(app), app.id, 1);
    OpenPlan(node, header, NamespacePrefix(app.id), Tabs(node.path))
  }

  /** The opened editor is titled by the app, shows its id, takes its
      namespace prefix from the id, and its tabs are the five files of
      `src/app/<appId>`. */
  lemma PlanForSpec(appId: string, app: AppData)
    ensures var plan := PlanFor(appId, app);
      && StartsWith(plan.node.path, "src/app/") && plan.node.path[8..] == appId
      && plan.header.path == plan.node.path
      && plan.header.subtitle == app.id
      && plan.header.title == HeaderTitle(app)
      && plan.namespacePrefix == NamespacePrefix(app.id)
      && plan.tabs == Tabs(plan.node.path)
      && (forall i :: 0 <= i < |plan.tabs| ==> plan.tabs[i].path == plan.node.path + "/" + TabFiles[i])
  {
  }

  /** The mouse-down handler, for the modifier keys held, the clicked
      element's text and the `load` call's response. */
  function OnMouseDown(metaKey: bool, altKey: bool, text: string, loadCode: int, loadData: AppData): (r: ClickOutcome)
    ensures r.Ignored? <==> (!metaKey && !altKey) || ComponentAppId(text).None?
    ensures !r.Ignored? ==> r.appId == ComponentAppId(text).value
    ensures r.Opened? <==> !r.Ignored? && loadCode == Ok
    ensures r.Opened? ==> r.plan == PlanFor(r.appId, loadData)
  {
    if !metaKey && !altKey then Ignored
    else match ComponentAppId(text)
      case None => Ignored
      case Some(appId) =>
        if loadCode != Ok then LoadFailed(appId) else Opened(appId, PlanFor(appId, loadData))
  }

  /** A click that opens an app opens the directory its tag names: for
      `wiz-<run>`, `src/app/` and the run with dashes made dots. */
  lemma OpenedPath(metaKey: bool, altKey: bool, run: string, loadData: AppData)
    requires metaKey || altKey
    requires |run| > 0 && forall k :: 0 <= k < |run| ==> IsTagChar(run[k])
    ensures OnMouseDown(metaKey, altKey, TagPrefix + run, Ok, loadData).Opened?
    ensures OnMouseDown(metaKey, altKey, TagPrefix + run, Ok, loadData).plan.node.path
            == "src/app/" + ReplaceChar(run, '-', '.')
  {
    ComponentAppIdOfTag(run);
  }

  /** What a tab's content looks like to the session manager: `{}` or `{ data }`. */
  datatype TabData = NoData | Data(content: string)

  /** The tab's `data` binding: `{}` when `read` fails, `{ data }` otherwise. */
  function ReadBinding(readCode: int, readData: string): (d: TabData)
    ensures d.Data? <==> readCode == Ok
    ensures d.Data? ==> d.content == readData
  {
    if readCode != Ok then NoData else Data(readData)
  }

  /** `data.data` as the `update` binding reads it: `undefined` for `{}`. */
  function SavedContent(d: TabData): (c: Option<string>)
    ensures c.Some? <==> d.Data?
    ensures d.Data? ==> c.value == d.content
  {
    match d
    case NoData => None
    case Data(content) => Some(content)
  }

  /** A tab saves back exactly what it read, and sends `undefined` when the
      read failed. */
  lemma SaveAfterRead(readCode: int, readData: string)
    ensures SavedContent(ReadBinding(readCode, readData)) == if readCode == Ok then Some(readData) else None
  {
  }
}
