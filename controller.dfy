/** The controller's objects and the methods that change them: `init` with
    its shortcut loop and once-only provider registration, `loader`, the save
    (`update`), the tabs' `data` and `update` bindings, and the mouse-down
    handler that opens an app. Backend responses come from `respond`, which
    gives the code the bridge returns for each request. */
module Controller {
  import opened Types
  import opened Completion
  import opened ComponentClick
  import opened AppOpen
  import opened SaveBuild

  /** A keyboard shortcut of the IDE shell: the key binding and the command it runs. */
  datatype Shortcut = Shortcut(keybinding: int, command: string)

  /** The Monaco editor instance that `init` receives as `e.editor`. */
  class Widget {
    var commands: seq<Shortcut>
    var mouseDownHandlers: nat
    var focused: bool

    constructor ()
      ensures commands == [] && mouseDownHandlers == 0 && !focused
    {
      commands, mouseDownHandlers, focused := [], 0, false;
    }

    /** `addCommand`: the shortcut is added after those already there. */
    method AddCommand(s: Shortcut)
      modifies this
      ensures commands == old(commands) + [s]
      ensures mouseDownHandlers == old(mouseDownHandlers) && focused == old(focused)
    {
      commands := commands + [s];
    }
  }

  /** `monaco.languages` together with the page-global flag
      `window.monacoWIZRecommend`. */
  class LanguageRegistry {
    var recommendRegistered: bool
    var providers: seq<Language>

    /** The registry as a value. */
    function State(): Registry
      reads this
    {
      Registry(recommendRegistered, providers)
    }

    constructor ()
      ensures State() == Registry(false, [])
    {
      recommendRegistered, providers := false, [];
    }

    /** `registerCompletionItemProvider`: one more provider for `language`. */
    method RegisterProvider(language: Language)
      modifies this
      ensures providers == old(providers) + [language]
      ensures recommendRegistered == old(recommendRegistered)
    {
      providers := providers + [language];
    }
  }

  /** The editor session the component is bound to (its `editor` input). */
  class EditorSession {
    const current: int
    var monaco: Widget?

    constructor (current: int)
      ensures this.current == current && monaco == null
    {
      this.current := current;
      monaco := null;
    }
  }

  /** The editor session created for an opened app. */
  class AppEditor {
    const header: Header
    var namespacePrefix: string
    var info: Option<AppData>

    constructor (header: Header)
      ensures this.header == header && namespacePrefix == [] && info == None
    {
      this.header := header;
      namespacePrefix, info := [], None;
    }
  }

  /** A file tab of an opened app and the names of the callbacks bound to it. */
  class Tab {
    const spec: TabSpec
    var bindings: set<string>

    constructor (spec: TabSpec)
      ensures this.spec == spec && bindings == {}
    {
      this.spec := spec;
      bindings := {};
    }

    /** `bind(name, callback)`: the tab has a callback named `name` afterwards. */
    method Bind(name: string)
      modifies this
      ensures bindings == old(bindings) + {name}
    {
      bindings := bindings + {name};
    }
  }

  /** The names of the two callbacks every tab of an opened app gets. */
  const TabCallbacks: set<string> := {"data", "update"}

  /** The code the `load` call returns for the app a click names (any value
      when the click names none: no call is then made). */
  function LoadCode(text: string, respond: Request -> int): (code: int)
    ensures ComponentAppId(text).Some? ==> code == respond(Load(ComponentAppId(text).value))
  {
    match ComponentAppId(text)
    case None => Ok
    case Some(appId) => respond(Load(appId))
  }

  /** The controller component. */
  class Component {
    const shortcuts: seq<Shortcut>
    const editor: EditorSession
    var loading: bool
    var requests: seq<Request>
    var toasts: seq<Toast>

    constructor (shortcuts: seq<Shortcut>, editor: EditorSession)
      ensures this.shortcuts == shortcuts && this.editor == editor
      ensures loading && requests == [] && toasts == []
    {
      this.shortcuts, this.editor := shortcuts, editor;
      loading, requests, toasts := true, [], [];
    }

    /** `loader(status)`: the loading flag takes the given value. */
    method Loader(status: bool)
      modifies this
      ensures loading == status
      ensures requests == old(requests) && toasts == old(toasts)
    {
      loading := status;
    }

    /** `init(e)`: every shortcut is added to the widget once, in order; the
        completion providers are registered unless the global flag says they
        already are; the click handler is installed when the Pug tab is
        current; and the widget becomes the session's focused editor. */
    method Init(e: Widget, registry: LanguageRegistry)
      modifies e, registry, editor
      ensures e.commands == old(e.commands) + shortcuts
      ensures registry.State() == RegisterRecommend(old(registry.State()))
      ensures e.mouseDownHandlers == old(e.mouseDownHandlers) + (if editor.current == PugTab then 1 else 0)
      ensures editor.monaco == e && e.focused
    {
      var i := 0;
      while i < |shortcuts|
        invariant 0 <= i <= |shortcuts|
        invariant e.commands == old(e.commands) + shortcuts[..i]
        invariant e.mouseDownHandlers == old(e.mouseDownHandlers)
        invariant registry.State() == old(registry.State())
      {
        e.AddCommand(shortcuts[i]);
        i := i + 1;
      }
      assert shortcuts[..i] == shortcuts;
      if !registry.recommendRegistered {
        registry.RegisterProvider(Typescript);
        registry.RegisterProvider(Pug);
        registry.recommendRegistered := true;
      }
      AddComponentClick(e);
      editor.monaco := e;
      e.focused := true;
    }

    /** `addComponentClick(e)`: the mouse-down handler is installed only when
        the Pug tab is the current one. */
    method AddComponentClick(e: Widget)
      modifies e
      ensures e.mouseDownHandlers == old(e.mouseDownHandlers) + (if editor.current == PugTab then 1 else 0)
      ensures e.commands == old(e.commands) && e.focused == old(e.focused)
    {
      if editor.current != PugTab {
        return;
      }
      e.mouseDownHandlers := e.mouseDownHandlers + 1;
    }

    /** `update(path, code)`: the calls made and the toasts shown are those
        of `Save` for the codes the backend returns. */
    method Update(path: string, code: Option<string>, respond: Request -> int)
      modifies this
      ensures requests == old(requests) + Save(path, code, respond(Request.Update(path, code)), respond(Build(path))).requests
      ensures toasts == old(toasts) + Save(path, code, respond(Request.Update(path, code)), respond(Build(path))).toasts
      ensures loading == old(loading)
    {
      requests := requests + [Request.Update(path, code)];
      var res := respond(Request.Update(path, code));
      if SkipsBuild(path) {
        if res == Ok {
          toasts := toasts + [Info("Updated")];
        }
        return;
      }
      if res == Ok {
        toasts := toasts + [Success("Updated")];
      }
      requests := requests + [Build(path)];
      res := respond(Build(path));
      if res == Ok {
        toasts := toasts + [Info("Builded")];
      } else {
        toasts := toasts + [Error("Error on build")];
      }
    }

    /** A tab's `data` callback: the app's record is put on the session, the
        file is read, and the tab gets `{}` or `{ data }`. */
    method ReadTab(tab: Tab, session: AppEditor, app: AppData, respond: Request -> int, readData: string)
      returns (d: TabData)
      modifies this, session
      ensures session.info == Some(app) && session.namespacePrefix == old(session.namespacePrefix)
      ensures requests == old(requests) + [Read(tab.spec.path)]
      ensures d == ReadBinding(respond(Read(tab.spec.path)), readData)
      ensures toasts == old(toasts) && loading == old(loading)
    {
      session.info := Some(app);
      requests := requests + [Read(tab.spec.path)];
      var res := respond(Read(tab.spec.path));
      d := ReadBinding(res, readData);
    }

    /** A tab's `update` callback: the tab's data is fetched through its
        `data` callback and saved under the tab's path. */
    method UpdateTab(tab: Tab, session: AppEditor, app: AppData, respond: Request -> int, readData: string)
      modifies this, session
      ensures var content := SavedContent(ReadBinding(respond(Read(tab.spec.path)), readData));
        var trace := Save(tab.spec.path, content,
                          respond(Request.Update(tab.spec.path, content)), respond(Build(tab.spec.path)));
        && requests == old(requests) + [Read(tab.spec.path)] + trace.requests
        && toasts == old(toasts) + trace.toasts
      ensures session.info == Some(app) && session.namespacePrefix == old(session.namespacePrefix)
      ensures loading == old(loading)
    {
      var d := ReadTab(tab, session, app, respond, readData);
      Update(tab.spec.path, SavedContent(d), respond);
    }

    /** The binding loop: every tab gets its `data` and `update` callbacks. */
    method BindTabs(tabs: seq<Tab>)
      modifies set t | t in tabs
      ensures forall t :: t in tabs ==> t.bindings == old(t.bindings) + TabCallbacks
    {
      var i := 0;
      while i < |tabs|
        invariant 0 <= i <= |tabs|
        invariant forall t :: t in tabs ==>
          t.bindings == old(t.bindings) + (if t in tabs[..i] then TabCallbacks else {})
      {
        tabs[i].Bind("data");
        tabs[i].Bind("update");
        assert tabs[..i + 1] == tabs[..i] + [tabs[i]];
        i := i + 1;
      }
      assert tabs[..i] == tabs;
    }

    /** The mouse-down handler: a modifier-click on a component tag loads the
        app it names and, when that succeeds, opens an editor for it with the
        five file tabs, each with its callbacks bound. */
    method HandleMouseDown(metaKey: bool, altKey: bool, text: string, respond: Request -> int, loadData: AppData)
      returns (outcome: ClickOutcome, session: AppEditor?, tabs: seq<Tab>)
      modifies this
      ensures outcome == OnMouseDown(metaKey, altKey, text, LoadCode(text, respond), loadData)
      ensures requests == old(requests) + (if outcome.Ignored? then [] else [Load(outcome.appId)])
      ensures toasts == old(toasts) && loading == old(loading)
      ensures outcome.Opened? <==> session != null
      ensures outcome.Opened? ==>
        && fresh(session)
        && session.header == outcome.plan.header
        && session.namespacePrefix == outcome.plan.namespacePrefix
        && session.info == None
        && |tabs| == |outcome.plan.tabs|
        && forall k :: 0 <= k < |tabs| ==>
             fresh(tabs[k]) && tabs[k].spec == outcome.plan.tabs[k] && tabs[k].bindings == TabCallbacks
      ensures !outcome.Opened? ==> tabs == []
    {
      session, tabs := null, [];
      if !metaKey && !altKey {
        return Ignored, session, tabs;
      }
      var id := ComponentAppId(text);
      if id.None? {
        return Ignored, session, tabs;
      }
      var appId := id.value;
      requests := requests + [Load(appId)];
      var code := respond(Load(appId));
      if code != Ok {
        return LoadFailed(appId), session, tabs;
      }
      var plan := PlanFor(appId, loadData);
      session := new AppEditor(plan.header);
      session.namespacePrefix := plan.namespacePrefix;
      var i := 0;
      while i < |plan.tabs|
        invariant 0 <= i <= |plan.tabs| && |tabs| == i
        invariant forall k :: 0 <= k < i ==>
          fresh(tabs[k]) && tabs[k].spec == plan.tabs[k] && tabs[k].bindings == {}
        invariant fresh(session) && session.header == plan.header
        invariant session.namespacePrefix == plan.namespacePrefix && session.info == None
        invariant requests == old(requests) + [Load(appId)] && toasts == old(toasts)
        invariant loading == old(loading)
      {
        var tab := new Tab(plan.tabs[i]);
        tabs := tabs + [tab];
        i := i + 1;
      }
      BindTabs(tabs);
      outcome := Opened(appId, plan);
    }
  }

  /** A page that runs `init` twice, as when the editor is reopened: the
      shortcuts are added to each widget and the two completion providers are
      registered only by the first call. */
  method InitTwice(shortcuts: seq<Shortcut>, current: int) returns (registry: LanguageRegistry)
    ensures registry.State() == Registry(true, [Typescript, Pug])
  {
    registry := new LanguageRegistry();
    var session := new EditorSession(current);
    var component := new Component(shortcuts, session);
    var first := new Widget();
    component.Init(first, registry);
    var second := new Widget();
    component.Init(second, registry);
    assert second.commands == shortcuts;
    RegisterOnce(2);
  }
}
