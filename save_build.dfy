/** Saving a file: the `update` call, and the `build` call that follows it
    unless the file lies in one of the server-side folders; and the toasts
    each outcome shows. */
module SaveBuild {
  import opened Types
  import opened Text
  import opened AppOpen

  /** The folders whose files are saved without a build. */
  const ServerFolders: seq<string> := ["route", "controller", "model", "config"]

  /** `[...ServerFolders].includes(path.split("/")[1])`; a path with no `/`
      has no second segment and never matches. */
  predicate SkipsBuild(path: string) {
    var segments := Split(path, '/');
    |segments| > 1 && segments[1] in ServerFolders
  }

  /** The second segment of the path decides, whatever follows it. */
  lemma SkipsBuildBySegment(root: string, segment: string, rest: string)
    requires '/' !in root && '/' !in segment
    ensures SkipsBuild(root + "/" + segment) <==> segment in ServerFolders
    ensures SkipsBuild(root + "/" + segment + "/" + rest) <==> segment in ServerFolders
  {
    SplitNoSep(root, '/');
    SplitNoSep(segment, '/');
    SplitConcat(root, segment, '/');
    SplitConcat(root, segment + "/" + rest, '/');
    SplitConcat(segment, rest, '/');
    assert root + "/" + segment + "/" + rest == root + [('/')] + (segment + "/" + rest);
  }

  /** A path without any `/` is always built. */
  lemma NoSlashBuilds(path: string)
    requires '/' !in path
    ensures !SkipsBuild(path)
  {
    SplitNoSep(path, '/');
  }

  /** The calls one save makes and the toasts it shows. */
  datatype SaveTrace = SaveTrace(requests: seq<Request>, toasts: seq<Toast>)

  /** `update(path, code)`, given the codes the `update` and, when it is
      made, the `build` call return. */
  function Save(path: string, code: Option<string>, updateCode: int, buildCode: int): (t: SaveTrace)
    ensures |t.requests| == (if SkipsBuild(path) then 1 else 2) && t.requests[0] == Update(path, code)
    ensures |t.toasts| <= 2
  {
    if SkipsBuild(path) then
      SaveTrace([Update(path, code)], if updateCode == Ok then [Info("Updated")] else [])
    else
      SaveTrace([Update(path, code), Build(path)],
                (if updateCode == Ok then [Success("Updated")] else [])
                + [if buildCode == Ok then Info("Builded") else Error("Error on build")])
  }

  /** Every save starts with the `update` call; a build follows, once, exactly
      when the path is outside the server folders, and whether it follows does
      not depend on what `update` returned. */
  lemma SaveRequestsSpec(path: string, code: Option<string>, updateCode: int, buildCode: int, otherCode: int)
    ensures var t := Save(path, code, updateCode, buildCode);
      |t.requests| >= 1 && t.requests[0] == Update(path, code)
      && (Build(path) in t.requests <==> !SkipsBuild(path))
      && (forall k :: 1 <= k < |t.requests| ==> t.requests[k] == Build(path))
      && |t.requests| <= 2
    ensures Save(path, code, otherCode, buildCode).requests == Save(path, code, updateCode, buildCode).requests
  {
  }

  /** The info toast "Updated" is shown exactly when `update` returned 200 for
      a file in a server folder, the success toast "Updated" exactly when it
      returned 200 for any other file; "Builded" exactly when a build was made
      and returned 200, "Error on build" exactly when a build was made and
      failed. One toast per outcome, the build's toast last, nothing else. */
  lemma SaveToastsSpec(path: string, code: Option<string>, updateCode: int, buildCode: int)
    ensures var t := Save(path, code, updateCode, buildCode);
      && (Info("Updated") in t.toasts <==> SkipsBuild(path) && updateCode == Ok)
      && (Success("Updated") in t.toasts <==> !SkipsBuild(path) && updateCode == Ok)
      && (Info("Builded") in t.toasts <==> !SkipsBuild(path) && buildCode == Ok)
      && (Error("Error on build") in t.toasts <==> !SkipsBuild(path) && buildCode != Ok)
      && (forall k :: 0 <= k < |t.toasts| ==>
            t.toasts[k] in [Info("Updated"), Success("Updated"), Info("Builded"), Error("Error on build")])
      && |t.toasts| == (if updateCode == Ok then 1 else 0) + (if SkipsBuild(path) then 0 else 1)
      && (!SkipsBuild(path) ==>
            t.toasts[|t.toasts| - 1] == if buildCode == Ok then Info("Builded") else Error("Error on build"))
  {
  }

  /** Saving any tab of an opened app builds: every tab path has `app` as
      its second segment. */
  lemma OpenedTabsBuild(appId: string, app: AppData, i: int)
    requires 0 <= i < 5
    ensures !SkipsBuild(PlanFor(appId, app).tabs[i].path)
  {
    var nodePath := NodePath(appId);
    TabSegments(nodePath, i);
    assert nodePath == "src" + "/" + ("app/" + appId);
    SplitConcat("src", "app/" + appId, '/');
    SplitNoSep("src", '/');
    assert "app/" + appId == "app" + "/" + appId;
    SplitConcat("app", appId, '/');
    SplitNoSep("app", '/');
  }
}
