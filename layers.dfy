/**
 * The layer survey (`PrintLayerInfo`): every implicit layer manifest in the
 * five implicit folders is read first, collecting the override folders its
 * manifests name; then the explicit layer folders are searched in order: the
 * override folders, the folders in `VK_LAYER_PATH`, and the five standard
 * explicit folders. Each folder search (`PrintExplicitLayersInFolder`)
 * reports the last manifest that could not be read or parsed, and every
 * search overwrites the survey's result, so the survey ends with the result
 * of the last standard folder, the one under the user's home.
 */
module Layers {
  import opened Wrappers
  import opened CText
  import opened Json
  import opened Platform
  import opened ExplicitLayer
  import ImplicitLayer

  // ---------------------------------------------------------------------
  // One folder of explicit layers
  // ---------------------------------------------------------------------

  /** What a manifest that cannot be used sets the result to; `None` when it loads. */
  function Failure(fs: FileSystem, path: string): (r: Option<ErrorResult>)
    ensures r == None <==> LoadManifest(fs, path).Loaded?
  {
    match LoadManifest(fs, path)
    case Unreadable => Some(MissingLayerJson)
    case Unparsable => Some(LayerJsonParsingError)
    case Loaded(_) => None
  }

  /** The result after visiting `paths` from `res`: each failing manifest overwrites it. */
  function FoldFailures(fs: FileSystem, paths: seq<string>, res: ErrorResult): ErrorResult
    decreases |paths|
  {
    if paths == [] then res else FoldFailures(fs, paths[1..], Failure(fs, paths[0]).GetOr(res))
  }

  /** Manifests that all load leave the result as it was. */
  lemma {:induction false} NoFailureKeeps(fs: FileSystem, paths: seq<string>, res: ErrorResult)
    requires forall j :: 0 <= j < |paths| ==> Failure(fs, paths[j]).None?
    ensures FoldFailures(fs, paths, res) == res
    decreases |paths|
  {
    if paths != [] {
      assert Failure(fs, paths[0]).None?;
      assert forall j :: 0 <= j < |paths[1..]| ==> paths[1..][j] == paths[j + 1];
      NoFailureKeeps(fs, paths[1..], res);
    }
  }

  /** The manifest at `i` fails and none after it does. */
  predicate LastFailingAt(fs: FileSystem, paths: seq<string>, i: int) {
    0 <= i < |paths| && Failure(fs, paths[i]).Some? && forall j :: i < j < |paths| ==> Failure(fs, paths[j]).None?
  }

  /**
   * The last failure wins: with no failing manifest the result is left as it
   * was, and otherwise it is the failure of the last manifest that failed,
   * whatever failed before it.
   */
  lemma {:induction false} LastFailureWins(fs: FileSystem, paths: seq<string>, res: ErrorResult)
    ensures (forall i :: 0 <= i < |paths| ==> Failure(fs, paths[i]).None?) ==> FoldFailures(fs, paths, res) == res
    ensures forall i :: LastFailingAt(fs, paths, i) ==> FoldFailures(fs, paths, res) == Failure(fs, paths[i]).value
  {
    if forall i :: 0 <= i < |paths| ==> Failure(fs, paths[i]).None? {
      NoFailureKeeps(fs, paths, res);
    }
    forall i | LastFailingAt(fs, paths, i)
      ensures FoldFailures(fs, paths, res) == Failure(fs, paths[i]).value
    {
      var before, after := paths[..i], paths[i + 1..];
      assert paths == before + [paths[i]] + after;
      FoldFailuresAppend(fs, before + [paths[i]], after, res);
      FoldFailuresAppend(fs, before, [paths[i]], res);
      assert forall j :: 0 <= j < |after| ==> after[j] == paths[i + 1 + j];
      NoFailureKeeps(fs, after, FoldFailures(fs, before + [paths[i]], res));
      assert [paths[i]][1..] == [];
    }
  }

  lemma {:induction false} FoldFailuresAppend(fs: FileSystem, a: seq<string>, b: seq<string>, res: ErrorResult)
    ensures FoldFailures(fs, a + b, res) == FoldFailures(fs, b, FoldFailures(fs, a, res))
    decreases |a|
  {
    if a == [] {
      assert a + b == b;
    } else {
      assert (a + b)[1..] == a[1..] + b;
      FoldFailuresAppend(fs, a[1..], b, Failure(fs, a[0]).GetOr(res));
    }
  }

  /** The roots of the manifests that load, in the order they are visited. */
  function LoadedRoots(fs: FileSystem, paths: seq<string>): (roots: seq<Value>)
    ensures |roots| <= |paths|
    decreases |paths|
  {
    if paths == [] then []
    else
      (match LoadManifest(fs, paths[0])
       case Loaded(root) => [root]
       case _ => []) + LoadedRoots(fs, paths[1..])
  }

  /** A root is collected exactly when some visited manifest loads to it. */
  lemma {:induction false} LoadedRootsMembers(fs: FileSystem, paths: seq<string>, root: Value)
    ensures root in LoadedRoots(fs, paths) <==> exists i :: 0 <= i < |paths| && LoadManifest(fs, paths[i]) == Loaded(root)
    decreases |paths|
  {
    if paths != [] {
      LoadedRootsMembers(fs, paths[1..], root);
      if exists i :: 0 <= i < |paths| && LoadManifest(fs, paths[i]) == Loaded(root) {
        var i :| 0 <= i < |paths| && LoadManifest(fs, paths[i]) == Loaded(root);
        if i > 0 {
          assert paths[1..][i - 1] == paths[i];
        }
      }
      if root in LoadedRoots(fs, paths[1..]) {
        var i :| 0 <= i < |paths[1..]| && LoadManifest(fs, paths[1..][i]) == Loaded(root);
        assert paths[1..][i] == paths[i + 1];
      }
    }
  }

  lemma {:induction false} LoadedRootsAppend(fs: FileSystem, a: seq<string>, b: seq<string>)
    ensures LoadedRoots(fs, a + b) == LoadedRoots(fs, a) + LoadedRoots(fs, b)
    decreases |a|
  {
    if a == [] {
      assert a + b == b;
    } else {
      assert (a + b)[1..] == a[1..] + b;
      LoadedRootsAppend(fs, a[1..], b);
    }
  }

  /** Visiting one manifest ahead of the rest. */
  lemma {:induction false} VisitFirst(fs: FileSystem, p: string, rest: seq<string>, res: ErrorResult)
    ensures FoldFailures(fs, [p] + rest, res) == FoldFailures(fs, rest, Failure(fs, p).GetOr(res))
    ensures LoadedRoots(fs, [p] + rest) ==
      (if LoadManifest(fs, p).Loaded? then [LoadManifest(fs, p).root] else []) + LoadedRoots(fs, rest)
  {
    assert ([p] + rest)[1..] == rest;
  }

  /** Moving the next part of a sequence from the pending side to the done side keeps the whole. */
  lemma {:induction false} ShiftFront<T>(done: seq<T>, next: seq<T>, pending: seq<T>, whole: seq<T>)
    requires done + (next + pending) == whole
    ensures (done + next) + pending == whole
  {
    assert done + (next + pending) == (done + next) + pending;
  }

  /** The roots one directory entry adds: its document, when it is a manifest that loads. */
  function EntryRoots(fs: FileSystem, folder: string, name: string): seq<Value> {
    if IsManifestName(name) && LoadManifest(fs, EntryPath(folder, name)).Loaded? then
      [LoadManifest(fs, EntryPath(folder, name)).root]
    else []
  }

  /** The result after one directory entry: its failure, when it is a manifest that fails. */
  function EntryResult(fs: FileSystem, folder: string, name: string, res: ErrorResult): ErrorResult {
    if IsManifestName(name) then Failure(fs, EntryPath(folder, name)).GetOr(res) else res
  }

  /** One step of a `readdir` loop, for the result and for the roots collected so far. */
  lemma {:induction false} EntryStep(fs: FileSystem, folder: string, entries: seq<string>, i: nat, res: ErrorResult,
                  seen: seq<Value>, whole: seq<Value>)
    requires i < |entries|
    requires seen + LoadedRoots(fs, ManifestPaths(folder, entries[i..])) == whole
    ensures FoldFailures(fs, ManifestPaths(folder, entries[i..]), res) ==
      FoldFailures(fs, ManifestPaths(folder, entries[i + 1..]), EntryResult(fs, folder, entries[i], res))
    ensures (seen + EntryRoots(fs, folder, entries[i])) + LoadedRoots(fs, ManifestPaths(folder, entries[i + 1..])) == whole
  {
    var rest := ManifestPaths(folder, entries[i + 1..]);
    ManifestPathsStep(folder, entries, i);
    if IsManifestName(entries[i]) {
      VisitFirst(fs, EntryPath(folder, entries[i]), rest, res);
      assert LoadedRoots(fs, ManifestPaths(folder, entries[i..])) == EntryRoots(fs, folder, entries[i]) + LoadedRoots(fs, rest);
    } else {
      assert ManifestPaths(folder, entries[i..]) == rest;
      assert EntryRoots(fs, folder, entries[i]) + LoadedRoots(fs, rest) == LoadedRoots(fs, rest);
    }
    assert seen + (EntryRoots(fs, folder, entries[i]) + LoadedRoots(fs, rest)) == whole;
    ShiftFront(seen, EntryRoots(fs, folder, entries[i]), LoadedRoots(fs, rest), whole);
  }

  /** One report per loaded root, in order. */
  ghost predicate Reported(reports: seq<LayerReport>, roots: seq<Value>) {
    |reports| == |roots| && forall k :: 0 <= k < |roots| ==> ReportsAt(reports, roots, k)
  }

  /** The report at position `k` describes the root at `k`. */
  ghost predicate ReportsAt(reports: seq<LayerReport>, roots: seq<Value>, k: int)
    requires 0 <= k < |reports| == |roots|
  {
    reports[k] == ExplicitLayerReport(roots[k])
  }

  /** Reporting one more root keeps the reports in step with the roots. */
  lemma {:induction false} ReportedExtend(reports: seq<LayerReport>, roots: seq<Value>, root: Value)
    requires Reported(reports, roots)
    ensures Reported(reports + [ExplicitLayerReport(root)], roots + [root])
  {
    forall k | 0 <= k < |roots| + 1
      ensures ReportsAt(reports + [ExplicitLayerReport(root)], roots + [root], k)
    {
      if k < |roots| {
        assert ReportsAt(reports, roots, k);
      }
    }
  }

  /** Reports of two runs of roots, one after the other, report the roots one after the other. */
  lemma {:induction false} ReportedAppend(reports: seq<LayerReport>, roots: seq<Value>,
                                          more: seq<LayerReport>, moreRoots: seq<Value>)
    requires Reported(reports, roots) && Reported(more, moreRoots)
    ensures Reported(reports + more, roots + moreRoots)
  {
    forall k | 0 <= k < |roots| + |moreRoots|
      ensures ReportsAt(reports + more, roots + moreRoots, k)
    {
      if k < |roots| {
        assert ReportsAt(reports, roots, k);
      } else {
        assert ReportsAt(more, moreRoots, k - |roots|);
      }
    }
  }

  /** What searching one folder returns: successful when it cannot be opened. */
  function FolderResult(fs: FileSystem, folder: string): ErrorResult {
    FoldFailures(fs, FolderManifests(fs, folder), Successful)
  }

  /**
   * A folder search succeeds exactly when every manifest in it loads (a
   * folder that cannot be opened has none); otherwise its result is the
   * failure of its last failing manifest.
   */
  lemma {:induction false} FolderResultMeaning(fs: FileSystem, folder: string)
    ensures var paths := FolderManifests(fs, folder);
      FolderResult(fs, folder) == Successful <==> forall i :: 0 <= i < |paths| ==> Failure(fs, paths[i]).None?
    ensures var paths := FolderManifests(fs, folder);
      forall i :: LastFailingAt(fs, paths, i) ==> FolderResult(fs, folder) == Failure(fs, paths[i]).value
  {
    var paths := FolderManifests(fs, folder);
    LastFailureWins(fs, paths, Successful);
    if FolderResult(fs, folder) == Successful && exists i :: 0 <= i < |paths| && Failure(fs, paths[i]).Some? {
      var k :| 0 <= k < |paths| && Failure(fs, paths[k]).Some?;
      LastFailing(fs, paths, k);
    }
  }

  /** When some manifest fails, there is a last one that does. */
  lemma {:induction false} LastFailing(fs: FileSystem, paths: seq<string>, k: nat)
    requires k < |paths| && Failure(fs, paths[k]).Some?
    ensures exists i :: k <= i && LastFailingAt(fs, paths, i)
    decreases |paths| - k
  {
    if exists j :: k < j < |paths| && Failure(fs, paths[j]).Some? {
      var j :| k < j < |paths| && Failure(fs, paths[j]).Some?;
      LastFailing(fs, paths, j);
    } else {
      assert LastFailingAt(fs, paths, k);
    }
  }

  /**
   * One directory entry of an explicit folder: an entry named like a manifest
   * is loaded; a failure sets the result, a manifest that loads is reported.
   */
  method VisitExplicitEntry(fs: FileSystem, folder: string, name: string, res: ErrorResult,
                            reports: seq<LayerReport>, ghost seen: seq<Value>)
    returns (res': ErrorResult, reports': seq<LayerReport>, ghost seen': seq<Value>)
    requires Reported(reports, seen)
    ensures res' == EntryResult(fs, folder, name, res)
    ensures seen' == seen + EntryRoots(fs, folder, name)
    ensures Reported(reports', seen')
  {
    res', reports', seen' := res, reports, seen;
    if !IsManifestName(name) {
      assert seen' + [] == seen';
      return;
    }
    var path := EntryPath(folder, name);
    match LoadManifest(fs, path) {
      case Unreadable =>
        res' := MissingLayerJson;
      case Unparsable =>
        res' := LayerJsonParsingError;
      case Loaded(root) =>
        var report := PrintExplicitLayerJsonInfo(root);
        ReportedExtend(reports, seen, root);
        reports', seen' := reports + [report], seen + [root];
    }
  }

  /** The `readdir` loop over one folder's entries. */
  method ScanExplicitEntries(fs: FileSystem, folder: string, entries: seq<string>)
    returns (res: ErrorResult, reports: seq<LayerReport>)
    ensures res == FoldFailures(fs, ManifestPaths(folder, entries), Successful)
    ensures Reported(reports, LoadedRoots(fs, ManifestPaths(folder, entries)))
  {
    ghost var all := ManifestPaths(folder, entries);
    ghost var seen: seq<Value> := [];
    res, reports := Successful, [];
    var i := 0;
    while i < |entries|
      invariant i <= |entries|
      invariant FoldFailures(fs, ManifestPaths(folder, entries[i..]), res) == FoldFailures(fs, all, Successful)
      invariant seen + LoadedRoots(fs, ManifestPaths(folder, entries[i..])) == LoadedRoots(fs, all)
      invariant Reported(reports, seen)
    {
      EntryStep(fs, folder, entries, i, res, seen, LoadedRoots(fs, all));
      res, reports, seen := VisitExplicitEntry(fs, folder, entries[i], res, reports, seen);
      i := i + 1;
    }
    assert entries[i..] == [];
    assert seen + [] == seen;
  }


  /**
   * `PrintExplicitLayersInFolder`: the reports of the folder's manifests and
   * the failure of its last failing manifest, or success.
   */
  method PrintExplicitLayersInFolder(fs: FileSystem, folder: string)
    returns (res: ErrorResult, reports: seq<LayerReport>)
    ensures res == FolderResult(fs, folder)
    ensures Reported(reports, LoadedRoots(fs, FolderManifests(fs, folder)))
  {
    match ListDirectory(fs, folder) {
      case None =>
        res, reports := Successful, [];
      case Some(entries) =>
        res, reports := ScanExplicitEntries(fs, folder, entries);
    }
  }

  // ---------------------------------------------------------------------
  // The implicit layer folders
  // ---------------------------------------------------------------------

  /** The four system folders searched for implicit layers. */
  const ImplicitSystemFolders: seq<string> := [
    "/etc/vulkan/implicit_layer.d",
    "/usr/share/vulkan/implicit_layer.d",
    "/usr/local/etc/vulkan/implicit_layer.d",
    "/usr/local/share/vulkan/implicit_layer.d" ]

  /** The implicit layer folders in search order: the system ones, then the one under home. */
  function ImplicitLayerFolders(env: Env): seq<string> {
    ImplicitSystemFolders + [HomeFolder(env, "/.local/share/vulkan/implicit_layer.d")]
  }

  /** The four system folders searched for explicit layers. */
  const ExplicitSystemFolders: seq<string> := [
    "/etc/vulkan/explicit_layer.d",
    "/usr/share/vulkan/explicit_layer.d",
    "/usr/local/etc/vulkan/explicit_layer.d",
    "/usr/local/share/vulkan/explicit_layer.d" ]

  /** The standard explicit layer folders in search order: the system ones, then the one under home. */
  function ExplicitLayerFolders(env: Env): seq<string> {
    ExplicitSystemFolders + [HomeFolder(env, "/.local/share/vulkan/explicit_layer.d")]
  }

  /** The manifests of several folders, folder by folder. */
  function ManifestsIn(fs: FileSystem, folders: seq<string>): seq<string>
    decreases |folders|
  {
    if folders == [] then [] else FolderManifests(fs, folders[0]) + ManifestsIn(fs, folders[1..])
  }

  lemma {:induction false} ManifestsInAppend(fs: FileSystem, a: seq<string>, b: seq<string>)
    ensures ManifestsIn(fs, a + b) == ManifestsIn(fs, a) + ManifestsIn(fs, b)
    decreases |a|
  {
    if a == [] {
      assert a + b == b;
    } else {
      assert (a + b)[1..] == a[1..] + b;
      ManifestsInAppend(fs, a[1..], b);
    }
  }

  /** The manifests of the first `k + 1` folders: those of the first `k`, then folder `k`'s. */
  lemma {:induction false} ManifestsInSnoc(fs: FileSystem, folders: seq<string>, k: nat)
    requires k < |folders|
    ensures ManifestsIn(fs, folders[..k + 1]) == ManifestsIn(fs, folders[..k]) + FolderManifests(fs, folders[k])
  {
    assert folders[..k + 1] == folders[..k] + [folders[k]];
    ManifestsInAppend(fs, folders[..k], [folders[k]]);
    assert ManifestsIn(fs, [folders[k]]) == FolderManifests(fs, folders[k]) + ManifestsIn(fs, []);
  }

  /** What is shown for one implicit layer: its description and whether it is enabled. */
  datatype ImplicitShown = ImplicitShown(report: LayerReport, state: ImplicitLayer.Enablement)

  /** The entry shown at position `k` is the one for the root at `k`. */
  ghost predicate ShowsAt(shown: seq<ImplicitShown>, roots: seq<Value>, k: int, env: Env, now: ImplicitLayer.Stamp)
    requires 0 <= k < |shown| == |roots|
  {
    shown[k] == ImplicitShown(ExplicitLayerReport(roots[k]), ImplicitLayer.Evaluate(roots[k], env, now))
  }

  /** One entry per loaded implicit root, in order. */
  ghost predicate ShownFor(shown: seq<ImplicitShown>, roots: seq<Value>, env: Env, now: ImplicitLayer.Stamp) {
    && |shown| == |roots|
    && forall k :: 0 <= k < |roots| ==> ShowsAt(shown, roots, k, env, now)
  }

  /** Showing one more root keeps the entries in step with the roots. */
  lemma {:induction false} ShownForExtend(shown: seq<ImplicitShown>, roots: seq<Value>, root: Value, env: Env, now: ImplicitLayer.Stamp)
    requires ShownFor(shown, roots, env, now)
    ensures ShownFor(shown + [ImplicitShown(ExplicitLayerReport(root), ImplicitLayer.Evaluate(root, env, now))],
                     roots + [root], env, now)
  {
    var entry := ImplicitShown(ExplicitLayerReport(root), ImplicitLayer.Evaluate(root, env, now));
    forall k | 0 <= k < |roots| + 1
      ensures ShowsAt(shown + [entry], roots + [root], k, env, now)
    {
      if k < |roots| {
        assert ShowsAt(shown, roots, k, env, now);
      }
    }
  }

  /** The override folders the loaded implicit roots name, in order. */
  function OverridesOf(roots: seq<Value>): seq<string>
    decreases |roots|
  {
    if roots == [] then [] else ImplicitLayer.OverridePaths(roots[0]) + OverridesOf(roots[1..])
  }

  lemma {:induction false} OverridesOfAppend(a: seq<Value>, b: seq<Value>)
    ensures OverridesOf(a + b) == OverridesOf(a) + OverridesOf(b)
    decreases |a|
  {
    if a == [] {
      assert a + b == b;
    } else {
      assert (a + b)[1..] == a[1..] + b;
      OverridesOfAppend(a[1..], b);
    }
  }

  /** The override folders are exactly the `override_paths` entries of the loaded implicit roots. */
  lemma {:induction false} OverridesComeFromRoots(roots: seq<Value>, folder: string)
    ensures folder in OverridesOf(roots) <==>
      exists k :: 0 <= k < |roots| && folder in ImplicitLayer.OverridePaths(roots[k])
    decreases |roots|
  {
    if roots != [] {
      OverridesComeFromRoots(roots[1..], folder);
      if exists k :: 0 <= k < |roots| && folder in ImplicitLayer.OverridePaths(roots[k]) {
        var k :| 0 <= k < |roots| && folder in ImplicitLayer.OverridePaths(roots[k]);
        if k > 0 {
          assert roots[1..][k - 1] == roots[k];
        }
      }
      if folder in OverridesOf(roots[1..]) {
        var k :| 0 <= k < |roots[1..]| && folder in ImplicitLayer.OverridePaths(roots[1..][k]);
        assert roots[1..][k] == roots[k + 1];
      }
    }
  }

  /** Recording one more root's override folders extends the record by exactly those. */
  lemma {:induction false} OverridesOfSnoc(before: seq<string>, seen: seq<Value>, root: Value)
    ensures (before + OverridesOf(seen)) + ImplicitLayer.OverridePaths(root) == before + OverridesOf(seen + [root])
  {
    assert [root][1..] == [];
    assert OverridesOf([root]) == ImplicitLayer.OverridePaths(root) + [];
    OverridesOfAppend(seen, [root]);
  }

  /**
   * One directory entry of an implicit folder: an entry named like a manifest
   * is loaded; a failure sets the result, a manifest that loads is shown and
   * its override folders are appended. `seen` are the roots shown so far and
   * `before` the override folders recorded before them.
   */
  method VisitImplicitEntry(fs: FileSystem, folder: string, name: string, env: Env, now: ImplicitLayer.Stamp, res: ErrorResult,
                            shown: seq<ImplicitShown>, ghost seen: seq<Value>, ghost before: seq<string>,
                            overridePaths: ImplicitLayer.PathList)
    returns (res': ErrorResult, shown': seq<ImplicitShown>, ghost seen': seq<Value>)
    requires ShownFor(shown, seen, env, now) && overridePaths.paths == before + OverridesOf(seen)
    modifies overridePaths
    ensures res' == EntryResult(fs, folder, name, res)
    ensures seen' == seen + EntryRoots(fs, folder, name)
    ensures ShownFor(shown', seen', env, now) && overridePaths.paths == before + OverridesOf(seen')
  {
    res', shown', seen' := res, shown, seen;
    if !IsManifestName(name) {
      assert seen' + [] == seen';
      return;
    }
    var path := EntryPath(folder, name);
    match LoadManifest(fs, path) {
      case Unreadable =>
        res' := MissingLayerJson;
      case Unparsable =>
        res' := LayerJsonParsingError;
      case Loaded(root) =>
        var report, state := ImplicitLayer.PrintImplicitLayerJsonInfo(root, env, now, overridePaths);
        ShownForExtend(shown, seen, root, env, now);
        shown', seen' := shown + [ImplicitShown(report, state)], seen + [root];
        OverridesOfSnoc(before, seen, root);
    }
  }

  /** The `readdir` loop over one implicit folder's entries, continuing from what earlier folders showed. */
  method ScanImplicitEntries(fs: FileSystem, folder: string, entries: seq<string>, env: Env, now: ImplicitLayer.Stamp,
                             res: ErrorResult, shown: seq<ImplicitShown>, ghost seen: seq<Value>, ghost before: seq<string>,
                             overridePaths: ImplicitLayer.PathList)
    returns (res': ErrorResult, shown': seq<ImplicitShown>, ghost seen': seq<Value>)
    requires ShownFor(shown, seen, env, now) && overridePaths.paths == before + OverridesOf(seen)
    modifies overridePaths
    ensures res' == FoldFailures(fs, ManifestPaths(folder, entries), res)
    ensures seen' == seen + LoadedRoots(fs, ManifestPaths(folder, entries))
    ensures ShownFor(shown', seen', env, now) && overridePaths.paths == before + OverridesOf(seen')
  {
    res', shown', seen' := res, shown, seen;
    ghost var all := ManifestPaths(folder, entries);
    var i := 0;
    while i < |entries|
      invariant i <= |entries|
      invariant FoldFailures(fs, ManifestPaths(folder, entries[i..]), res') == FoldFailures(fs, all, res)
      invariant seen' + LoadedRoots(fs, ManifestPaths(folder, entries[i..])) == seen + LoadedRoots(fs, all)
      invariant ShownFor(shown', seen', env, now) && overridePaths.paths == before + OverridesOf(seen')
    {
      EntryStep(fs, folder, entries, i, res', seen', seen + LoadedRoots(fs, all));
      res', shown', seen' := VisitImplicitEntry(fs, folder, entries[i], env, now, res', shown', seen', before, overridePaths);
      i := i + 1;
    }
    assert entries[i..] == [];
    assert seen' + [] == seen';
  }

  /** One implicit folder: its manifests, or none when it cannot be opened. */
  method ScanImplicitFolder(fs: FileSystem, folder: string, env: Env, now: ImplicitLayer.Stamp, res: ErrorResult,
                            shown: seq<ImplicitShown>, ghost seen: seq<Value>, ghost before: seq<string>,
                            overridePaths: ImplicitLayer.PathList)
    returns (res': ErrorResult, shown': seq<ImplicitShown>, ghost seen': seq<Value>)
    requires ShownFor(shown, seen, env, now) && overridePaths.paths == before + OverridesOf(seen)
    modifies overridePaths
    ensures res' == FoldFailures(fs, FolderManifests(fs, folder), res)
    ensures seen' == seen + LoadedRoots(fs, FolderManifests(fs, folder))
    ensures ShownFor(shown', seen', env, now) && overridePaths.paths == before + OverridesOf(seen')
  {
    match ListDirectory(fs, folder) {
      case None =>
        res', shown', seen' := res, shown, seen;
        assert seen + [] == seen;
      case Some(entries) =>
        res', shown', seen' := ScanImplicitEntries(fs, folder, entries, env, now, res, shown, seen, before, overridePaths);
    }
  }

  /** One step of a loop over folders, for the result and for the roots collected so far. */
  lemma {:induction false} FolderStep(fs: FileSystem, folders: seq<string>, d: nat, res: ErrorResult, seen: seq<Value>, whole: seq<Value>)
    requires d < |folders|
    requires seen + LoadedRoots(fs, ManifestsIn(fs, folders[d..])) == whole
    ensures FoldFailures(fs, ManifestsIn(fs, folders[d..]), res) ==
      FoldFailures(fs, ManifestsIn(fs, folders[d + 1..]), FoldFailures(fs, FolderManifests(fs, folders[d]), res))
    ensures (seen + LoadedRoots(fs, FolderManifests(fs, folders[d]))) + LoadedRoots(fs, ManifestsIn(fs, folders[d + 1..])) == whole
  {
    var here := FolderManifests(fs, folders[d]);
    var later := ManifestsIn(fs, folders[d + 1..]);
    assert folders[d..][1..] == folders[d + 1..];
    assert ManifestsIn(fs, folders[d..]) == here + later;
    FoldFailuresAppend(fs, here, later, res);
    LoadedRootsAppend(fs, here, later);
    ShiftFront(seen, LoadedRoots(fs, here), LoadedRoots(fs, later), whole);
  }

  /** The implicit folders, searched in order. */
  method ScanImplicitFolders(fs: FileSystem, folders: seq<string>, env: Env, now: ImplicitLayer.Stamp,
                             overridePaths: ImplicitLayer.PathList)
    returns (res: ErrorResult, shown: seq<ImplicitShown>)
    modifies overridePaths
    ensures res == FoldFailures(fs, ManifestsIn(fs, folders), Successful)
    ensures var roots := LoadedRoots(fs, ManifestsIn(fs, folders));
      ShownFor(shown, roots, env, now) && overridePaths.paths == old(overridePaths.paths) + OverridesOf(roots)
  {
    ghost var all := ManifestsIn(fs, folders);
    ghost var before := overridePaths.paths;
    ghost var seen: seq<Value> := [];
    res, shown := Successful, [];
    var d := 0;
    while d < |folders|
      invariant d <= |folders|
      invariant FoldFailures(fs, ManifestsIn(fs, folders[d..]), res) == FoldFailures(fs, all, Successful)
      invariant seen + LoadedRoots(fs, ManifestsIn(fs, folders[d..])) == LoadedRoots(fs, all)
      invariant ShownFor(shown, seen, env, now) && overridePaths.paths == before + OverridesOf(seen)
    {
      FolderStep(fs, folders, d, res, seen, LoadedRoots(fs, all));
      res, shown, seen := ScanImplicitFolder(fs, folders[d], env, now, res, shown, seen, before, overridePaths);
      d := d + 1;
    }
    assert folders[d..] == [];
    assert seen + [] == seen;
  }

  // ---------------------------------------------------------------------
  // The explicit layer folders
  // ---------------------------------------------------------------------

  /** The variable listing extra explicit layer folders. */
  const LayerPathVariable: string := "VK_LAYER_PATH"

  /** The folders `VK_LAYER_PATH` names, none when it is unset. */
  function LayerPathFolders(env: Env): seq<string> {
    match Getenv(env, LayerPathVariable)
    case None => []
    case Some(value) => PathVariableFolders(value)
  }

  /** The environment once `strtok` has run over `VK_LAYER_PATH`. */
  function AfterLayerPath(env: Env): Env {
    match Getenv(env, LayerPathVariable)
    case None => env
    case Some(value) => AfterStrtok(env, LayerPathVariable, value)
  }

  /** Running `strtok` over `VK_LAYER_PATH` leaves `HOME` as it was. */
  lemma {:induction false} HomeKept(env: Env)
    ensures forall suffix :: HomeFolder(AfterLayerPath(env), suffix) == HomeFolder(env, suffix)
  {
    var home, layerPath := HomeVariable, LayerPathVariable;
    assert NoNul(home) && NoNul(layerPath);
    assert home != layerPath by { assert |home| != |layerPath|; }
    if Getenv(env, layerPath).Some? {
      OtherVariablesKept(env, layerPath, Getenv(env, layerPath).value, home);
    }
  }

  /** The standard explicit folders are the same before and after `strtok` runs over `VK_LAYER_PATH`. */
  lemma {:induction false} ExplicitFoldersKept(env: Env)
    ensures ExplicitLayerFolders(AfterLayerPath(env)) == ExplicitLayerFolders(env)
    ensures var folders := ExplicitLayerFolders(env);
      folders != [] && folders[|folders| - 1] == HomeFolder(env, "/.local/share/vulkan/explicit_layer.d")
  {
    HomeKept(env);
  }

  /**
   * Search each folder of `folders` in turn: the result is that of the last
   * one searched, and every manifest that loads is reported, folder by folder.
   */
  method SearchFolders(fs: FileSystem, folders: seq<string>, res: ErrorResult)
    returns (res': ErrorResult, reports: seq<LayerReport>)
    ensures res' == if folders == [] then res else FolderResult(fs, folders[|folders| - 1])
    ensures Reported(reports, LoadedRoots(fs, ManifestsIn(fs, folders)))
  {
    res', reports := res, [];
    var k := 0;
    while k < |folders|
      invariant k <= |folders|
      invariant res' == if k == 0 then res else FolderResult(fs, folders[k - 1])
      invariant Reported(reports, LoadedRoots(fs, ManifestsIn(fs, folders[..k])))
    {
      var folderReports;
      res', folderReports := PrintExplicitLayersInFolder(fs, folders[k]);
      ReportedAppend(reports, LoadedRoots(fs, ManifestsIn(fs, folders[..k])),
                     folderReports, LoadedRoots(fs, FolderManifests(fs, folders[k])));
      ManifestsInSnoc(fs, folders, k);
      LoadedRootsAppend(fs, ManifestsIn(fs, folders[..k]), FolderManifests(fs, folders[k]));
      reports := reports + folderReports;
      k := k + 1;
    }
    assert folders[..k] == folders;
  }

  /**
   * The `VK_LAYER_PATH` part of the explicit section: the folders its
   * `strtok` loop visits (its tokens, or its whole value when it has none),
   * and the environment that loop leaves behind.
   */
  method ReadLayerPath(env: Env) returns (folders: seq<string>, env': Env)
    ensures folders == LayerPathFolders(env)
    ensures env' == AfterLayerPath(env)
  {
    folders, env' := [], env;
    var layerPath := Getenv(env, LayerPathVariable);
    if layerPath.Some? {
      var value := layerPath.value;
      var tokens := Tokens(value, ':');
      if tokens != [] {
        folders := tokens;
      } else {
        folders := [value];
      }
      env' := AfterStrtok(env, LayerPathVariable, value);
    }
  }

  /**
   * The explicit section: the override folders, then the `VK_LAYER_PATH`
   * folders, then the five standard folders, with the report of every
   * manifest found in them that loads.
   */
  method ScanExplicitLayers(fs: FileSystem, env: Env, overrides: seq<string>, res: ErrorResult)
    returns (res': ErrorResult, searched: seq<string>, reports: seq<LayerReport>, env': Env)
    ensures searched == overrides + LayerPathFolders(env) + ExplicitLayerFolders(env)
    ensures res' == FolderResult(fs, HomeFolder(env, "/.local/share/vulkan/explicit_layer.d"))
    ensures Reported(reports, LoadedRoots(fs, ManifestsIn(fs, searched)))
    ensures env' == AfterLayerPath(env)
  {
    res' := res;
    var overrideReports := [];
    if |overrides| != 0 {
      res', overrideReports := SearchFolders(fs, overrides, res');
    }
    var layerPathFolders, layerPathReports;
    layerPathFolders, env' := ReadLayerPath(env);
    res', layerPathReports := SearchFolders(fs, layerPathFolders, res');
    ExplicitFoldersKept(env);
    var standard := ExplicitLayerFolders(env');
    var standardReports;
    res', standardReports := SearchFolders(fs, standard, res');
    searched := overrides + layerPathFolders + standard;
    reports := overrideReports + layerPathReports + standardReports;
    ExplicitReportsJoin(fs, overrides, layerPathFolders, standard, overrideReports, layerPathReports, standardReports);
  }

  /** The reports of three searches in a row report the manifests of all their folders, in order. */
  lemma {:induction false} ExplicitReportsJoin(fs: FileSystem, a: seq<string>, b: seq<string>, c: seq<string>,
                                               ra: seq<LayerReport>, rb: seq<LayerReport>, rc: seq<LayerReport>)
    requires Reported(ra, LoadedRoots(fs, ManifestsIn(fs, a)))
    requires Reported(rb, LoadedRoots(fs, ManifestsIn(fs, b)))
    requires Reported(rc, LoadedRoots(fs, ManifestsIn(fs, c)))
    ensures Reported(ra + rb + rc, LoadedRoots(fs, ManifestsIn(fs, a + b + c)))
  {
    ManifestsInAppend(fs, a, b);
    ManifestsInAppend(fs, a + b, c);
    LoadedRootsAppend(fs, ManifestsIn(fs, a), ManifestsIn(fs, b));
    LoadedRootsAppend(fs, ManifestsIn(fs, a + b), ManifestsIn(fs, c));
    ReportedAppend(ra, LoadedRoots(fs, ManifestsIn(fs, a)), rb, LoadedRoots(fs, ManifestsIn(fs, b)));
    ReportedAppend(ra + rb, LoadedRoots(fs, ManifestsIn(fs, a + b)), rc, LoadedRoots(fs, ManifestsIn(fs, c)));
  }

  /**
   * `PrintLayerInfo`: what the implicit layers show, the override folders
   * they name, the explicit folders searched in order and the reports of
   * their manifests, the survey's result and the environment as `strtok`
   * leaves it.
   */
  method PrintLayerInfo(fs: FileSystem, env: Env, now: ImplicitLayer.Stamp)
    returns (res: ErrorResult, implicitLayers: seq<ImplicitShown>, overrides: seq<string>,
             searched: seq<string>, explicitLayers: seq<LayerReport>, env': Env)
    ensures var roots := LoadedRoots(fs, ManifestsIn(fs, ImplicitLayerFolders(env)));
      ShownFor(implicitLayers, roots, env, now) && overrides == OverridesOf(roots)
    ensures searched == overrides + LayerPathFolders(env) + ExplicitLayerFolders(env)
    ensures Reported(explicitLayers, LoadedRoots(fs, ManifestsIn(fs, searched)))
    ensures res == FolderResult(fs, HomeFolder(env, "/.local/share/vulkan/explicit_layer.d"))
    ensures env' == AfterLayerPath(env)
  {
    var overridePaths := new ImplicitLayer.PathList();
    res, implicitLayers := ScanImplicitFolders(fs, ImplicitLayerFolders(env), env, now, overridePaths);
    overrides := overridePaths.paths;
    res, searched, explicitLayers, env' := ScanExplicitLayers(fs, env, overrides, res);
  }
}
