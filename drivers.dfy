/**
 * Driver discovery on Linux: the folders searched for driver (ICD) manifests,
 * what reading one manifest establishes about its driver library, the search
 * of the system library folders and `LD_LIBRARY_PATH` for a library named
 * without a path, and the verdict the driver section reports.
 *
 * `strtok` keeps one cursor for the whole process. The search of
 * `LD_LIBRARY_PATH` runs `strtok` to the end, so a manifest read from inside
 * the `VK_ICD_FILENAMES` loop that needs that search ends the loop; and the
 * variable itself keeps only its first folder afterwards. Both effects are
 * part of the model: the cursor is passed in and out of the methods, and the
 * environment is a value they return.
 */
module Drivers {
  import opened Wrappers
  import opened CText
  import opened Json
  import opened Platform
  import LibraryPath

  const LibraryPathVariable: string := "LD_LIBRARY_PATH"
  const DriversPathVariable: string := "VK_DRIVERS_PATH"
  const IcdFilenamesVariable: string := "VK_ICD_FILENAMES"

  /** The folders searched for driver manifests before the user's own. */
  const StandardDriverFolders: seq<string> :=
    ["/etc/vulkan/icd.d", "/usr/share/vulkan/icd.d", "/usr/local/etc/vulkan/icd.d", "/usr/local/share/vulkan/icd.d"]

  /** The per-user driver manifest folder, below `$HOME`. */
  const HomeDriverSuffix: string := "/.local/share/vulkan/icd.d"

  /**
   * The machine: its files, whether the program was built for a 64-bit
   * target (x86_64 or ppc64), and, for each library name, the first line the
   * `ldconfig -p | grep <name> | awk '{ print $4 }'` query prints (absent
   * when it prints nothing or the pipe cannot be opened).
   */
  datatype Host = Host(fs: FileSystem, is64: bool, ldconfig: map<string, string>)

  // ---------------------------------------------------------------------
  // Searching the system library folders

  /** The five fixed library folders, in the order they are tried. */
  function SystemFolders(is64: bool): (r: seq<string>)
    ensures |r| == 5
  {
    if is64 then ["/usr/lib", "/usr/lib/x86_64-linux-gnu", "/usr/lib64", "/usr/local/lib", "/usr/local/lib64"]
    else ["/usr/lib", "/usr/lib/i386-linux-gnu", "/usr/lib32", "/usr/local/lib", "/usr/local/lib32"]
  }

  /** The path `CheckDriver` probes: a '/' is added unless the folder already ends in one. */
  function JoinFolder(folder: string, name: string): string {
    if folder != [] && folder[|folder| - 1] == '/' then folder + name else folder + "/" + name
  }

  /** `CheckDriver`: the library may be in `folder` when that path is readable. */
  predicate CheckDriver(fs: FileSystem, folder: string, name: string) {
    JoinFolder(folder, name) in fs.readable
  }

  /** The location reported for a hit, always with a '/' between folder and name. */
  function HitLocation(folder: string, name: string): string {
    folder + "/" + name
  }

  /**
   * Trying every folder in turn, starting from the flag and location so far:
   * each hit sets the flag and replaces the location.
   */
  function TryFolders(fs: FileSystem, folders: seq<string>, name: string, found: bool, location: string): (bool, string)
    decreases |folders|
  {
    if folders == [] then (found, location)
    else if CheckDriver(fs, folders[0], name) then TryFolders(fs, folders[1..], name, true, HitLocation(folders[0], name))
    else TryFolders(fs, folders[1..], name, found, location)
  }

  /** The first folder that holds the library. */
  function FirstHit(fs: FileSystem, folders: seq<string>, name: string): (r: Option<string>)
    decreases |folders|
  {
    if folders == [] then None
    else if CheckDriver(fs, folders[0], name) then Some(folders[0])
    else FirstHit(fs, folders[1..], name)
  }

  /** Some folder holds the library. */
  predicate AnyHit(fs: FileSystem, folders: seq<string>, name: string)
    decreases |folders|
  {
    folders != [] && (CheckDriver(fs, folders[0], name) || AnyHit(fs, folders[1..], name))
  }

  predicate FirstHitAt(fs: FileSystem, folders: seq<string>, name: string, i: int) {
    0 <= i < |folders| && CheckDriver(fs, folders[i], name) &&
    forall j :: 0 <= j < i ==> !CheckDriver(fs, folders[j], name)
  }

  predicate LastHitAt(fs: FileSystem, folders: seq<string>, name: string, i: int) {
    0 <= i < |folders| && CheckDriver(fs, folders[i], name) &&
    forall j :: i < j < |folders| ==> !CheckDriver(fs, folders[j], name)
  }

  /** `AnyHit` holds exactly when some folder of the list holds the library. */
  lemma {:induction false} AnyHitMeaning(fs: FileSystem, folders: seq<string>, name: string)
    ensures AnyHit(fs, folders, name) <==> exists i :: 0 <= i < |folders| && CheckDriver(fs, folders[i], name)
    decreases |folders|
  {
    if folders != [] {
      var rest := folders[1..];
      AnyHitMeaning(fs, rest, name);
      if AnyHit(fs, rest, name) {
        var i :| 0 <= i < |rest| && CheckDriver(fs, rest[i], name);
        assert CheckDriver(fs, folders[i + 1], name);
      }
      if exists i :: 0 < i < |folders| && CheckDriver(fs, folders[i], name) {
        var i :| 0 < i < |folders| && CheckDriver(fs, folders[i], name);
        assert CheckDriver(fs, rest[i - 1], name);
      }
    }
  }

  /** `FirstHit` finds nothing exactly when no folder holds the library, and otherwise the earliest one. */
  lemma {:induction false} FirstHitMeaning(fs: FileSystem, folders: seq<string>, name: string)
    ensures FirstHit(fs, folders, name).None? <==> !AnyHit(fs, folders, name)
    ensures forall i :: FirstHitAt(fs, folders, name, i) ==> FirstHit(fs, folders, name) == Some(folders[i])
    decreases |folders|
  {
    if folders != [] {
      var rest := folders[1..];
      FirstHitMeaning(fs, rest, name);
      if !CheckDriver(fs, folders[0], name) {
        forall i | FirstHitAt(fs, folders, name, i)
          ensures FirstHit(fs, folders, name) == Some(folders[i])
        {
          assert FirstHitAt(fs, rest, name, i - 1);
        }
      }
    }
  }

  /** No folder after `i` holds the library. */
  lemma {:induction false} NoLaterHit(fs: FileSystem, folders: seq<string>, name: string, i: nat)
    requires i < |folders|
    requires forall j :: i < j < |folders| ==> !CheckDriver(fs, folders[j], name)
    ensures !AnyHit(fs, folders[i + 1..], name)
  {
    AnyHitMeaning(fs, folders[i + 1..], name);
  }

  /**
   * Trying the folders sets the flag exactly when it was set or some folder
   * holds the library; with no hit nothing changes, and otherwise the last
   * hit decides the location.
   */
  lemma {:induction false} TryFoldersMeaning(fs: FileSystem, folders: seq<string>, name: string, found: bool, location: string)
    ensures TryFolders(fs, folders, name, found, location).0 <==> found || AnyHit(fs, folders, name)
    ensures !AnyHit(fs, folders, name) ==> TryFolders(fs, folders, name, found, location) == (found, location)
    ensures forall i :: LastHitAt(fs, folders, name, i) ==>
      TryFolders(fs, folders, name, found, location) == (true, HitLocation(folders[i], name))
    decreases |folders|
  {
    if folders != [] {
      var rest := folders[1..];
      var here := CheckDriver(fs, folders[0], name);
      var f, l := if here then true else found, if here then HitLocation(folders[0], name) else location;
      TryFoldersMeaning(fs, rest, name, f, l);
      forall i | LastHitAt(fs, folders, name, i)
        ensures TryFolders(fs, folders, name, found, location) == (true, HitLocation(folders[i], name))
      {
        if i == 0 {
          NoLaterHit(fs, folders, name, 0);
        } else {
          assert LastHitAt(fs, rest, name, i - 1);
        }
      }
    }
  }

  /** What `FindLinuxSystemObject` leaves behind. */
  datatype Search = Search(found: bool, location: string, env: Env, scanned: bool)

  /**
   * `FindLinuxSystemObject(name, location, CheckDriver, breakOnFirst)`.
   * With `breakOnFirst` the first fixed folder holding the library ends the
   * search. Otherwise every fixed folder is tried, and then, when
   * `LD_LIBRARY_PATH` is set, every folder it names (`scanned`), which
   * leaves `strtok`'s mark on the variable.
   */
  function SearchSystem(host: Host, name: string, location: string, breakOnFirst: bool, env: Env): Search {
    var fixed := SystemFolders(host.is64);
    var first := FirstHit(host.fs, fixed, name);
    if breakOnFirst && first.Some? then Search(true, HitLocation(first.value, name), env, false)
    else
      var afterFixed := TryFolders(host.fs, fixed, name, false, location);
      match Getenv(env, LibraryPathVariable)
      case None => Search(afterFixed.0, afterFixed.1, env, false)
      case Some(value) =>
        var afterPath := TryFolders(host.fs, Tokens(value, ':'), name, afterFixed.0, afterFixed.1);
        Search(afterPath.0, afterPath.1, AfterStrtok(env, LibraryPathVariable, value), true)
  }

  /** One step of trying folders: the folder at the front is tried before the rest. */
  lemma {:induction false} TryFirst(fs: FileSystem, folder: string, rest: seq<string>, name: string, found: bool, location: string)
    ensures TryFolders(fs, [folder] + rest, name, found, location) ==
      if CheckDriver(fs, folder, name) then TryFolders(fs, rest, name, true, HitLocation(folder, name))
      else TryFolders(fs, rest, name, found, location)
    ensures FirstHit(fs, [folder] + rest, name) ==
      if CheckDriver(fs, folder, name) then Some(folder) else FirstHit(fs, rest, name)
  {
    assert ([folder] + rest)[0] == folder;
    assert ([folder] + rest)[1..] == rest;
  }

  /**
   * The library is found exactly when a fixed folder or a folder named by
   * `LD_LIBRARY_PATH` holds it, whether or not the search stops at the first hit.
   */
  lemma {:induction false} SearchFound(host: Host, name: string, location: string, breakOnFirst: bool, env: Env)
    ensures var s := SearchSystem(host, name, location, breakOnFirst, env);
      var value := Getenv(env, LibraryPathVariable);
      s.found <==>
        || AnyHit(host.fs, SystemFolders(host.is64), name)
        || (value.Some? && AnyHit(host.fs, Tokens(value.value, ':'), name))
  {
    var fixed := SystemFolders(host.is64);
    if breakOnFirst && FirstHit(host.fs, fixed, name).Some? {
      FirstHitMeaning(host.fs, fixed, name);
    } else {
      TryFoldersMeaning(host.fs, fixed, name, false, location);
      var afterFixed := TryFolders(host.fs, fixed, name, false, location);
      match Getenv(env, LibraryPathVariable)
      case None =>
      case Some(value) =>
        TryFoldersMeaning(host.fs, Tokens(value, ':'), name, afterFixed.0, afterFixed.1);
    }
  }

  /**
   * Stopping at the first hit only matters when a fixed folder holds the
   * library: then the earliest such folder is reported and `LD_LIBRARY_PATH`
   * is left alone; with no fixed hit both searches are the same.
   */
  lemma {:induction false} BreakOnFirst(host: Host, name: string, location: string, env: Env)
    ensures var fixed := SystemFolders(host.is64);
      forall i :: FirstHitAt(host.fs, fixed, name, i) ==>
        SearchSystem(host, name, location, true, env) == Search(true, HitLocation(fixed[i], name), env, false)
    ensures !AnyHit(host.fs, SystemFolders(host.is64), name) ==>
      SearchSystem(host, name, location, true, env) == SearchSystem(host, name, location, false, env)
  {
    FirstHitMeaning(host.fs, SystemFolders(host.is64), name);
  }

  /**
   * The search runs `strtok` over `LD_LIBRARY_PATH` exactly when the variable
   * is set and the search did not stop at a fixed folder. Only then does the
   * environment change, and only that variable, which afterwards names at
   * most the first of its folders.
   */
  lemma {:induction false} SearchEnvironment(host: Host, name: string, location: string, breakOnFirst: bool, env: Env)
    ensures var s := SearchSystem(host, name, location, breakOnFirst, env);
      s.scanned <==> (Getenv(env, LibraryPathVariable).Some? &&
        (!breakOnFirst || !AnyHit(host.fs, SystemFolders(host.is64), name)))
    ensures var s := SearchSystem(host, name, location, breakOnFirst, env);
      !s.scanned ==> s.env == env
    ensures var s := SearchSystem(host, name, location, breakOnFirst, env);
      forall other :: CStr(other) != CStr(LibraryPathVariable) ==> Getenv(s.env, other) == Getenv(env, other)
    ensures var s := SearchSystem(host, name, location, breakOnFirst, env);
      var value := Getenv(env, LibraryPathVariable);
      s.scanned ==> (Tokens(Getenv(s.env, LibraryPathVariable).value, ':') ==
        Tokens(value.value, ':')[..if Tokens(value.value, ':') == [] then 0 else 1])
  {
    FirstHitMeaning(host.fs, SystemFolders(host.is64), name);
    var s := SearchSystem(host, name, location, breakOnFirst, env);
    if s.scanned {
      var value := Getenv(env, LibraryPathVariable).value;
      StrtokLeavesResidue(env, LibraryPathVariable, value);
      forall other | CStr(other) != CStr(LibraryPathVariable)
        ensures Getenv(s.env, other) == Getenv(env, other)
      {
        OtherVariablesKept(env, LibraryPathVariable, value, other);
      }
    }
  }

  /**
   * The loop over the fixed folders of `FindLinuxSystemObject`; `stopped`
   * when `breakOnFirst` ends the search at a hit.
   */
  method TryFixedFolders(fs: FileSystem, folders: seq<string>, objectName: string, location: string, breakOnFirst: bool)
    returns (foundOne: bool, at: string, stopped: bool)
    ensures stopped <==> breakOnFirst && FirstHit(fs, folders, objectName).Some?
    ensures stopped ==> foundOne && at == HitLocation(FirstHit(fs, folders, objectName).value, objectName)
    ensures !stopped ==> (foundOne, at) == TryFolders(fs, folders, objectName, false, location)
  {
    foundOne, at, stopped := false, location, false;
    for iii := 0 to |folders|
      invariant TryFolders(fs, folders[iii..], objectName, foundOne, at) == TryFolders(fs, folders, objectName, false, location)
      invariant breakOnFirst ==> FirstHit(fs, folders[iii..], objectName) == FirstHit(fs, folders, objectName)
    {
      assert folders[iii..] == [folders[iii]] + folders[iii + 1..];
      TryFirst(fs, folders[iii], folders[iii + 1..], objectName, foundOne, at);
      if CheckDriver(fs, folders[iii], objectName) {
        at := HitLocation(folders[iii], objectName);
        foundOne := true;
        if breakOnFirst {
          stopped := true;
          return;
        }
      }
    }
    assert folders[|folders|..] == [];
  }

  /**
   * The `strtok` loop over the value of `LD_LIBRARY_PATH`: every folder it
   * names is tried, continuing from the flag and location so far.
   */
  method TryPathFolders(fs: FileSystem, value: string, objectName: string, found: bool, location: string)
    returns (foundOne: bool, at: string)
    ensures (foundOne, at) == TryFolders(fs, Tokens(value, ':'), objectName, found, location)
  {
    foundOne, at := found, location;
    var next := StrtokNext(value, ':');
    var tok, cursor := next.0, next.1;
    StrtokNextTokens(value, ':');
    while tok.Some?
      invariant tok.None? ==> cursor == []
      invariant tok.Some? ==> tok.value != []
      invariant TryFolders(fs, PendingTokens(tok, cursor, ':'), objectName, foundOne, at) ==
        TryFolders(fs, Tokens(value, ':'), objectName, found, location)
      decreases |cursor| + (if tok.Some? then 1 else 0)
    {
      var folder := tok.value;
      TryFirst(fs, folder, Tokens(cursor, ':'), objectName, foundOne, at);
      if |folder| > 0 && CheckDriver(fs, folder, objectName) {
        at := HitLocation(folder, objectName);
        foundOne := true;
      }
      StrtokNextTokens(cursor, ':');
      next := StrtokNext(cursor, ':');
      tok, cursor := next.0, next.1;
    }
  }

  /**
   * `FindLinuxSystemObject`. `cursor` is the text `strtok(NULL, ":")` would
   * continue from; a search of `LD_LIBRARY_PATH` runs it to the end.
   */
  method FindLinuxSystemObject(host: Host, objectName: string, location: string, breakOnFirst: bool, env: Env, cursor: string)
    returns (foundOne: bool, at: string, envAfter: Env, cursorAfter: string)
    ensures var s := SearchSystem(host, objectName, location, breakOnFirst, env);
      foundOne == s.found && at == s.location && envAfter == s.env &&
      cursorAfter == (if s.scanned then [] else cursor)
  {
    envAfter, cursorAfter := env, cursor;
    var envValue := Getenv(env, LibraryPathVariable);
    var stopped;
    foundOne, at, stopped := TryFixedFolders(host.fs, SystemFolders(host.is64), objectName, location, breakOnFirst);
    if !stopped && envValue.Some? {
      var value := envValue.value;
      foundOne, at := TryPathFolders(host.fs, value, objectName, foundOne, at);
      envAfter := AfterStrtok(env, LibraryPathVariable, value);
      cursorAfter := [];
    }
  }

  // ---------------------------------------------------------------------
  // Reading one driver manifest

  /** Where the driver's library turned up, if anywhere. */
  datatype LibraryOutcome =
    | AtGeneratedPath(path: string)
      /** Found by searching the library folders for a bare name. */
    | InSystemFolder(location: string)
      /** The `ldconfig` query printed this line. */
    | ListedByLdconfig(line: string)
      /** Not found here, and the `ldconfig` query is skipped because the flag was already set. */
    | AlreadyFound
    | NotFound
  {
    predicate Locates() {
      AtGeneratedPath? || InSystemFolder? || ListedByLdconfig?
    }
  }

  datatype Lookup = Lookup(outcome: LibraryOutcome, env: Env, scanned: bool)

  /**
   * The library lookup for a manifest at `manifest` whose `library_path` is
   * `driverName`, with `foundLib` the caller's flag. The generated path is
   * tried first; a name without '/' is then searched for; and only while the
   * flag is clear is `ldconfig` asked.
   */
  function LibraryLookup(host: Host, manifest: string, driverName: string, foundLib: bool, env: Env): Lookup {
    var full := LibraryPath.Resolve(manifest, driverName);
    if full in host.fs.readable then Lookup(AtGeneratedPath(full), env, false)
    else
      var s := if '/' !in driverName then SearchSystem(host, driverName, "", true, env) else Search(false, "", env, false);
      if s.found then Lookup(InSystemFolder(s.location), s.env, s.scanned)
      else if foundLib then Lookup(AlreadyFound, s.env, s.scanned)
      else if driverName in host.ldconfig then Lookup(ListedByLdconfig(host.ldconfig[driverName]), s.env, s.scanned)
      else Lookup(NotFound, s.env, s.scanned)
  }

  /**
   * The flag coming in changes nothing but whether `ldconfig` is asked: the
   * same search happens, and a library only `ldconfig` lists is reported as
   * already found instead.
   */
  lemma {:induction false} EarlierLibrarySkipsLdconfig(host: Host, manifest: string, driverName: string, env: Env)
    ensures var clear := LibraryLookup(host, manifest, driverName, false, env);
      var flagged := LibraryLookup(host, manifest, driverName, true, env);
      && flagged.env == clear.env && flagged.scanned == clear.scanned
      && (clear.outcome.ListedByLdconfig? || clear.outcome.NotFound? <==> flagged.outcome.AlreadyFound?)
      && (!flagged.outcome.AlreadyFound? ==> flagged.outcome == clear.outcome)
      && !flagged.outcome.ListedByLdconfig? && !clear.outcome.AlreadyFound?
  {
  }

  /**
   * A readable generated path settles the lookup without a search; a name
   * containing '/' is never searched for; and only a search can touch the
   * environment.
   */
  lemma {:induction false} LookupSearchesOnlyBareNames(host: Host, manifest: string, driverName: string, foundLib: bool, env: Env)
    ensures var l := LibraryLookup(host, manifest, driverName, foundLib, env);
      LibraryPath.Resolve(manifest, driverName) in host.fs.readable ==>
        l == Lookup(AtGeneratedPath(LibraryPath.Resolve(manifest, driverName)), env, false)
    ensures var l := LibraryLookup(host, manifest, driverName, foundLib, env);
      '/' in driverName ==> l.env == env && !l.scanned && !l.outcome.InSystemFolder?
    ensures var l := LibraryLookup(host, manifest, driverName, foundLib, env);
      Getenv(env, LibraryPathVariable).None? ==> l.env == env && !l.scanned
  {
    if LibraryPath.Resolve(manifest, driverName) !in host.fs.readable && '/' !in driverName {
      SearchEnvironment(host, driverName, "", true, env);
    }
  }

  /** What `ReadDriverJson` leaves behind: its result, the flag, the environment and whether it searched. */
  datatype DriverRead = DriverRead(foundJson: bool, foundLib: bool, env: Env, scanned: bool)

  /** The manifest at `path` opens, parses and has an `ICD` section. */
  predicate HasIcdSection(fs: FileSystem, path: string) {
    var load := LoadManifest(fs, path);
    load.Loaded? && !Get(load.root, IcdKey).Null?
  }

  /** `ReadDriverJson(path, foundLib)`: the flag is only ever set, never cleared. */
  function ReadDriver(host: Host, path: string, foundLib: bool, env: Env): DriverRead {
    match LoadManifest(host.fs, path)
    case Unreadable => DriverRead(false, foundLib, env, false)
    case Unparsable => DriverRead(false, foundLib, env, false)
    case Loaded(root) =>
      var icd := Get(root, IcdKey);
      if icd.Null? then DriverRead(false, foundLib, env, false)
      else
        var library := Get(icd, LibraryPathKey);
        if library.Null? then DriverRead(true, foundLib, env, false)
        else
          var l := LibraryLookup(host, path, AsString(library), foundLib, env);
          DriverRead(true, foundLib || l.outcome.Locates(), l.env, l.scanned)
  }

  /**
   * The manifest counts exactly when it has an `ICD` section, whatever the
   * flag and the environment; the flag stays set once set; and a manifest
   * that does not count changes nothing.
   */
  lemma {:induction false} ReadDriverMeaning(host: Host, path: string, foundLib: bool, env: Env)
    ensures ReadDriver(host, path, foundLib, env).foundJson <==> HasIcdSection(host.fs, path)
    ensures foundLib ==> ReadDriver(host, path, foundLib, env).foundLib
    ensures !HasIcdSection(host.fs, path) ==> ReadDriver(host, path, foundLib, env) == DriverRead(false, foundLib, env, false)
    ensures Getenv(env, LibraryPathVariable).None? ==>
      ReadDriver(host, path, foundLib, env).env == env && !ReadDriver(host, path, foundLib, env).scanned
  {
    match LoadManifest(host.fs, path)
    case Unreadable =>
    case Unparsable =>
    case Loaded(root) =>
      var icd := Get(root, IcdKey);
      if !icd.Null? {
        var library := Get(icd, LibraryPathKey);
        if !library.Null? {
          LookupSearchesOnlyBareNames(host, path, AsString(library), foundLib, env);
        }
      }
  }

  /** The library lookup of `ReadDriverJson`, from `GenerateLibraryPath` to the `ldconfig` query. */
  method LookUpLibrary(host: Host, manifest: string, driverName: string, foundLib: bool, env: Env, cursor: string)
    returns (outcome: LibraryOutcome, foundLibAfter: bool, envAfter: Env, cursorAfter: string)
    ensures var l := LibraryLookup(host, manifest, driverName, foundLib, env);
      outcome == l.outcome && foundLibAfter == (foundLib || l.outcome.Locates()) &&
      envAfter == l.env && cursorAfter == (if l.scanned then [] else cursor)
  {
    outcome, foundLibAfter, envAfter, cursorAfter := NotFound, foundLib, env, cursor;
    var generated, full := LibraryPath.GenerateLibraryPath(Some(manifest), Some(driverName), true, "");
    var located := false;
    if generated {
      if full in host.fs.readable {
        located := true;
        outcome := AtGeneratedPath(full);
      } else if '/' !in driverName {
        var hit, location;
        hit, location, envAfter, cursorAfter := FindLinuxSystemObject(host, driverName, "", true, env, cursor);
        if hit {
          located := true;
          outcome := InSystemFolder(location);
        }
      }
    }
    if located {
      foundLibAfter := true;
    } else if foundLibAfter {
      outcome := AlreadyFound;
    } else if driverName in host.ldconfig {
      foundLibAfter := true;
      outcome := ListedByLdconfig(host.ldconfig[driverName]);
    }
  }

  /** `ReadDriverJson`, returning the flag it updates through its reference parameter. */
  method ReadDriverJson(host: Host, path: string, foundLib: bool, env: Env, cursor: string)
    returns (foundJson: bool, foundLibAfter: bool, envAfter: Env, cursorAfter: string)
    ensures var r := ReadDriver(host, path, foundLib, env);
      foundJson == r.foundJson && foundLibAfter == r.foundLib && envAfter == r.env &&
      cursorAfter == (if r.scanned then [] else cursor)
  {
    foundJson, foundLibAfter, envAfter, cursorAfter := false, foundLib, env, cursor;
    var load := LoadManifest(host.fs, path);
    if !load.Loaded? {
      return;
    }
    var icd := Get(load.root, IcdKey);
    if icd.Null? {
      return;
    }
    foundJson := true;
    var library := Get(icd, LibraryPathKey);
    if !library.Null? {
      var outcome;
      outcome, foundLibAfter, envAfter, cursorAfter := LookUpLibrary(host, path, AsString(library), foundLib, env, cursor);
    }
  }

  // ---------------------------------------------------------------------
  // The driver section

  /** `found_json`, `found_lib`, `found_this_lib` and the environment, as the section goes along. */
  datatype State = State(foundJson: bool, foundLib: bool, foundThisLib: bool, env: Env)

  /** Reading one manifest: its result sets `found_json` and merges `found_this_lib` into `found_lib`. */
  function Visit(host: Host, path: string, st: State): State {
    var r := ReadDriver(host, path, st.foundThisLib, st.env);
    State(st.foundJson || r.foundJson, if r.foundJson then st.foundLib || r.foundLib else st.foundLib, r.foundLib, r.env)
  }

  /** Whether reading the manifest searches `LD_LIBRARY_PATH`. */
  predicate Scans(host: Host, path: string, st: State) {
    ReadDriver(host, path, st.foundThisLib, st.env).scanned
  }

  function VisitAll(host: Host, paths: seq<string>, st: State): State
    decreases |paths|
  {
    if paths == [] then st else VisitAll(host, paths[1..], Visit(host, paths[0], st))
  }

  /** The manifests of every folder, folder by folder. */
  function ReadFolders(host: Host, folders: seq<string>, st: State): State
    decreases |folders|
  {
    if folders == [] then st else ReadFolders(host, folders[1..], VisitAll(host, FolderManifests(host.fs, folders[0]), st))
  }

  /** A file named by `VK_ICD_FILENAMES` is read when it is readable. */
  function IcdFile(host: Host, file: string, st: State): State {
    if file in host.fs.readable then Visit(host, file, st) else st
  }

  predicate IcdScans(host: Host, file: string, st: State) {
    file in host.fs.readable && Scans(host, file, st)
  }

  /** The `VK_ICD_FILENAMES` loop: a read that searches `LD_LIBRARY_PATH` exhausts `strtok` and ends it. */
  function IcdFiles(host: Host, files: seq<string>, st: State): State
    decreases |files|
  {
    if files == [] then st
    else if IcdScans(host, files[0], st) then IcdFile(host, files[0], st)
    else IcdFiles(host, files[1..], IcdFile(host, files[0], st))
  }

  /** The files `VK_ICD_FILENAMES` names: its tokens, or its whole value when it has none. */
  function IcdPhase(host: Host, st: State): State {
    match Getenv(st.env, IcdFilenamesVariable)
    case None => st
    case Some(value) =>
      var start := st.(env := AfterStrtok(st.env, IcdFilenamesVariable, value));
      if Tokens(value, ':') == [] then IcdFile(host, value, start) else IcdFiles(host, Tokens(value, ':'), start)
  }

  /** The folders searched for manifests: the standard ones, the user's, then those `VK_DRIVERS_PATH` names. */
  function DriverFolders(env: Env): seq<string> {
    StandardDriverFolders + [HomeFolder(env, HomeDriverSuffix)] + DriversPathFolders(env)
  }

  /** The folders `VK_DRIVERS_PATH` names, none when it is unset. */
  function DriversPathFolders(env: Env): seq<string> {
    match Getenv(env, DriversPathVariable)
    case None => []
    case Some(value) => PathVariableFolders(value)
  }

  function AfterDriversPath(env: Env): Env {
    match Getenv(env, DriversPathVariable)
    case None => env
    case Some(value) => AfterStrtok(env, DriversPathVariable, value)
  }

  /** The whole section: every folder's manifests, then the files `VK_ICD_FILENAMES` names. */
  function DriverSearch(host: Host, env: Env): State {
    IcdPhase(host, ReadFolders(host, DriverFolders(env), State(false, false, false, AfterDriversPath(env))))
  }

  /** The section's result: no manifest with an `ICD` section, else no library found, else success. */
  function Verdict(st: State): (r: ErrorResult)
    ensures r == Successful <==> st.foundJson && st.foundLib
    ensures r == MissingDriverJson <==> !st.foundJson
    ensures r.Code() == -23 <==> st.foundJson && !st.foundLib
  {
    if !st.foundJson then MissingDriverJson else if !st.foundLib then MissingDriverLib else Successful
  }

  /**
   * `VK_DRIVERS_PATH` adds folders exactly when it is set; they are free of
   * ':' unless the value is taken whole.
   */
  lemma {:induction false} DriversPathFoldersShape(env: Env)
    ensures DriversPathFolders(env) == [] <==> Getenv(env, DriversPathVariable).None?
    ensures Getenv(env, DriversPathVariable).Some? ==>
      var value := Getenv(env, DriversPathVariable).value;
      DriversPathFolders(env) == [value] || forall f :: f in DriversPathFolders(env) ==> f != [] && ':' !in f
  {
    match Getenv(env, DriversPathVariable)
    case None =>
    case Some(value) =>
      PathVariableFoldersMeaning(value);
  }

  // ---------------------------------------------------------------------
  // What the folds keep

  /** `found_lib` always equals `found_this_lib`: the merge adds nothing, since the flag is never cleared. */
  predicate Mirrored(st: State) {
    st.foundLib == st.foundThisLib
  }

  lemma {:induction false} VisitMirrored(host: Host, path: string, st: State)
    requires Mirrored(st)
    ensures Mirrored(Visit(host, path, st))
    ensures Visit(host, path, st).foundJson <==> st.foundJson || HasIcdSection(host.fs, path)
  {
    ReadDriverMeaning(host, path, st.foundThisLib, st.env);
  }

  lemma {:induction false} VisitAllMirrored(host: Host, paths: seq<string>, st: State)
    requires Mirrored(st)
    ensures Mirrored(VisitAll(host, paths, st))
    decreases |paths|
  {
    if paths != [] {
      VisitMirrored(host, paths[0], st);
      VisitAllMirrored(host, paths[1..], Visit(host, paths[0], st));
    }
  }

  lemma {:induction false} ReadFoldersMirrored(host: Host, folders: seq<string>, st: State)
    requires Mirrored(st)
    ensures Mirrored(ReadFolders(host, folders, st))
    decreases |folders|
  {
    if folders != [] {
      VisitAllMirrored(host, FolderManifests(host.fs, folders[0]), st);
      ReadFoldersMirrored(host, folders[1..], VisitAll(host, FolderManifests(host.fs, folders[0]), st));
    }
  }

  lemma {:induction false} IcdFilesMirrored(host: Host, files: seq<string>, st: State)
    requires Mirrored(st)
    ensures Mirrored(IcdFiles(host, files, st))
    decreases |files|
  {
    if files != [] {
      if files[0] in host.fs.readable {
        VisitMirrored(host, files[0], st);
      }
      IcdFilesMirrored(host, files[1..], IcdFile(host, files[0], st));
    }
  }

  /**
   * At the end of the section `found_lib` equals `found_this_lib`, so the
   * verdict reports a missing library exactly when the last flag value is clear.
   */
  lemma {:induction false} DriverSearchMirrored(host: Host, env: Env)
    ensures Mirrored(DriverSearch(host, env))
  {
    var st0 := State(false, false, false, AfterDriversPath(env));
    var st1 := ReadFolders(host, DriverFolders(env), st0);
    ReadFoldersMirrored(host, DriverFolders(env), st0);
    match Getenv(st1.env, IcdFilenamesVariable)
    case None =>
    case Some(value) =>
      var start := st1.(env := AfterStrtok(st1.env, IcdFilenamesVariable, value));
      if Tokens(value, ':') == [] {
        if value in host.fs.readable {
          VisitMirrored(host, value, start);
        }
      } else {
        IcdFilesMirrored(host, Tokens(value, ':'), start);
      }
  }

  /** `found_json` ends up set exactly when it was set or some visited manifest has an `ICD` section. */
  lemma {:induction false} VisitAllFoundJson(host: Host, paths: seq<string>, st: State)
    ensures VisitAll(host, paths, st).foundJson <==>
      st.foundJson || exists i :: 0 <= i < |paths| && HasIcdSection(host.fs, paths[i])
    decreases |paths|
  {
    if paths != [] {
      var next := Visit(host, paths[0], st);
      ReadDriverMeaning(host, paths[0], st.foundThisLib, st.env);
      VisitAllFoundJson(host, paths[1..], next);
      if exists i :: 0 <= i < |paths| && HasIcdSection(host.fs, paths[i]) {
        var i :| 0 <= i < |paths| && HasIcdSection(host.fs, paths[i]);
        if i > 0 {
          assert HasIcdSection(host.fs, paths[1..][i - 1]);
        }
      }
      if exists i :: 0 <= i < |paths| - 1 && HasIcdSection(host.fs, paths[1..][i]) {
        var i :| 0 <= i < |paths| - 1 && HasIcdSection(host.fs, paths[1..][i]);
        assert HasIcdSection(host.fs, paths[i + 1]);
      }
    }
  }

  /** Over the folders: `found_json` is set exactly when some folder holds a manifest with an `ICD` section. */
  lemma {:induction false} ReadFoldersFoundJson(host: Host, folders: seq<string>, st: State)
    ensures ReadFolders(host, folders, st).foundJson <==>
      st.foundJson || exists d, i :: (0 <= d < |folders| && 0 <= i < |FolderManifests(host.fs, folders[d])| &&
        HasIcdSection(host.fs, FolderManifests(host.fs, folders[d])[i]))
    decreases |folders|
  {
    if folders != [] {
      var here := FolderManifests(host.fs, folders[0]);
      VisitAllFoundJson(host, here, st);
      ReadFoldersFoundJson(host, folders[1..], VisitAll(host, here, st));
      if exists d, i :: (0 <= d < |folders| && 0 <= i < |FolderManifests(host.fs, folders[d])| &&
        HasIcdSection(host.fs, FolderManifests(host.fs, folders[d])[i]))
      {
        var d, i :| 0 <= d < |folders| && 0 <= i < |FolderManifests(host.fs, folders[d])| &&
          HasIcdSection(host.fs, FolderManifests(host.fs, folders[d])[i]);
        if d > 0 {
          assert folders[d] == folders[1..][d - 1];
        }
      }
      if exists d, i :: (0 <= d < |folders| - 1 && 0 <= i < |FolderManifests(host.fs, folders[1..][d])| &&
        HasIcdSection(host.fs, FolderManifests(host.fs, folders[1..][d])[i]))
      {
        var d, i :| 0 <= d < |folders| - 1 && 0 <= i < |FolderManifests(host.fs, folders[1..][d])| &&
          HasIcdSection(host.fs, FolderManifests(host.fs, folders[1..][d])[i]);
        assert folders[1..][d] == folders[d + 1];
      }
    }
  }

  /** The readable files among `files`, in order. */
  function ReadableFiles(fs: FileSystem, files: seq<string>): seq<string>
    decreases |files|
  {
    if files == [] then [] else (if files[0] in fs.readable then [files[0]] else []) + ReadableFiles(fs, files[1..])
  }

  /**
   * With `LD_LIBRARY_PATH` unset no read searches it, so the
   * `VK_ICD_FILENAMES` loop reads every readable file it names, in order.
   */
  lemma {:induction false} IcdFilesWithoutLibraryPath(host: Host, files: seq<string>, st: State)
    requires Getenv(st.env, LibraryPathVariable).None?
    ensures IcdFiles(host, files, st) == VisitAll(host, ReadableFiles(host.fs, files), st)
    decreases |files|
  {
    if files != [] {
      var f := files[0];
      var rest := ReadableFiles(host.fs, files[1..]);
      ReadDriverMeaning(host, f, st.foundThisLib, st.env);
      var next := IcdFile(host, f, st);
      assert next.env == st.env;
      IcdFilesWithoutLibraryPath(host, files[1..], next);
      if f in host.fs.readable {
        assert ReadableFiles(host.fs, files) == [f] + rest;
        assert ([f] + rest)[0] == f && ([f] + rest)[1..] == rest;
      } else {
        assert ReadableFiles(host.fs, files) == rest;
      }
    }
  }

  // ---------------------------------------------------------------------
  // What the section reads, and what its two flags mean

  /**
   * The manifest at `path` names a library in its `ICD` section, and the
   * lookup made with the flag clear locates it: at the generated path, in a
   * system folder, or through `ldconfig`.
   */
  predicate LocatesLibrary(host: Host, path: string, env: Env) {
    HasIcdSection(host.fs, path) &&
    var library := Get(Get(LoadManifest(host.fs, path).root, IcdKey), LibraryPathKey);
    !library.Null? && LibraryLookup(host, path, AsString(library), false, env).outcome.Locates()
  }

  /** The environment a read of `path` leaves behind; the flag plays no part in it (`ReadDriverFlag`). */
  function EnvAfter(host: Host, path: string, env: Env): Env {
    ReadDriver(host, path, false, env).env
  }

  /** Whether a read of `path` searches `LD_LIBRARY_PATH`; the flag plays no part in it either. */
  predicate ReadScans(host: Host, path: string, env: Env) {
    ReadDriver(host, path, false, env).scanned
  }

  /**
   * The flag passed to `ReadDriverJson` changes only the flag it hands back:
   * that one is set exactly when it was set already or the manifest locates
   * its library with the flag clear.
   */
  lemma {:induction false} ReadDriverFlag(host: Host, path: string, foundLib: bool, env: Env)
    ensures ReadDriver(host, path, foundLib, env).env == EnvAfter(host, path, env)
    ensures ReadDriver(host, path, foundLib, env).scanned == ReadScans(host, path, env)
    ensures ReadDriver(host, path, foundLib, env).foundLib <==> foundLib || LocatesLibrary(host, path, env)
  {
    match LoadManifest(host.fs, path)
    case Unreadable =>
    case Unparsable =>
    case Loaded(root) =>
      var library := Get(Get(root, IcdKey), LibraryPathKey);
      if !library.Null? {
        EarlierLibrarySkipsLdconfig(host, path, AsString(library), env);
      }
  }

  /** The environment once the manifests in `paths` have been read, in order. */
  function EnvAfterAll(host: Host, paths: seq<string>, env: Env): Env
    decreases |paths|
  {
    if paths == [] then env else EnvAfterAll(host, paths[1..], EnvAfter(host, paths[0], env))
  }

  /** Some manifest in `paths`, read in order, locates its library with the flag clear. */
  predicate AnyLocates(host: Host, paths: seq<string>, env: Env)
    decreases |paths|
  {
    paths != [] && (LocatesLibrary(host, paths[0], env) || AnyLocates(host, paths[1..], EnvAfter(host, paths[0], env)))
  }

  /** The manifests of every folder, folder by folder, in one list. */
  function FolderReads(fs: FileSystem, folders: seq<string>): seq<string>
    decreases |folders|
  {
    if folders == [] then [] else FolderManifests(fs, folders[0]) + FolderReads(fs, folders[1..])
  }

  /** `paths` up to and including the first whose read searches `LD_LIBRARY_PATH`. */
  function UpToScan(host: Host, paths: seq<string>, env: Env): seq<string>
    decreases |paths|
  {
    if paths == [] then []
    else if ReadScans(host, paths[0], env) then [paths[0]]
    else [paths[0]] + UpToScan(host, paths[1..], EnvAfter(host, paths[0], env))
  }

  /**
   * Over a run of reads, `found_lib` ends up set exactly when it was set or
   * some manifest of the run locates its library; the environment evolves as
   * the reads alone decide.
   */
  lemma {:induction false} VisitAllFlags(host: Host, paths: seq<string>, st: State)
    requires Mirrored(st)
    ensures VisitAll(host, paths, st).env == EnvAfterAll(host, paths, st.env)
    ensures VisitAll(host, paths, st).foundLib <==> st.foundLib || AnyLocates(host, paths, st.env)
    decreases |paths|
  {
    if paths != [] {
      ReadDriverFlag(host, paths[0], st.foundThisLib, st.env);
      ReadDriverMeaning(host, paths[0], st.foundThisLib, st.env);
      VisitMirrored(host, paths[0], st);
      VisitAllFlags(host, paths[1..], Visit(host, paths[0], st));
    }
  }

  lemma {:induction false} VisitAllAppend(host: Host, a: seq<string>, b: seq<string>, st: State)
    ensures VisitAll(host, a + b, st) == VisitAll(host, b, VisitAll(host, a, st))
    decreases |a|
  {
    if a == [] {
      assert a + b == b;
    } else {
      assert (a + b)[0] == a[0] && (a + b)[1..] == a[1..] + b;
      VisitAllAppend(host, a[1..], b, Visit(host, a[0], st));
    }
  }

  /** The folder loop reads the manifests of the folders one after another, as a single run. */
  lemma {:induction false} ReadFoldersReads(host: Host, folders: seq<string>, st: State)
    ensures ReadFolders(host, folders, st) == VisitAll(host, FolderReads(host.fs, folders), st)
    decreases |folders|
  {
    if folders != [] {
      var here := FolderManifests(host.fs, folders[0]);
      VisitAllAppend(host, here, FolderReads(host.fs, folders[1..]), st);
      ReadFoldersReads(host, folders[1..], VisitAll(host, here, st));
    }
  }

  /** `UpToScan` keeps a prefix of the list. */
  lemma {:induction false} UpToScanPrefix(host: Host, paths: seq<string>, env: Env)
    ensures UpToScan(host, paths, env) <= paths
    decreases |paths|
  {
    if paths != [] && !ReadScans(host, paths[0], env) {
      var next := EnvAfter(host, paths[0], env);
      var rest := UpToScan(host, paths[1..], next);
      UpToScanPrefix(host, paths[1..], next);
      assert paths[..|rest| + 1] == [paths[0]] + paths[1..][..|rest|];
    }
  }

  /**
   * The `VK_ICD_FILENAMES` loop reads the readable files it names, in order,
   * up to and including the first read that searches `LD_LIBRARY_PATH`; no
   * file after that one is read.
   */
  lemma {:induction false} IcdFilesReads(host: Host, files: seq<string>, st: State)
    ensures IcdFiles(host, files, st) == VisitAll(host, UpToScan(host, ReadableFiles(host.fs, files), st.env), st)
    decreases |files|
  {
    if files != [] {
      var f := files[0];
      var rest := ReadableFiles(host.fs, files[1..]);
      ReadDriverFlag(host, f, st.foundThisLib, st.env);
      if f in host.fs.readable {
        assert ReadableFiles(host.fs, files) == [f] + rest;
        assert ([f] + rest)[0] == f && ([f] + rest)[1..] == rest;
        if ReadScans(host, f, st.env) {
          assert [f][1..] == [];
        } else {
          IcdFilesReads(host, files[1..], Visit(host, f, st));
          VisitFirst(host, f, UpToScan(host, rest, EnvAfter(host, f, st.env)), st);
        }
      } else {
        assert ReadableFiles(host.fs, files) == rest;
        IcdFilesReads(host, files[1..], st);
      }
    }
  }

  /** The files `VK_ICD_FILENAMES` names: its tokens, or its whole value when it has none. */
  function IcdNamed(env: Env): seq<string> {
    match Getenv(env, IcdFilenamesVariable)
    case None => []
    case Some(value) => if Tokens(value, ':') == [] then [value] else Tokens(value, ':')
  }

  /** The environment once `strtok` has started on `VK_ICD_FILENAMES`. */
  function AfterIcdFilenames(env: Env): Env {
    match Getenv(env, IcdFilenamesVariable)
    case None => env
    case Some(value) => AfterStrtok(env, IcdFilenamesVariable, value)
  }

  /** A lone value taken whole goes through the same loop as a list of tokens. */
  lemma {:induction false} IcdPhaseFiles(host: Host, st: State)
    ensures IcdPhase(host, st) == IcdFiles(host, IcdNamed(st.env), st.(env := AfterIcdFilenames(st.env)))
  {
    match Getenv(st.env, IcdFilenamesVariable)
    case None =>
    case Some(value) =>
      if Tokens(value, ':') == [] {
        assert [value][0] == value && [value][1..] == [];
      }
  }

  /** The manifests the folder search reads, in order. */
  function FolderPhaseReads(host: Host, env: Env): seq<string> {
    FolderReads(host.fs, DriverFolders(env))
  }

  /** The environment the `VK_ICD_FILENAMES` loop starts from. */
  function IcdLoopEnv(host: Host, env: Env): Env {
    AfterIcdFilenames(EnvAfterAll(host, FolderPhaseReads(host, env), AfterDriversPath(env)))
  }

  /** The files the `VK_ICD_FILENAMES` loop reads, in order. */
  function IcdPhaseReads(host: Host, env: Env): seq<string> {
    var mid := EnvAfterAll(host, FolderPhaseReads(host, env), AfterDriversPath(env));
    UpToScan(host, ReadableFiles(host.fs, IcdNamed(mid)), AfterIcdFilenames(mid))
  }

  /**
   * What the section's two flags mean. `found_json` is set exactly when some
   * manifest it reads, in a folder or named by `VK_ICD_FILENAMES`, has an
   * `ICD` section. `found_lib` is set exactly when one of those manifests
   * locates its library with the flag clear, `ldconfig` included: an earlier
   * success skips `ldconfig` for the later ones, but by then the flag is set.
   */
  lemma {:induction false} DriverSearchMeaning(host: Host, env: Env)
    ensures DriverSearch(host, env).foundJson <==>
      (exists i :: 0 <= i < |FolderPhaseReads(host, env)| && HasIcdSection(host.fs, FolderPhaseReads(host, env)[i])) ||
      (exists i :: 0 <= i < |IcdPhaseReads(host, env)| && HasIcdSection(host.fs, IcdPhaseReads(host, env)[i]))
    ensures DriverSearch(host, env).foundLib <==>
      AnyLocates(host, FolderPhaseReads(host, env), AfterDriversPath(env)) ||
      AnyLocates(host, IcdPhaseReads(host, env), IcdLoopEnv(host, env))
  {
    var st0 := State(false, false, false, AfterDriversPath(env));
    var folderReads := FolderPhaseReads(host, env);
    ReadFoldersReads(host, DriverFolders(env), st0);
    var st1 := VisitAll(host, folderReads, st0);
    VisitAllFlags(host, folderReads, st0);
    VisitAllMirrored(host, folderReads, st0);
    VisitAllFoundJson(host, folderReads, st0);
    IcdPhaseFiles(host, st1);
    var start := st1.(env := AfterIcdFilenames(st1.env));
    IcdFilesReads(host, IcdNamed(st1.env), start);
    var icdReads := IcdPhaseReads(host, env);
    VisitAllFlags(host, icdReads, start);
    VisitAllFoundJson(host, icdReads, start);
  }

  // ---------------------------------------------------------------------
  // The section, step by step

  /** One manifest: `ReadDriverJson`, then the merge into `found_json` and `found_lib`. */
  method ReadDriverManifest(host: Host, path: string, st: State, cursor: string) returns (st': State, cursorAfter: string)
    ensures st' == Visit(host, path, st)
    ensures cursorAfter == if Scans(host, path, st) then [] else cursor
  {
    var foundJson, foundThisLib, env;
    foundJson, foundThisLib, env, cursorAfter := ReadDriverJson(host, path, st.foundThisLib, st.env, cursor);
    st' := st.(foundThisLib := foundThisLib, env := env);
    if foundJson {
      st' := st'.(foundJson := true, foundLib := st.foundLib || foundThisLib);
    }
  }

  lemma {:induction false} VisitFirst(host: Host, path: string, rest: seq<string>, st: State)
    ensures VisitAll(host, [path] + rest, st) == VisitAll(host, rest, Visit(host, path, st))
  {
    assert ([path] + rest)[0] == path && ([path] + rest)[1..] == rest;
  }

  /**
   * One folder: `opendir`, then every entry whose name contains ".json", in
   * `readdir` order. The `strtok` position is not read again before
   * `VK_ICD_FILENAMES` restarts it, so it is dropped here.
   */
  method ReadDriverFolder(host: Host, folder: string, st: State) returns (st': State)
    ensures st' == VisitAll(host, FolderManifests(host.fs, folder), st)
  {
    st' := st;
    var listing := ListDirectory(host.fs, folder);
    if listing.None? {
      return;
    }
    var entries := listing.value;
    var cursor: string := [];
    var i := 0;
    while i < |entries|
      invariant i <= |entries|
      invariant VisitAll(host, ManifestPaths(folder, entries[i..]), st') == VisitAll(host, ManifestPaths(folder, entries), st)
    {
      ManifestPathsStep(folder, entries, i);
      if IsManifestName(entries[i]) {
        var path := EntryPath(folder, entries[i]);
        VisitFirst(host, path, ManifestPaths(folder, entries[i + 1..]), st');
        st', cursor := ReadDriverManifest(host, path, st', cursor);
      } else {
        assert [] + ManifestPaths(folder, entries[i + 1..]) == ManifestPaths(folder, entries[i + 1..]);
      }
      i := i + 1;
    }
    assert entries[i..] == [];
  }

  method ReadDriverFolders(host: Host, folders: seq<string>, st: State) returns (st': State)
    ensures st' == ReadFolders(host, folders, st)
  {
    st' := st;
    for d := 0 to |folders|
      invariant ReadFolders(host, folders[d..], st') == ReadFolders(host, folders, st)
    {
      assert folders[d..][0] == folders[d] && folders[d..][1..] == folders[d + 1..];
      st' := ReadDriverFolder(host, folders[d], st');
    }
    assert folders[|folders|..] == [];
  }

  lemma {:induction false} IcdFirst(host: Host, file: string, rest: seq<string>, st: State)
    ensures IcdFiles(host, [file] + rest, st) ==
      if IcdScans(host, file, st) then IcdFile(host, file, st) else IcdFiles(host, rest, IcdFile(host, file, st))
  {
    assert ([file] + rest)[0] == file && ([file] + rest)[1..] == rest;
  }

  /** The `VK_ICD_FILENAMES` part of the section. */
  method ReadIcdFiles(host: Host, st: State) returns (st': State)
    ensures st' == IcdPhase(host, st)
  {
    st' := st;
    var icdValue := Getenv(st.env, IcdFilenamesVariable);
    if icdValue.None? {
      return;
    }
    var value := icdValue.value;
    var next := StrtokNext(value, ':');
    var tok, cursor := next.0, next.1;
    st' := st'.(env := AfterStrtok(st.env, IcdFilenamesVariable, value));
    StrtokNextTokens(value, ':');
    if tok.Some? {
      ghost var start := st';
      while tok.Some?
        invariant tok.None? ==> cursor == []
        invariant IcdFiles(host, PendingTokens(tok, cursor, ':'), st') == IcdFiles(host, Tokens(value, ':'), start)
        decreases |cursor| + (if tok.Some? then 1 else 0)
      {
        var file := tok.value;
        IcdFirst(host, file, Tokens(cursor, ':'), st');
        if file in host.fs.readable {
          st', cursor := ReadDriverManifest(host, file, st', cursor);
        }
        StrtokNextTokens(cursor, ':');
        next := StrtokNext(cursor, ':');
          tok, cursor := next.0, next.1;
      }
    } else if value in host.fs.readable {
      var cursorAfter;
      st', cursorAfter := ReadDriverManifest(host, value, st', cursor);
    }
  }

  /** The folders to search, and the environment once `strtok` has run over `VK_DRIVERS_PATH`. */
  method CollectDriverFolders(env: Env) returns (driverPaths: seq<string>, envAfter: Env)
    ensures driverPaths == DriverFolders(env)
    ensures envAfter == AfterDriversPath(env)
  {
    driverPaths := StandardDriverFolders + [HomeFolder(env, HomeDriverSuffix)];
    envAfter := env;
    var drivers := Getenv(env, DriversPathVariable);
    if drivers.Some? {
      var extra := SplitPathVariable(drivers.value);
      driverPaths := driverPaths + extra;
      envAfter := AfterStrtok(env, DriversPathVariable, drivers.value);
    } else {
      assert driverPaths + [] == driverPaths;
    }
  }

  /** `PrintDriverInfo`: the folders it searched, its result, and the environment it leaves. */
  method PrintDriverInfo(host: Host, env: Env) returns (res: ErrorResult, driverPaths: seq<string>, envAfter: Env)
    ensures driverPaths == DriverFolders(env)
    ensures res == Verdict(DriverSearch(host, env))
    ensures envAfter == DriverSearch(host, env).env
  {
    driverPaths, envAfter := CollectDriverFolders(env);
    var st := State(false, false, false, envAfter);
    st := ReadDriverFolders(host, driverPaths, st);
    st := ReadIcdFiles(host, st);
    envAfter := st.env;
    res := Successful;
    if !st.foundJson {
      res := MissingDriverJson;
    } else if !st.foundLib {
      res := MissingDriverLib;
    }
  }
}
