/**
 * What the discovery code asks of the machine it runs on, given as values:
 * the process environment, the files it may open and what they parse to, the
 * directories it may list, and the outcome codes it reports.
 */
module Platform {
  import opened Wrappers
  import opened CText
  import opened Json

  /** `ErrorResults`, with the numeric values the program reports. */
  datatype ErrorResult =
    | Successful
    | UnknownError
    | SystemCallFailure
    | MissingDriverRegistry
    | MissingDriverJson
    | DriverJsonParsingError
    | MissingDriverLib
    | MissingLayerJson
    | LayerJsonParsingError
    | MissingLayerLib
    | VulkanCantFindRuntime
    | VulkanCantFindDriver
    | VulkanCantFindExtensions
    | VulkanFailedCreateInstance
    | VulkanFailedCreateDevice
    | VulkanFailedOutOfMem
    | TestFailed
  {
    function Code(): int {
      match this
      case Successful => 0
      case UnknownError => -1
      case SystemCallFailure => -2
      case MissingDriverRegistry => -20
      case MissingDriverJson => -21
      case DriverJsonParsingError => -22
      case MissingDriverLib => -23
      case MissingLayerJson => -24
      case LayerJsonParsingError => -25
      case MissingLayerLib => -26
      case VulkanCantFindRuntime => -40
      case VulkanCantFindDriver => -41
      case VulkanCantFindExtensions => -42
      case VulkanFailedCreateInstance => -43
      case VulkanFailedCreateDevice => -44
      case VulkanFailedOutOfMem => -45
      case TestFailed => -60
    }
  }

  /** The process environment: variable name to value. */
  type Env = map<string, string>

  /** `getenv(name)`: the variable's value as a C string, or NULL. */
  function Getenv(env: Env, name: string): (r: Option<string>)
    ensures r.Some? <==> CStr(name) in env
    ensures r.Some? ==> NoNul(r.value)
  {
    if CStr(name) in env then Some(CStr(env[CStr(name)])) else None
  }

  /**
   * The file system as the program sees it: the paths `access(.., R_OK)`
   * accepts and an `ifstream` opens, the entries `readdir` returns for each
   * directory `opendir` opens (in that order), and the root value jsoncpp
   * delivers for each readable file it parses. A readable file absent from
   * `documents` does not parse.
   */
  datatype FileSystem = FileSystem(
    readable: set<string>,
    directories: map<string, seq<string>>,
    documents: map<string, Value>)

  /** What opening and parsing one manifest gives. */
  datatype Load = Unreadable | Unparsable | Loaded(root: Value)

  /**
   * Open `path` and parse it: the stream may fail to open, and a parse that
   * fails or yields a null root is one failure.
   */
  function LoadManifest(fs: FileSystem, path: string): (r: Load)
    ensures r.Unreadable? <==> path !in fs.readable
    ensures r.Loaded? ==> !r.root.Null?
  {
    if path !in fs.readable then Unreadable
    else if path in fs.documents && !fs.documents[path].Null? then Loaded(fs.documents[path])
    else Unparsable
  }

  /** `opendir` followed by `readdir` until it returns NULL. */
  function ListDirectory(fs: FileSystem, path: string): Option<seq<string>> {
    if path in fs.directories then Some(fs.directories[path]) else None
  }

  /** The text whose presence anywhere in an entry's name marks it as a manifest. */
  const ManifestMarker: string := ".json"

  /** The entries the program treats as manifests: names containing ".json" anywhere. */
  predicate IsManifestName(name: string) {
    Contains(name, ManifestMarker)
  }

  /** The path the program builds for a directory entry: the directory, '/', the entry's name. */
  function EntryPath(dir: string, name: string): string {
    dir + "/" + name
  }

  /** The manifest paths a `readdir` loop visits, in directory order. */
  function ManifestPaths(dir: string, entries: seq<string>): (paths: seq<string>)
    decreases |entries|
  {
    if entries == [] then []
    else (if IsManifestName(entries[0]) then [EntryPath(dir, entries[0])] else []) + ManifestPaths(dir, entries[1..])
  }

  /** Every visited path is a manifest entry of the directory, and every manifest entry is visited. */
  lemma {:induction false} ManifestPathsMembers(dir: string, entries: seq<string>)
    ensures |ManifestPaths(dir, entries)| <= |entries|
    ensures forall p :: p in ManifestPaths(dir, entries) <==>
      exists name :: name in entries && IsManifestName(name) && p == EntryPath(dir, name)
    decreases |entries|
  {
    if entries != [] {
      ManifestPathsMembers(dir, entries[1..]);
      forall p | (exists name :: name in entries && IsManifestName(name) && p == EntryPath(dir, name))
        ensures p in ManifestPaths(dir, entries)
      {
        var name :| name in entries && IsManifestName(name) && p == EntryPath(dir, name);
        if name != entries[0] {
          assert name in entries[1..];
        }
      }
    }
  }

  /** One step of the `readdir` loop: the entry at `i` is visited before the ones after it. */
  lemma {:induction false} ManifestPathsStep(dir: string, entries: seq<string>, i: nat)
    requires i < |entries|
    ensures ManifestPaths(dir, entries[i..]) ==
      (if IsManifestName(entries[i]) then [EntryPath(dir, entries[i])] else []) + ManifestPaths(dir, entries[i + 1..])
  {
    assert entries[i..][1..] == entries[i + 1..];
  }

  /** The manifests of a directory, or none when `opendir` fails. */
  function FolderManifests(fs: FileSystem, dir: string): seq<string> {
    match ListDirectory(fs, dir)
    case None => []
    case Some(entries) => ManifestPaths(dir, entries)
  }

  /** The variable naming the user's home directory. */
  const HomeVariable: string := "HOME"

  /** A folder under the user's home: `$HOME` followed by `suffix`, or "~" followed by it when HOME is unset. */
  function HomeFolder(env: Env, suffix: string): string {
    match Getenv(env, HomeVariable)
    case None => "~" + suffix
    case Some(home) => home + suffix
  }

  /**
   * The folders a colon-separated search variable names: its `strtok` tokens,
   * or the whole value when it has none.
   */
  function PathVariableFolders(value: string): seq<string> {
    var tokens := Tokens(value, ':');
    if tokens == [] then [value] else tokens
  }

  /**
   * A search variable always names at least one folder. Either it is made of
   * colons only (or empty) and is taken whole, or its folders are non-empty,
   * free of colons, and spell out the value once its colons are deleted.
   */
  lemma {:induction false} PathVariableFoldersMeaning(value: string)
    ensures PathVariableFolders(value) != []
    ensures || (PathVariableFolders(value) == [value] && forall i :: 0 <= i < |value| ==> value[i] == ':')
            || (&& (forall f :: f in PathVariableFolders(value) ==> f != [] && ':' !in f)
                && Concat(PathVariableFolders(value)) == Without(value, ':'))
  {
    TokensEmpty(value, ':');
    TokensPartition(value, ':');
  }

  /**
   * The `strtok` loop over a search variable's value: each token in turn,
   * or the whole value when `strtok` finds none.
   */
  method SplitPathVariable(value: string) returns (folders: seq<string>)
    ensures folders == PathVariableFolders(value)
  {
    var next := StrtokNext(value, ':');
    var tok, cursor := next.0, next.1;
    StrtokNextTokens(value, ':');
    if tok.None? {
      return [value];
    }
    folders := [];
    while tok.Some?
      invariant tok.None? ==> cursor == []
      invariant folders + PendingTokens(tok, cursor, ':') == Tokens(value, ':')
      decreases |cursor| + (if tok.Some? then 1 else 0)
    {
      assert folders + PendingTokens(tok, cursor, ':') == (folders + [tok.value]) + Tokens(cursor, ':');
      folders := folders + [tok.value];
      StrtokNextTokens(cursor, ':');
      next := StrtokNext(cursor, ':');
      tok, cursor := next.0, next.1;
    }
    assert folders + [] == folders;
  }

  /** The environment after `strtok` has run over the variable `name`, whose value was `value`. */
  function AfterStrtok(env: Env, name: string, value: string): Env {
    env[CStr(name) := StrtokResidue(value, ':')]
  }

  /** `strtok` over one variable leaves every other variable as it was. */
  lemma {:induction false} OtherVariablesKept(env: Env, changed: string, value: string, other: string)
    requires CStr(other) != CStr(changed)
    ensures Getenv(AfterStrtok(env, changed, value), other) == Getenv(env, other)
  {
  }

  /**
   * Once `strtok` has run over a variable, `getenv` sees only what precedes
   * the first token's terminating colon: the variable now names at most the
   * first of its folders.
   */
  lemma {:induction false} StrtokLeavesResidue(env: Env, name: string, value: string)
    requires NoNul(value)
    ensures Getenv(AfterStrtok(env, name, value), name) == Some(StrtokResidue(value, ':'))
    ensures Tokens(Getenv(AfterStrtok(env, name, value), name).value, ':') ==
      Tokens(value, ':')[..if Tokens(value, ':') == [] then 0 else 1]
  {
    var r := StrtokResidue(value, ':');
    assert r == value[..|r|];
    assert NoNul(r);
    StrtokResidueTokens(value, ':');
  }
}
