/**
 * Resolution of the library a manifest names (`GenerateLibraryPath`): an
 * absolute reference is taken as it is; a relative one is appended to the
 * manifest's own directory after its leading `../` and `./` segments are
 * consumed. Each `../` re-applies the cut that produced the directory, and
 * since that directory already ends in a separator the cut changes nothing:
 * parent segments are dropped without ascending.
 */
module LibraryPath {
  import opened Wrappers
  import opened CText

  predicate IsSeparator(c: char) {
    c == '\\' || c == '/'
  }

  /**
   * The manifest path cut just after its last '\\' or, when it has none, its
   * last '/'; a path with neither separator is kept whole.
   */
  function CutAtLastSeparator(p: string): (base: string)
    ensures StartsWith(p, base)
    ensures '\\' in p ==> base != [] && base[|base| - 1] == '\\' && '\\' !in p[|base|..]
    ensures '\\' !in p && '/' in p ==> base != [] && base[|base| - 1] == '/' && '/' !in p[|base|..]
    ensures '\\' !in p && '/' !in p ==> base == p
  {
    match LastIndexOf(p, '\\')
    case Some(k) => p[..k + 1]
    case None =>
      match LastIndexOf(p, '/')
      case Some(k) => p[..k + 1]
      case None => p
  }

  /** Cutting the directory once more leaves it as it is: a `../` step never ascends. */
  lemma {:induction false} CutIsIdempotent(p: string)
    ensures CutAtLastSeparator(CutAtLastSeparator(p)) == CutAtLastSeparator(p)
  {
    var base := CutAtLastSeparator(p);
    assert p == base + p[|base|..];
    if '\\' in p {
      assert '\\' in base;
      var k := LastIndexOf(base, '\\');
      assert k == Some(|base| - 1);
    } else if '/' in p {
      assert '\\' !in base by {
        forall i | 0 <= i < |base| ensures base[i] != '\\' { assert base[i] == p[i]; }
      }
      assert '/' in base;
      assert LastIndexOf(base, '/') == Some(|base| - 1);
    }
  }

  /**
   * The reference counts as absolute when its first character is a separator
   * or its second is a drive colon. (For an empty reference the source reads
   * one byte past the terminator; the model takes that byte not to be ':'.)
   */
  predicate IsAbsolute(r: string) {
    (|r| >= 1 && IsSeparator(r[0])) || (|r| >= 2 && r[1] == ':')
  }

  predicate StartsWithParent(r: string) {
    |r| >= 3 && r[0] == '.' && r[1] == '.' && IsSeparator(r[2])
  }

  predicate StartsWithCurrent(r: string) {
    |r| >= 2 && r[0] == '.' && IsSeparator(r[1])
  }

  /** The reference with its leading `../` and `..\` segments removed. */
  function StripParents(r: string): string
    decreases |r|
  {
    if StartsWithParent(r) then StripParents(r[3..]) else r
  }

  /** The reference with its leading `./` and `.\` segments removed. */
  function StripCurrents(r: string): string
    decreases |r|
  {
    if StartsWithCurrent(r) then StripCurrents(r[2..]) else r
  }

  /** The part of a relative reference that is appended to the manifest's directory. */
  function Tail(r: string): string {
    StripCurrents(StripParents(r))
  }

  /** The library path the source computes for a reference found in the manifest at `manifest`. */
  function Resolve(manifest: string, r: string): string {
    if IsAbsolute(r) then r else CutAtLastSeparator(manifest) + Tail(r)
  }

  /** A run of `../`, `..\`, `./` and `.\` segments. */
  predicate DotSegments(s: string)
    decreases |s|
  {
    s == []
    || (StartsWithParent(s) && DotSegments(s[3..]))
    || (StartsWithCurrent(s) && DotSegments(s[2..]))
  }

  lemma {:induction false} DotSegmentsAppend(a: string, b: string)
    requires DotSegments(a) && DotSegments(b)
    ensures DotSegments(a + b)
    decreases |a|
  {
    if a == [] {
      assert a + b == b;
    } else if StartsWithParent(a) && DotSegments(a[3..]) {
      DotSegmentsAppend(a[3..], b);
      assert (a + b)[3..] == a[3..] + b;
    } else {
      DotSegmentsAppend(a[2..], b);
      assert (a + b)[2..] == a[2..] + b;
    }
  }

  lemma {:induction false} StripParentsShape(r: string)
    ensures |StripParents(r)| <= |r| && r[|r| - |StripParents(r)|..] == StripParents(r)
    ensures DotSegments(r[..|r| - |StripParents(r)|])
    ensures !StartsWithParent(StripParents(r))
    decreases |r|
  {
    if StartsWithParent(r) {
      StripParentsShape(r[3..]);
      var t := StripParents(r);
      var n := |r| - |t|;
      assert r[3..][..|r[3..]| - |t|] == r[3..n];
      assert r[..n] == r[..3] + r[3..n];
      assert DotSegments(r[..3]) by { assert r[..3][3..] == []; }
      DotSegmentsAppend(r[..3], r[3..n]);
    } else {
      assert r[..0] == [];
    }
  }

  lemma {:induction false} StripCurrentsShape(r: string)
    ensures |StripCurrents(r)| <= |r| && r[|r| - |StripCurrents(r)|..] == StripCurrents(r)
    ensures DotSegments(r[..|r| - |StripCurrents(r)|])
    ensures !StartsWithCurrent(StripCurrents(r))
    decreases |r|
  {
    if StartsWithCurrent(r) {
      StripCurrentsShape(r[2..]);
      var t := StripCurrents(r);
      var n := |r| - |t|;
      assert r[2..][..|r[2..]| - |t|] == r[2..n];
      assert r[..n] == r[..2] + r[2..n];
      assert DotSegments(r[..2]) by { assert r[..2][2..] == []; }
      DotSegmentsAppend(r[..2], r[2..n]);
    } else {
      assert r[..0] == [];
    }
  }

  /**
   * The appended tail is what is left of the reference once a leading run of
   * dot segments is consumed, and it does not itself start with `./` or `.\`.
   */
  lemma {:induction false} TailShape(r: string)
    ensures |Tail(r)| <= |r| && r == r[..|r| - |Tail(r)|] + Tail(r)
    ensures DotSegments(r[..|r| - |Tail(r)|])
    ensures !StartsWithCurrent(Tail(r))
  {
    var p := StripParents(r);
    StripParentsShape(r);
    StripCurrentsShape(p);
    DropTwoRuns(r, p, StripCurrents(p));
  }

  /** Dropping a run of dot segments and then another drops one run of dot segments. */
  lemma {:induction false} DropTwoRuns(r: string, p: string, t: string)
    requires |p| <= |r| && r[|r| - |p|..] == p && DotSegments(r[..|r| - |p|])
    requires |t| <= |p| && p[|p| - |t|..] == t && DotSegments(p[..|p| - |t|])
    ensures |t| <= |r| && r == r[..|r| - |t|] + t
    ensures DotSegments(r[..|r| - |t|])
  {
    NestedSuffix(r, p, t);
    DotSegmentsAppend(r[..|r| - |p|], p[..|p| - |t|]);
  }

  /** A suffix of a suffix is a suffix, and what precedes it is the two cut-off parts in order. */
  lemma {:induction false} NestedSuffix(r: string, p: string, t: string)
    requires |p| <= |r| && r[|r| - |p|..] == p
    requires |t| <= |p| && p[|p| - |t|..] == t
    ensures r[|r| - |t|..] == t
    ensures r[..|r| - |t|] == r[..|r| - |p|] + p[..|p| - |t|]
    ensures r == r[..|r| - |t|] + t
  {
    var k := |r| - |t|;
    assert r[|r| - |p|..][|p| - |t|..] == r[k..];
    assert r == r[..k] + r[k..];
  }

  /** A relative reference lands in the manifest's directory, whatever `../` segments it starts with. */
  lemma {:induction false} RelativeStaysInManifestDirectory(manifest: string, r: string)
    requires !IsAbsolute(r)
    ensures StartsWith(Resolve(manifest, r), CutAtLastSeparator(manifest))
    ensures Resolve(manifest, r)[|CutAtLastSeparator(manifest)|..] == Tail(r)
  {
    var base := CutAtLastSeparator(manifest);
    assert (base + Tail(r))[..|base|] == base;
    assert (base + Tail(r))[|base|..] == Tail(r);
  }

  /** Prefixing a relative reference with `../` (or `..\`) does not change where it resolves. */
  lemma {:induction false} ParentSegmentNeverAscends(manifest: string, r: string, sep: char)
    requires IsSeparator(sep) && !IsAbsolute(r)
    ensures Resolve(manifest, ['.', '.', sep] + r) == Resolve(manifest, r)
  {
    var r' := ['.', '.', sep] + r;
    assert StartsWithParent(r');
    assert r'[3..] == r;
  }

  /** The source's resolution of a two-level parent reference stays in the manifest's own directory. */
  lemma {:induction false} ResolveExample()
    ensures Resolve("/a/b/c/m.json", "../../x") == "/a/b/c/x"
  {
    var m, r := "/a/b/c/m.json", "../../x";
    assert StartsWithParent(r) && r[3..] == "../x";
    assert StartsWithParent(r[3..]) && r[3..][3..] == "x";
    assert Tail(r) == "x";
    assert '\\' !in m;
    assert LastIndexOf(m, '/') == Some(6);
    assert CutAtLastSeparator(m) == "/a/b/c/";
  }


  /** The cut `GenerateLibraryPath` makes: after the last '\\', or failing that the last '/'. */
  method CutFileName(path: string) returns (finalPath: string)
    ensures finalPath == CutAtLastSeparator(path)
  {
    finalPath := path;
    var cut := LastIndexOf(finalPath, '\\');
    if cut.None? {
      cut := LastIndexOf(finalPath, '/');
    }
    if cut.Some? {
      finalPath := finalPath[..cut.value + 1];
    }
  }

  /** The `../` loop: each parent segment re-cuts the (already cut) manifest directory. */
  method SkipParentSegments(info: string, json: string, base: string) returns (i: nat, finalPath: string)
    requires base == CutAtLastSeparator(json)
    ensures i <= |info| && info[i..] == StripParents(info)
    ensures finalPath == CutAtLastSeparator(json)
  {
    i, finalPath := 0, base;
    while CharAt(info, i) == '.' && CharAt(info, i + 1) == '.' && (CharAt(info, i + 2) == '\\' || CharAt(info, i + 2) == '/')
      invariant i <= |info|
      invariant StripParents(info[i..]) == StripParents(info)
      invariant finalPath == CutAtLastSeparator(json)
      decreases |info| - i
    {
      assert StartsWithParent(info[i..]) && info[i..][3..] == info[i + 3..];
      i := i + 3;
      // "Go up a folder": the same cut once more.
      CutIsIdempotent(json);
      finalPath := CutFileName(finalPath);
    }
  }

  /** The `./` loop that follows it. */
  method SkipCurrentSegments(info: string, from: nat) returns (i: nat)
    requires from <= |info| && info[from..] == StripParents(info)
    ensures i <= |info| && info[i..] == Tail(info)
  {
    i := from;
    while CharAt(info, i) == '.' && (CharAt(info, i + 1) == '\\' || CharAt(info, i + 1) == '/')
      invariant from <= i <= |info|
      invariant StripCurrents(info[i..]) == Tail(info)
      decreases |info| - i
    {
      assert StartsWithCurrent(info[i..]) && info[i..][2..] == info[i + 2..];
      i := i + 2;
    }
  }

  /**
   * `GenerateLibraryPath(json_location, library_info, max_length, library_location)`.
   * The pointers are `Option`s (None for NULL, with `haveOutput` telling whether
   * the output buffer pointer is non-NULL); `buffer` is what the output buffer
   * held before the call and `location` what it holds after.
   */
  method GenerateLibraryPath(jsonLocation: Option<string>, libraryInfo: Option<string>, haveOutput: bool, buffer: string)
    returns (success: bool, location: string)
    ensures success <==> jsonLocation.Some? && libraryInfo.Some? && haveOutput
    ensures success && IsAbsolute(libraryInfo.value) ==> location == libraryInfo.value
    ensures success ==> location == Resolve(jsonLocation.value, libraryInfo.value)
    ensures !success ==> location == buffer
  {
    success, location := false, buffer;
    if jsonLocation.None? || libraryInfo.None? || !haveOutput {
      return;
    }
    var json, info := jsonLocation.value, libraryInfo.value;

    // Remove the manifest's file name from its path to get the base location.
    var finalPath := CutFileName(json);

    if CharAt(info, 0) == '\\' || CharAt(info, 0) == '/' || (|info| >= 1 && CharAt(info, 1) == ':') {
      location := info;
      success := true;
    } else {
      var i;
      i, finalPath := SkipParentSegments(info, json, finalPath);
      i := SkipCurrentSegments(info, i);
      location := finalPath + info[i..];
      success := true;
    }
  }
}
