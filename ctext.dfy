/**
 * The C library string routines the discovery code leans on, as functions over
 * `string`: reading a C string up to and including its terminator, `strrchr`,
 * `find`, `strstr`, `strtok` on a one-character delimiter (with the damage it
 * leaves in the string it tokenises) and glibc's `atoi`.
 */
module CText {
  import opened Wrappers

  /** A C string holds no NUL before its terminator. */
  predicate NoNul(s: string) {
    forall i :: 0 <= i < |s| ==> s[i] != '\0'
  }

  /** Reading `s[i]` of a C string: index |s| is the terminating NUL, and nothing later may be read. */
  function CharAt(s: string, i: nat): (c: char)
    requires i <= |s|
    ensures NoNul(s) ==> (c == '\0' <==> i == |s|)
  {
    if i < |s| then s[i] else '\0'
  }

  predicate StartsWith(s: string, prefix: string) {
    |prefix| <= |s| && s[..|prefix|] == prefix
  }

  /** `strstr(s, pat) != NULL`. */
  predicate Contains(s: string, pat: string)
    decreases |s|
  {
    StartsWith(s, pat) || (s != [] && Contains(s[1..], pat))
  }

  /** `strrchr`: the position of the last `c` in `s`. */
  function LastIndexOf(s: string, c: char): (r: Option<nat>)
    ensures r.None? <==> c !in s
    ensures r.Some? ==> r.value < |s| && s[r.value] == c && c !in s[r.value + 1..]
  {
    if s == [] then None
    else if s[|s| - 1] == c then Some(|s| - 1)
    else
      var r := LastIndexOf(s[..|s| - 1], c);
      assert s[..|s| - 1] + [s[|s| - 1]] == s;
      assert r.Some? ==> s[r.value + 1..] == s[..|s| - 1][r.value + 1..] + [s[|s| - 1]];
      r
  }

  /** `std::string::find(c)`: the position of the first `c` in `s`. */
  function IndexOf(s: string, c: char): (r: Option<nat>)
    ensures r.None? <==> c !in s
    ensures r.Some? ==> r.value < |s| && s[r.value] == c && c !in s[..r.value]
  {
    if s == [] then None
    else if s[0] == c then Some(0)
    else
      var r := IndexOf(s[1..], c);
      assert s == [s[0]] + s[1..];
      if r.None? then None
      else
        assert s[..r.value + 1] == [s[0]] + s[1..][..r.value];
        Some(r.value + 1)
  }

  // ---------------------------------------------------------------------
  // strtok with a single delimiter character
  // ---------------------------------------------------------------------

  /** Length of the leading run of `s` that holds no `d`. */
  function RunLength(s: string, d: char): (n: nat)
    ensures n <= |s|
  {
    if s == [] || s[0] == d then 0 else RunLength(s[1..], d) + 1
  }

  /** The run holds no `d`, and it stops at a `d` or at the end. */
  lemma {:induction false} RunLengthStops(s: string, d: char)
    ensures d !in s[..RunLength(s, d)]
    ensures RunLength(s, d) < |s| ==> s[RunLength(s, d)] == d
    decreases |s|
  {
    if s != [] && s[0] != d {
      RunLengthStops(s[1..], d);
      var n := RunLength(s[1..], d);
      assert s[..n + 1] == [s[0]] + s[1..][..n];
    }
  }

  /**
   * The tokens `strtok(s, d)` followed by `strtok(NULL, d)` calls return, in order:
   * the maximal non-empty runs of `s` without `d`.
   */
  function Tokens(s: string, d: char): (ts: seq<string>)
    decreases |s|
  {
    if s == [] then []
    else if s[0] == d then Tokens(s[1..], d)
    else
      var n := RunLength(s, d);
      [s[..n]] + Tokens(s[n..], d)
  }

  /** `s` with every `d` deleted. */
  function Without(s: string, d: char): string {
    if s == [] then [] else (if s[0] == d then [] else [s[0]]) + Without(s[1..], d)
  }

  function Concat(ts: seq<string>): string {
    if ts == [] then [] else ts[0] + Concat(ts[1..])
  }

  lemma {:induction false} WithoutAppend(a: string, b: string, d: char)
    ensures Without(a + b, d) == Without(a, d) + Without(b, d)
  {
    if a != [] {
      assert (a + b)[1..] == a[1..] + b;
      WithoutAppend(a[1..], b, d);
    } else {
      assert a + b == b;
    }
  }

  lemma {:induction false} WithoutNone(s: string, d: char)
    requires d !in s
    ensures Without(s, d) == s
  {
    if s != [] {
      assert d !in s[1..];
      WithoutNone(s[1..], d);
    }
  }

  /**
   * The tokens are non-empty, free of the delimiter, and together spell out
   * every other character of `s` in order: nothing is lost, nothing invented.
   */
  lemma {:induction false} TokensPartition(s: string, d: char)
    ensures forall t :: t in Tokens(s, d) ==> t != [] && d !in t
    ensures Concat(Tokens(s, d)) == Without(s, d)
    decreases |s|
  {
    if s == [] {
    } else if s[0] == d {
      TokensPartition(s[1..], d);
    } else {
      var n := RunLength(s, d);
      RunLengthStops(s, d);
      TokensPartition(s[n..], d);
      assert s == s[..n] + s[n..];
      WithoutAppend(s[..n], s[n..], d);
      WithoutNone(s[..n], d);
    }
  }

  /** `strtok` yields nothing exactly when the string is all delimiters (or empty). */
  lemma {:induction false} TokensEmpty(s: string, d: char)
    ensures Tokens(s, d) == [] <==> forall i :: 0 <= i < |s| ==> s[i] == d
    decreases |s|
  {
    if s != [] && s[0] == d {
      TokensEmpty(s[1..], d);
      assert forall i :: 1 <= i < |s| ==> s[i] == s[1..][i - 1];
    }
  }

  /** Number of delimiters `strtok` skips before the first token. */
  function LeadingDelims(s: string, d: char): (n: nat)
    ensures n <= |s|
    ensures n < |s| ==> s[n] != d
  {
    if s != [] && s[0] == d then 1 + LeadingDelims(s[1..], d) else 0
  }

  /** What `strtok` skips is delimiters only. */
  lemma {:induction false} LeadingDelimsAreDelims(s: string, d: char)
    ensures forall i :: 0 <= i < LeadingDelims(s, d) ==> s[i] == d
    decreases |s|
  {
    if s != [] && s[0] == d {
      LeadingDelimsAreDelims(s[1..], d);
      assert forall i :: 1 <= i < LeadingDelims(s, d) ==> s[i] == s[1..][i - 1];
    }
  }

  /** The first token is the run that follows the leading delimiters; there is none when only delimiters remain. */
  lemma {:induction false} FirstToken(s: string, d: char)
    ensures var k := LeadingDelims(s, d);
            (Tokens(s, d) == [] <==> k == |s|) &&
            (k < |s| ==> Tokens(s, d)[0] == s[k..k + RunLength(s[k..], d)])
    decreases |s|
  {
    if s != [] && s[0] == d {
      FirstToken(s[1..], d);
      var k := LeadingDelims(s[1..], d);
      assert s[1..][k..] == s[k + 1..];
      if k < |s| - 1 {
        assert s[1..][k..k + RunLength(s[1..][k..], d)] == s[k + 1..k + 1 + RunLength(s[k + 1..], d)];
      }
    }
  }

  /**
   * What a C string reads as after `strtok` has run over it to the end:
   * `strtok` writes a NUL over the delimiter that ends each token, so the
   * string stops where its first token stops; with no token nothing is written.
   */
  function StrtokResidue(s: string, d: char): (r: string)
    ensures StartsWith(s, r)
  {
    var k := LeadingDelims(s, d);
    if k == |s| then s else s[..k + RunLength(s[k..], d)]
  }

  /** After `strtok`, the string is its leading delimiters followed by its first token. */
  lemma {:induction false} StrtokResidueIsFirstToken(s: string, d: char)
    requires Tokens(s, d) != []
    ensures StrtokResidue(s, d) == s[..LeadingDelims(s, d)] + Tokens(s, d)[0]
  {
    FirstToken(s, d);
  }

  /**
   * One `strtok` call on the text its saved position points at: the next
   * token, and the position it saves, just past the NUL written over the
   * delimiter that ends the token, or at the end of the text. With no token
   * left the position stays at the end.
   */
  function StrtokNext(s: string, d: char): (r: (Option<string>, string))
    ensures |r.1| <= |s|
    ensures r.0.None? ==> r.1 == []
    ensures r.0.Some? ==> r.0.value != [] && |r.1| < |s|
  {
    var k := LeadingDelims(s, d);
    if k == |s| then (None, [])
    else
      var n := RunLength(s[k..], d);
      (Some(s[k..k + n]), if k + n < |s| then s[k + n + 1..] else [])
  }

  /** The tokens still to come: the one in hand, if any, then those the saved position yields. */
  function PendingTokens(tok: Option<string>, rest: string, d: char): seq<string> {
    (if tok.Some? then [tok.value] else []) + Tokens(rest, d)
  }

  /** Skipping the leading delimiters does not change the tokens. */
  lemma {:induction false} TokensAfterDelims(s: string, d: char)
    ensures Tokens(s[LeadingDelims(s, d)..], d) == Tokens(s, d)
    decreases |s|
  {
    if s != [] && s[0] == d {
      TokensAfterDelims(s[1..], d);
      assert s[1..][LeadingDelims(s[1..], d)..] == s[LeadingDelims(s, d)..];
    }
  }

  /** Calling `strtok` again and again from a saved position yields exactly the tokens of the text there. */
  lemma {:induction false} StrtokNextTokens(s: string, d: char)
    ensures PendingTokens(StrtokNext(s, d).0, StrtokNext(s, d).1, d) == Tokens(s, d)
  {
    var k := LeadingDelims(s, d);
    var r := StrtokNext(s, d);
    if k == |s| {
      assert r == (None, []);
      TokensAfterDelims(s, d);
      assert s[k..] == [];
      assert PendingTokens(r.0, r.1, d) == [];
    } else {
      var n := RunLength(s[k..], d);
      var rest := if k + n < |s| then s[k + n + 1..] else [];
      assert r.0 == Some(s[k..k + n]) && r.1 == rest;
      assert PendingTokens(r.0, r.1, d) == [s[k..k + n]] + Tokens(rest, d);
      TokensFromFirstRun(s, d);
    }
  }

  /** The first token is the run after the leading delimiters; the rest come from beyond the delimiter that ends it. */
  lemma {:induction false} TokensFromFirstRun(s: string, d: char)
    requires LeadingDelims(s, d) < |s|
    ensures var k := LeadingDelims(s, d);
      var n := RunLength(s[k..], d);
      Tokens(s, d) == [s[k..k + n]] + Tokens(if k + n < |s| then s[k + n + 1..] else [], d)
  {
    var k := LeadingDelims(s, d);
    var t := s[k..];
    var n := RunLength(t, d);
    TokensAfterDelims(s, d);
    RunLengthStops(t, d);
    assert Tokens(t, d) == [t[..n]] + Tokens(t[n..], d);
    assert t[..n] == s[k..k + n];
    if k + n < |s| {
      assert t[n..][0] == d && t[n..][1..] == s[k + n + 1..];
    } else {
      assert t[n..] == [];
    }
  }

  /** A run free of the delimiter is all one run. */
  lemma {:induction false} RunLengthWhole(t: string, d: char)
    requires d !in t
    ensures RunLength(t, d) == |t|
    decreases |t|
  {
    if t != [] {
      assert d !in t[1..] by { assert forall c :: c in t[1..] ==> c in t; }
      RunLengthWhole(t[1..], d);
    }
  }

  /**
   * Tokenising a string that `strtok` has already run over yields its first
   * token only (or nothing, when it had none).
   */
  lemma {:induction false} StrtokResidueTokens(s: string, d: char)
    ensures Tokens(StrtokResidue(s, d), d) == Tokens(s, d)[..if Tokens(s, d) == [] then 0 else 1]
    decreases |s|
  {
    if s == [] {
    } else if s[0] == d {
      StrtokResidueTokens(s[1..], d);
      ResidueSkipsDelim(s, d);
      assert ([d] + StrtokResidue(s[1..], d))[1..] == StrtokResidue(s[1..], d);
    } else {
      ResidueOfRun(s, d);
    }
  }

  /** A leading delimiter stays in front of what `strtok` leaves of the rest. */
  lemma {:induction false} ResidueSkipsDelim(s: string, d: char)
    requires s != [] && s[0] == d
    ensures StrtokResidue(s, d) == [d] + StrtokResidue(s[1..], d)
  {
    var k := LeadingDelims(s[1..], d);
    assert s[1..][k..] == s[k + 1..];
    if k < |s| - 1 {
      assert s[..k + 1 + RunLength(s[k + 1..], d)] == [d] + s[1..][..k + RunLength(s[1..][k..], d)];
    } else {
      assert s == [d] + s[1..];
    }
  }

  /** A string that starts with a token keeps just that token. */
  lemma {:induction false} ResidueOfRun(s: string, d: char)
    requires s != [] && s[0] != d
    ensures Tokens(StrtokResidue(s, d), d) == Tokens(s, d)[..1]
  {
    var n := RunLength(s, d);
    RunLengthStops(s, d);
    RunLengthWhole(s[..n], d);
    assert s[0..] == s;
    assert StrtokResidue(s, d) == s[..n];
    assert n > 0 && s[..n][0] == s[0];
    assert s[..n][..n] == s[..n] && s[..n][n..] == [];
    assert Tokens(s[..n], d) == [s[..n]];
    assert Tokens(s, d) == [s[..n]] + Tokens(s[n..], d);
  }

  // ---------------------------------------------------------------------
  // Splitting at every occurrence of a character
  // ---------------------------------------------------------------------

  /** The pieces between occurrences of `c`, empty ones included: `getline` on '\n', or dash-separated fields. */
  function Split(s: string, c: char): (parts: seq<string>)
    ensures |parts| >= 1
    decreases |s|
  {
    match IndexOf(s, c)
    case None => [s]
    case Some(k) => [s[..k]] + Split(s[k + 1..], c)
  }

  function Join(parts: seq<string>, c: char): string
    requires |parts| >= 1
  {
    if |parts| == 1 then parts[0] else parts[0] + [c] + Join(parts[1..], c)
  }

  /** A text is the part before position `k`, the character there, and the part after it. */
  lemma {:induction false} AroundIndex(s: string, k: nat)
    requires k < |s|
    ensures s[..k] + [s[k]] + s[k + 1..] == s
  {
  }

  /** Slicing a suffix `s[a..]` is slicing `s` itself, shifted by `a`. */
  lemma {:induction false} SuffixSlices(s: string, a: nat, b: nat)
    requires a <= b < |s|
    ensures s[a..][..b - a] == s[a..b]
    ensures s[a..][b - a + 1..] == s[b + 1..]
  {
  }

  /** Splitting loses nothing: joined back with the separator, the pieces give the text. */
  lemma {:induction false} SplitJoinRoundTrip(s: string, c: char)
    ensures Join(Split(s, c), c) == s
    decreases |s|
  {
    var k := IndexOf(s, c);
    if k.Some? {
      var rest := s[k.value + 1..];
      SplitJoinRoundTrip(rest, c);
      var parts := Split(s, c);
      assert parts == [s[..k.value]] + Split(rest, c);
      assert parts[1..] == Split(rest, c);
      AroundIndex(s, k.value);
    }
  }

  /** Splitting text that starts with a separator-free piece and a separator. */
  lemma {:induction false} SplitAtFirst(a: string, c: char, b: string)
    requires c !in a
    ensures Split(a + [c] + b, c) == [a] + Split(b, c)
  {
    var s := a + [c] + b;
    assert s[|a|] == c;
    var k := IndexOf(s, c).value;
    assert k == |a|;
    assert s[..|a|] == a && s[|a| + 1..] == b;
  }

  /** Joining pieces that hold no separator and splitting the result gives the pieces back. */
  lemma {:induction false} JoinSplitRoundTrip(parts: seq<string>, c: char)
    requires |parts| >= 1 && forall i :: 0 <= i < |parts| ==> c !in parts[i]
    ensures Split(Join(parts, c), c) == parts
    decreases |parts|
  {
    if |parts| == 1 {
      assert IndexOf(parts[0], c).None?;
    } else {
      JoinSplitRoundTrip(parts[1..], c);
      SplitAtFirst(parts[0], c, Join(parts[1..], c));
      assert parts == [parts[0]] + parts[1..];
    }
  }

  /** No piece holds the separator, and there is one piece more than there are separators. */
  lemma {:induction false} SplitPieces(s: string, c: char)
    ensures forall i :: 0 <= i < |Split(s, c)| ==> c !in Split(s, c)[i]
    ensures |Split(s, c)| == 1 <==> c !in s
    decreases |s|
  {
    var k := IndexOf(s, c);
    if k.Some? {
      SplitPieces(s[k.value + 1..], c);
    }
  }

  /** The text of a `std::string` as its `c_str()` reads: up to the first NUL. */
  function CStr(s: string): (r: string)
    ensures NoNul(r) && StartsWith(s, r)
    ensures NoNul(s) ==> r == s
  {
    match IndexOf(s, '\0')
    case None => s
    case Some(k) => s[..k]
  }

  /** A NUL written just after `a` ends the C string there. */
  lemma {:induction false} CStrStopsAtNul(a: string, b: string)
    requires NoNul(a)
    ensures CStr(a + ['\0'] + b) == a
  {
    var s := a + ['\0'] + b;
    assert s[|a|] == '\0';
    var k := IndexOf(s, '\0').value;
    assert k == |a|;
    assert s[..|a|] == a;
  }

  /** `strlen(p)` for a pointer `p` at offset `from` into the buffer `buf`. */
  function Strlen(buf: seq<char>, from: nat): (n: nat)
    requires from <= |buf|
    ensures from + n <= |buf|
  {
    |CStr(buf[from..])|
  }

  /** `strchr(p, c)` for a pointer `p` at offset `from` into `buf`, as an offset into `buf`. */
  function StrChr(buf: seq<char>, from: nat, c: char): (r: Option<nat>)
    requires from <= |buf|
    ensures r.Some? ==> from <= r.value < from + Strlen(buf, from) && buf[r.value] == c
    ensures r.Some? ==> c !in buf[from..r.value]
    ensures r.None? <==> c !in CStr(buf[from..])
  {
    match IndexOf(CStr(buf[from..]), c)
    case None => None
    case Some(k) =>
      assert buf[from..][k] == buf[from + k];
      assert buf[from..from + k] == CStr(buf[from..])[..k];
      Some(from + k)
  }

  // ---------------------------------------------------------------------
  // atoi, as glibc computes it: strtol(s, NULL, 10) narrowed to int
  // ---------------------------------------------------------------------

  const LONG_MIN: int := -0x8000_0000_0000_0000
  const LONG_MAX: int := 0x7FFF_FFFF_FFFF_FFFF
  const INT_MIN: int := -0x8000_0000
  const INT_MAX: int := 0x7FFF_FFFF

  /** `isspace` in the C locale. */
  predicate IsSpace(c: char) {
    c == ' ' || c == '\t' || c == '\n' || c == '\r' || c as int == 11 || c as int == 12
  }

  predicate IsDigit(c: char) {
    '0' as int <= c as int <= '9' as int
  }

  function SkipSpaces(s: string): (t: string)
    ensures t == [] || !IsSpace(t[0])
    ensures |t| <= |s| && t == s[|s| - |t|..]
  {
    if s != [] && IsSpace(s[0]) then SkipSpaces(s[1..]) else s
  }

  /** The value of a numeral, most significant digit first. */
  function DigitsValue(ds: string): nat
    requires forall i :: 0 <= i < |ds| ==> IsDigit(ds[i])
  {
    if ds == [] then 0
    else
      assert IsDigit(ds[|ds| - 1]);
      DigitsValue(ds[..|ds| - 1]) * 10 + (ds[|ds| - 1] as int - '0' as int)
  }

  /** The digits at the front of `s` read one by one into `acc`, as `strtol` scans them. */
  function LeadingValue(s: string, acc: nat): nat
    decreases |s|
  {
    if s != [] && IsDigit(s[0]) then LeadingValue(s[1..], acc * 10 + (s[0] as int - '0' as int)) else acc
  }

  /** Scanning digits after a numeral `p` already read continues the numeral. */
  lemma {:induction false} LeadingValueExtends(p: string, ds: string)
    requires forall i :: 0 <= i < |p| ==> IsDigit(p[i])
    requires forall i :: 0 <= i < |ds| ==> IsDigit(ds[i])
    ensures LeadingValue(ds, DigitsValue(p)) == DigitsValue(p + ds)
    decreases |ds|
  {
    if ds == [] {
      assert p + ds == p;
    } else {
      var p' := p + [ds[0]];
      assert p'[..|p'| - 1] == p;
      assert DigitsValue(p') == DigitsValue(p) * 10 + (ds[0] as int - '0' as int);
      LeadingValueExtends(p', ds[1..]);
      assert p' + ds[1..] == p + ds;
    }
  }

  /**
   * `strtol(s, NULL, 10)` with a 64-bit `long`: leading white space is
   * skipped, then an optional sign and the digits after it are read, and a
   * value outside the `long` range saturates.
   */
  function Strtol(s: string): int
    decreases |s|
  {
    if s != [] && IsSpace(s[0]) then Strtol(s[1..])
    else
      var negative := s != [] && s[0] == '-';
      var u := if s != [] && (s[0] == '-' || s[0] == '+') then s[1..] else s;
      var v: int := LeadingValue(u, 0);
      if negative then (if -v < LONG_MIN then LONG_MIN else -v)
      else (if v > LONG_MAX then LONG_MAX else v)
  }

  /** Conversion of a `long` to a 32-bit `int` (two's complement, as gcc defines it). */
  function ToInt32(x: int): (r: int)
    ensures INT_MIN <= r <= INT_MAX
    ensures INT_MIN <= x <= INT_MAX ==> r == x
  {
    if INT_MIN <= x <= INT_MAX then x else (x - INT_MIN) % 0x1_0000_0000 + INT_MIN
  }

  /** The narrowing keeps the value modulo 2^32. */
  lemma {:induction false} ToInt32Congruent(x: int)
    ensures (x - ToInt32(x)) % 0x1_0000_0000 == 0
  {
    if !(INT_MIN <= x <= INT_MAX) {
      var q := (x - INT_MIN) / 0x1_0000_0000;
      assert x - INT_MIN == q * 0x1_0000_0000 + (x - INT_MIN) % 0x1_0000_0000;
      assert x - ToInt32(x) == q * 0x1_0000_0000;
    }
  }

  /**
   * `atoi(s)` as glibc computes it, `(int) strtol(s, NULL, 10)`: the `long`
   * read is narrowed to a 32-bit `int`. Leading white space, which `strtol`
   * skips anyway, is stepped over here one character at a time.
   */
  function Atoi(s: string): (r: int)
    ensures INT_MIN <= r <= INT_MAX
    decreases |s|
  {
    if s != [] && IsSpace(s[0]) then Atoi(s[1..]) else ToInt32(Strtol(s))
  }

  /** `atoi` is `strtol` narrowed to `int`. */
  lemma {:induction false} AtoiIsNarrowedStrtol(s: string)
    ensures Atoi(s) == ToInt32(Strtol(s))
    decreases |s|
  {
    if s != [] && IsSpace(s[0]) {
      AtoiIsNarrowedStrtol(s[1..]);
    }
  }

  /** White space in front of the number does not change what `strtol` reads. */
  lemma {:induction false} StrtolSkipsSpaces(s: string)
    ensures Strtol(s) == Strtol(SkipSpaces(s))
    decreases |s|
  {
    if s != [] && IsSpace(s[0]) {
      StrtolSkipsSpaces(s[1..]);
    }
  }

  /** `atoi` reads no further than the first character that cannot continue a number. */
  lemma {:induction false} AtoiNoDigits(s: string)
    requires var t := SkipSpaces(s); t == [] || (!IsDigit(t[0]) && t[0] != '-' && t[0] != '+')
    ensures Atoi(s) == 0
  {
    AtoiIsNarrowedStrtol(s);
    StrtolSkipsSpaces(s);
  }

  /** `strtol` on text that starts with a digit reads the leading digits and nothing else. */
  lemma {:induction false} StrtolUnsigned(s: string)
    requires s != [] && IsDigit(s[0])
    ensures Strtol(s) == if LeadingValue(s, 0) > LONG_MAX then LONG_MAX else LeadingValue(s, 0)
  {
  }

  /** On a plain decimal numeral that fits in an `int`, `atoi` is its value. */
  lemma {:induction false} AtoiDecimal(ds: string)
    requires ds != [] && forall i :: 0 <= i < |ds| ==> IsDigit(ds[i])
    requires DigitsValue(ds) <= INT_MAX
    ensures Atoi(ds) == DigitsValue(ds)
  {
    LeadingValueExtends([], ds);
    assert [] + ds == ds;
    StrtolUnsigned(ds);
    AtoiIsNarrowedStrtol(ds);
  }
}
