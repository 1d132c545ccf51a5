/**
 * The layer settings file reader (`PrintSettingsJsonInfo`) and the
 * whitespace trimmer it uses. Each line of the form `layer.setting = value`
 * becomes a (setting, value) pair in the bucket of its layer; the buckets keep
 * their pairs in file order.
 */
module Settings {
  import opened Wrappers
  import opened CText

  /** The default whitespace set of `TrimWhitespace`. */
  const DefaultWhitespace: string := " \t\n\r"

  /** The bucket of a key that names no layer. */
  const NoLayer: string := "--None--"

  /** `find_first_not_of(ws)`. */
  function FindFirstNotOf(s: string, ws: string): (r: Option<nat>)
    ensures r.None? <==> forall i :: 0 <= i < |s| ==> s[i] in ws
    ensures r.Some? ==> r.value < |s| && s[r.value] !in ws && forall i :: 0 <= i < r.value ==> s[i] in ws
  {
    if s == [] then None
    else if s[0] !in ws then Some(0)
    else
      var r := FindFirstNotOf(s[1..], ws);
      assert forall i :: 1 <= i < |s| ==> s[i] == s[1..][i - 1];
      if r.None? then None else Some(r.value + 1)
  }

  /** `find_last_not_of(ws)`. */
  function FindLastNotOf(s: string, ws: string): (r: Option<nat>)
    ensures r.None? <==> forall i :: 0 <= i < |s| ==> s[i] in ws
    ensures r.Some? ==> r.value < |s| && s[r.value] !in ws && forall i :: r.value < i < |s| ==> s[i] in ws
  {
    if s == [] then None
    else if s[|s| - 1] !in ws then Some(|s| - 1)
    else
      var r := FindLastNotOf(s[..|s| - 1], ws);
      assert forall i :: 0 <= i < |s| - 1 ==> s[i] == s[..|s| - 1][i];
      r
  }

  /** `TrimWhitespace(str, whitespace)`. */
  function TrimWhitespace(s: string, ws: string): (r: string)
    ensures r == [] <==> forall i :: 0 <= i < |s| ==> s[i] in ws
    ensures r != [] ==> r[0] !in ws && r[|r| - 1] !in ws
  {
    match FindFirstNotOf(s, ws)
    case None => ""
    case Some(b) =>
      var e := FindLastNotOf(s, ws).value;
      s[b..e + 1]
  }

  function Trim(s: string): string {
    TrimWhitespace(s, DefaultWhitespace)
  }

  /**
   * The trimmed text is one contiguous piece of the input, and what was cut
   * off on either side is whitespace only.
   */
  lemma {:induction false} TrimIsInnerSlice(s: string, ws: string)
    ensures exists i, j :: 0 <= i <= j <= |s| && TrimWhitespace(s, ws) == s[i..j]
              && (forall k :: 0 <= k < i ==> s[k] in ws) && (forall k :: j <= k < |s| ==> s[k] in ws)
  {
    match FindFirstNotOf(s, ws)
    case None =>
      assert TrimWhitespace(s, ws) == s[0..0];
    case Some(b) =>
      var e := FindLastNotOf(s, ws).value;
      assert b <= e;
      assert TrimWhitespace(s, ws) == s[b..e + 1];
  }

  /** Trimming twice is trimming once. */
  lemma {:induction false} TrimIdempotent(s: string, ws: string)
    ensures TrimWhitespace(TrimWhitespace(s, ws), ws) == TrimWhitespace(s, ws)
  {
    var r := TrimWhitespace(s, ws);
    if r != [] {
      assert FindFirstNotOf(r, ws) == Some(0);
      assert FindLastNotOf(r, ws) == Some(|r| - 1);
      assert r[0..|r|] == r;
    }
  }

  // ---------------------------------------------------------------------
  // One line
  // ---------------------------------------------------------------------

  datatype SettingPair = SettingPair(name: string, value: string)

  /** The bucket and setting name a trimmed key splits into at its first '.'. */
  function SplitKey(key: string): (string, string) {
    match IndexOf(key, '.')
    case None => (NoLayer, key)
    case Some(dot) => (key[..dot], key[dot + 1..])
  }

  /** The bucket and pair a line contributes, or None for a line the reader skips. */
  function ParseLine(line: string): Option<(string, SettingPair)> {
    var t := Trim(line);
    if |t| == 0 || t[0] == '#' then None
    else
      match IndexOf(t, '=')
      case None => None
      case Some(eq) =>
        var (bucket, name) := SplitKey(Trim(t[..eq]));
        Some((bucket, SettingPair(name, Trim(t[eq + 1..]))))
  }

  /**
   * The key is rebuilt from bucket and name: `layer.name` with a dot-free
   * layer, or a dot-free name in the `--None--` bucket.
   */
  lemma {:induction false} SplitKeyRebuilds(key: string)
    ensures var (bucket, name) := SplitKey(key);
            if '.' in key then '.' !in bucket && bucket + "." + name == key
            else bucket == NoLayer && name == key
    ensures key != [] && key[0] == '.' ==> SplitKey(key).0 == ""
  {
    match IndexOf(key, '.')
    case None =>
    case Some(dot) =>
      assert key == key[..dot] + "." + key[dot + 1..];
  }

  /** Trimming never brings in a character the text did not have. */
  lemma {:induction false} TrimKeepsOut(s: string, ws: string, c: char)
    requires c !in s
    ensures c !in TrimWhitespace(s, ws)
  {
    TrimIsInnerSlice(s, ws);
    var i, j :| 0 <= i <= j <= |s| && TrimWhitespace(s, ws) == s[i..j];
    assert forall k :: 0 <= k < j - i ==> s[i..j][k] == s[i + k];
  }

  lemma {:induction false} SplitKeyKeepsOut(key: string, c: char)
    requires c !in key && c !in NoLayer
    ensures c !in SplitKey(key).0 && c !in SplitKey(key).1
  {
    match IndexOf(key, '.')
    case None =>
    case Some(dot) =>
      assert forall k :: 0 <= k < dot ==> key[..dot][k] == key[k];
      var name := key[dot + 1..];
      assert forall k :: 0 <= k < |name| ==> name[k] == key[dot + 1 + k];
  }

  /**
   * A line is skipped exactly when it is blank or a comment after trimming or
   * has no '='. Otherwise the value is the trimmed text after the first '=',
   * the key is the trimmed text before it, and neither bucket nor name holds '='.
   */
  lemma {:induction false} ParseLineMeaning(line: string)
    ensures var t := Trim(line);
            ParseLine(line).None? <==> (t == [] || t[0] == '#' || '=' !in t)
    ensures ParseLine(line).Some? ==>
              var t := Trim(line);
              var eq := IndexOf(t, '=').value;
              var (bucket, pair) := ParseLine(line).value;
              && (bucket, pair.name) == SplitKey(Trim(t[..eq]))
              && pair.value == Trim(t[eq + 1..])
              && '=' !in bucket && '=' !in pair.name
  {
    var t := Trim(line);
    if t != [] && t[0] != '#' && '=' in t {
      var eq := IndexOf(t, '=').value;
      TrimKeepsOut(t[..eq], DefaultWhitespace, '=');
      SplitKeyKeepsOut(Trim(t[..eq]), '=');
    }
  }

  /** What a line reads as: skipped, or a pair for a bucket. */
  type Parsed = Option<(string, SettingPair)>

  /** What each line reads as, in file order. */
  function ParsedLines(lines: seq<string>): seq<Parsed> {
    seq(|lines|, i requires 0 <= i < |lines| => ParseLine(lines[i]))
  }

  /** The pair a read line puts in `bucket`: none, or one. */
  function Contribution(p: Parsed, bucket: string): seq<SettingPair> {
    match p
    case Some((b, pair)) => if b == bucket then [pair] else []
    case None => []
  }

  /** The pairs the read lines put in `bucket`, in file order. */
  function Entries(parsed: seq<Parsed>, bucket: string): seq<SettingPair>
    decreases |parsed|
  {
    if parsed == [] then [] else Contribution(parsed[0], bucket) + Entries(parsed[1..], bucket)
  }

  lemma {:induction false} EntriesSnoc(parsed: seq<Parsed>, p: Parsed, bucket: string)
    ensures Entries(parsed + [p], bucket) == Entries(parsed, bucket) + Contribution(p, bucket)
    decreases |parsed|
  {
    if parsed == [] {
      assert [] + [p] == [p];
    } else {
      assert (parsed + [p])[1..] == parsed[1..] + [p];
      EntriesSnoc(parsed[1..], p, bucket);
    }
  }

  /** `settings` groups the pairs of the read lines by bucket, in file order. */
  ghost predicate Grouped(settings: map<string, seq<SettingPair>>, parsed: seq<Parsed>) {
    && (forall b :: b in settings <==> Entries(parsed, b) != [])
    && (forall b :: b in settings ==> settings[b] == Entries(parsed, b))
  }

  lemma {:induction false} SkippedLineKeepsGrouping(settings: map<string, seq<SettingPair>>, parsed: seq<Parsed>)
    requires Grouped(settings, parsed)
    ensures Grouped(settings, parsed + [None])
  {
    forall b ensures Entries(parsed + [None], b) == Entries(parsed, b) {
      EntriesSnoc(parsed, None, b);
    }
  }

  lemma {:induction false} AppendedPairKeepsGrouping(settings: map<string, seq<SettingPair>>, parsed: seq<Parsed>,
                                  bucket: string, pair: SettingPair)
    requires Grouped(settings, parsed)
    ensures bucket !in settings ==> Grouped(settings[bucket := [pair]], parsed + [Some((bucket, pair))])
    ensures bucket in settings ==> Grouped(settings[bucket := settings[bucket] + [pair]], parsed + [Some((bucket, pair))])
  {
    var p := Some((bucket, pair));
    var old_ := if bucket in settings then settings[bucket] else [];
    assert [] + [pair] == [pair];
    var m := settings[bucket := old_ + [pair]];
    forall b
      ensures b in m <==> Entries(parsed + [p], b) != []
      ensures b in m ==> m[b] == Entries(parsed + [p], b)
    {
      EntriesSnoc(parsed, p, b);
      if b == bucket {
        assert Contribution(p, b) == [pair];
        assert old_ == Entries(parsed, b);
      } else {
        assert Contribution(p, b) == [];
        assert Entries(parsed + [p], b) == Entries(parsed, b);
      }
    }
  }

  lemma {:induction false} ParseLineOfSetting(line: string, eq: nat)
    requires var t := Trim(line); t != [] && t[0] != '#' && IndexOf(t, '=') == Some(eq)
    ensures var t := Trim(line);
            var (bucket, name) := SplitKey(Trim(t[..eq]));
            ParseLine(line) == Some((bucket, SettingPair(name, Trim(t[eq + 1..]))))
  {
  }

  /** `settings` after one more line has been read. */
  function AddLine(settings: map<string, seq<SettingPair>>, p: Parsed): map<string, seq<SettingPair>> {
    match p
    case None => settings
    case Some((bucket, pair)) =>
      if bucket !in settings then settings[bucket := [pair]]
      else settings[bucket := settings[bucket] + [pair]]
  }

  /** The buckets after reading the lines in order, starting from none. */
  function ReadLines(parsed: seq<Parsed>): map<string, seq<SettingPair>>
    decreases |parsed|
  {
    if parsed == [] then map[] else AddLine(ReadLines(parsed[..|parsed| - 1]), parsed[|parsed| - 1])
  }

  lemma {:induction false} ReadLinesStep(parsed: seq<Parsed>, k: nat)
    requires k < |parsed|
    ensures ReadLines(parsed[..k + 1]) == AddLine(ReadLines(parsed[..k]), parsed[k])
  {
    assert parsed[..k + 1][..k] == parsed[..k];
  }

  /** Reading the lines one by one groups their pairs by bucket, in file order. */
  lemma {:induction false} ReadLinesGroups(parsed: seq<Parsed>)
    ensures Grouped(ReadLines(parsed), parsed)
    decreases |parsed|
  {
    if parsed != [] {
      var front, last := parsed[..|parsed| - 1], parsed[|parsed| - 1];
      ReadLinesGroups(front);
      assert parsed == front + [last];
      match last
      case None =>
        SkippedLineKeepsGrouping(ReadLines(front), front);
      case Some((bucket, pair)) =>
        AppendedPairKeepsGrouping(ReadLines(front), front, bucket, pair);
    }
  }

  /**
   * The body of the settings-file loop up to the map update: trim the line,
   * skip blanks, comments and lines without '=', and split the key at its
   * first '.' into layer and setting name.
   */
  method ParseSettingLine(curLine: string) returns (parsed: Option<(string, SettingPair)>)
    ensures parsed == ParseLine(curLine)
  {
    var trimmedLine := Trim(curLine);
    // Skip blank and comment lines.
    if |trimmedLine| == 0 || trimmedLine[0] == '#' {
      return None;
    }
    // A line without '=' is not a setting.
    var equalLoc := IndexOf(trimmedLine, '=');
    if equalLoc.None? {
      return None;
    }
    var beforeEqual := trimmedLine[..equalLoc.value];
    var afterEqual := trimmedLine[equalLoc.value + 1..];
    var newPair := SettingPair("", Trim(afterEqual));
    var trimmedSetting := Trim(beforeEqual);

    var settingLayer := NoLayer;
    var periodLoc := IndexOf(trimmedSetting, '.');
    if periodLoc.None? {
      newPair := newPair.(name := trimmedSetting);
    } else {
      settingLayer := trimmedSetting[..periodLoc.value];
      newPair := newPair.(name := trimmedSetting[periodLoc.value + 1..]);
    }
    assert SplitKey(trimmedSetting) == (settingLayer, newPair.name);
    ParseLineOfSetting(curLine, equalLoc.value);
    parsed := Some((settingLayer, newPair));
  }

  /**
   * The settings-file loop of `PrintSettingsJsonInfo`. `content` is the text of
   * the file, or None when it cannot be opened (not an error: nothing is read).
   * Every bucket that some line names maps to that bucket's pairs in file
   * order, and no other bucket is present.
   */
  method ReadSettingsFile(content: Option<string>) returns (isOpen: bool, settings: map<string, seq<SettingPair>>)
    ensures isOpen <==> content.Some?
    ensures !isOpen ==> settings == map[]
    ensures isOpen ==> forall b :: b in settings <==> Entries(ParsedLines(Split(content.value, '\n')), b) != []
    ensures isOpen ==> forall b :: b in settings ==> settings[b] == Entries(ParsedLines(Split(content.value, '\n')), b)
  {
    settings := map[];
    isOpen := content.Some?;
    if !isOpen {
      return;
    }
    // The lines `getline` returns while the stream stays good.
    var lines := Split(content.value, '\n');
    ghost var parsedLines := ParsedLines(lines);
    var k := 0;
    while k < |lines|
      invariant 0 <= k <= |lines|
      invariant settings == ReadLines(parsedLines[..k])
    {
      ReadLinesStep(parsedLines, k);
      var parsed := ParseSettingLine(lines[k]);
      if parsed.Some? {
        var (settingLayer, newPair) := parsed.value;
        if settingLayer !in settings {
          settings := settings[settingLayer := [newPair]];
        } else {
          settings := settings[settingLayer := settings[settingLayer] + [newPair]];
        }
      }
      k := k + 1;
    }
    assert parsedLines[..k] == parsedLines;
    ReadLinesGroups(parsedLines);
  }
}
