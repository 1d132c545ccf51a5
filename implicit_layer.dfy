/**
 * Whether an implicit layer is in use (`PrintImplicitLayerJsonInfo` and
 * `checkExpiration`): an enable variable that must be set to a non-zero
 * number when the manifest names one, a disable variable that switches the
 * layer off when set to a positive number, and an optional expiration date
 * `YYYY-MM-DD-HH-MM` compared field by field with the current time. The
 * manifest's `override_paths` are appended to a list the caller owns.
 */
module ImplicitLayer {
  import opened Wrappers
  import opened CText
  import opened Json
  import opened Platform
  import ExplicitLayer

  // ---------------------------------------------------------------------
  // Dates
  // ---------------------------------------------------------------------

  /** `override_expiration`, and the current time it is compared with. */
  datatype Stamp = Stamp(year: nat, month: nat, day: nat, hour: nat, minute: nat)

  const ZeroStamp: Stamp := Stamp(0, 0, 0, 0, 0)

  /** Each field fits the unsigned width it is stored in: 16 bits for the year, 8 for the others. */
  predicate Fits(t: Stamp) {
    t.year < 0x1_0000 && t.month < 0x100 && t.day < 0x100 && t.hour < 0x100 && t.minute < 0x100
  }

  /** Field `k`, counting year, month, day, hour, minute from 0. */
  function Field(t: Stamp, k: nat): nat
    requires k < 5
  {
    match k
    case 0 => t.year
    case 1 => t.month
    case 2 => t.day
    case 3 => t.hour
    case _ => t.minute
  }

  /** An `int` stored into field `k`: reduced modulo 2^16 for the year and 2^8 for the others. */
  function Narrow(k: nat, v: int): (r: nat)
    ensures k == 0 ==> r < 0x1_0000
    ensures k != 0 ==> r < 0x100
  {
    if k == 0 then v % 0x1_0000 else v % 0x100
  }

  /** Strict chronological order: the first field that differs decides. */
  predicate Before(a: Stamp, b: Stamp) {
    a.year < b.year
    || (a.year == b.year && a.month < b.month)
    || (a.year == b.year && a.month == b.month && a.day < b.day)
    || (a.year == b.year && a.month == b.month && a.day == b.day && a.hour < b.hour)
    || (a.year == b.year && a.month == b.month && a.day == b.day && a.hour == b.hour && a.minute < b.minute)
  }

  /**
   * `checkExpiration`: the expiration counts as still valid when ANY of its
   * fields exceeds the same field of the current time.
   */
  function CheckExpiration(expiration: Stamp, now: Stamp): (stillValid: bool) {
    expiration.year > now.year || expiration.month > now.month || expiration.day > now.day
    || expiration.hour > now.hour || expiration.minute > now.minute
  }

  /** The check fails exactly when no field of the expiration exceeds the current one. */
  lemma {:induction false} CheckExpirationFails(expiration: Stamp, now: Stamp)
    ensures !CheckExpiration(expiration, now) <==> forall k :: 0 <= k < 5 ==> Field(expiration, k) <= Field(now, k)
  {
    if forall k :: 0 <= k < 5 ==> Field(expiration, k) <= Field(now, k) {
      assert Field(expiration, 0) <= Field(now, 0) && Field(expiration, 1) <= Field(now, 1);
      assert Field(expiration, 2) <= Field(now, 2) && Field(expiration, 3) <= Field(now, 3);
      assert Field(expiration, 4) <= Field(now, 4);
    }
  }

  /** An expiration that really lies ahead of the current time is always taken as still valid. */
  lemma {:induction false} LaterExpirationIsStillValid(expiration: Stamp, now: Stamp)
    requires Before(now, expiration)
    ensures CheckExpiration(expiration, now)
  {
  }

  /** The comparison is not chronological: an expiration years in the past still counts as valid. */
  lemma {:induction false} PastExpirationCanCountAsValid()
    ensures var expiration, now := Stamp(2020, 12, 1, 0, 0), Stamp(2026, 10, 15, 12, 0);
      Before(expiration, now) && CheckExpiration(expiration, now)
  {
  }

  // ---------------------------------------------------------------------
  // Reading `YYYY-MM-DD-HH-MM`
  // ---------------------------------------------------------------------

  /** Field `k` set from the number `v`, narrowed to the field's width. */
  function SetField(t: Stamp, k: nat, v: int): (r: Stamp)
    requires k < 5
    ensures Field(r, k) == Narrow(k, v)
    ensures forall j :: 0 <= j < 5 && j != k ==> Field(r, j) == Field(t, j)
  {
    match k
    case 0 => t.(year := Narrow(0, v))
    case 1 => t.(month := Narrow(1, v))
    case 2 => t.(day := Narrow(2, v))
    case 3 => t.(hour := Narrow(3, v))
    case _ => t.(minute := Narrow(4, v))
  }

  /**
   * The parse as the program performs it, from the remaining text `rest` of
   * the date on, with `item` fields read into `acc`: while fewer than five
   * fields are read and text remains, the text up to the next dash (or all
   * of it, when no dash is left) goes into the next field, and the reading
   * moves past the dash (or stays where it is).
   */
  function ReadFrom(rest: string, item: nat, acc: Stamp): Stamp
    decreases 5 - item
  {
    if item >= 5 || rest == [] then acc
    else match IndexOf(rest, '-')
      case Some(i) => ReadFrom(rest[i + 1..], item + 1, SetField(acc, item, Atoi(rest[..i])))
      case None => ReadFrom(rest, item + 1, SetField(acc, item, Atoi(rest)))
  }

  /** The expiration the program reads from a 16-character date; a date without a dash is not read at all. */
  function ExpirationOf(date: string): Stamp {
    if '-' !in date then ZeroStamp else ReadFrom(date, 0, ZeroStamp)
  }

  /**
   * The number field `k` of a date receives, stated piece by piece: field k
   * takes the k-th dash-separated piece while a dash follows it, and every
   * field from the last piece on takes that last piece again, or 0 when the
   * last piece is empty. Nothing is read from a date without a dash.
   */
  function FieldValue(date: string, k: nat): int {
    var parts := Split(date, '-');
    var last := |parts| - 1;
    if '-' !in date then 0
    else if k < last then Atoi(parts[k])
    else if parts[last] == [] then 0
    else Atoi(parts[last])
  }

  /** Field `k` once the first `m` fields are read: its number if read, 0 otherwise. */
  function ReadField(date: string, m: nat, k: nat): nat {
    if k < m then Narrow(k, FieldValue(date, k)) else 0
  }

  /** The expiration once the first `m` fields are read. */
  function Partial(date: string, m: nat): Stamp {
    Stamp(ReadField(date, m, 0), ReadField(date, m, 1), ReadField(date, m, 2), ReadField(date, m, 3), ReadField(date, m, 4))
  }

  lemma {:induction false} PartialStep(date: string, m: nat)
    requires m < 5
    ensures SetField(Partial(date, m), m, FieldValue(date, m)) == Partial(date, m + 1)
  {
    var v := FieldValue(date, m);
    var p := Partial(date, m);
    var q := Partial(date, m + 1);
    assert ReadField(date, m + 1, m) == Narrow(m, v);
    if m == 0 {
      assert SetField(p, 0, v) == p.(year := Narrow(0, v));
    } else if m == 1 {
      assert SetField(p, 1, v) == p.(month := Narrow(1, v));
    } else if m == 2 {
      assert SetField(p, 2, v) == p.(day := Narrow(2, v));
    } else if m == 3 {
      assert SetField(p, 3, v) == p.(hour := Narrow(3, v));
    } else {
      assert SetField(p, 4, v) == p.(minute := Narrow(4, v));
    }
  }

  /** When every field from `m` on reads 0, stopping after `m` fields gives all five. */
  lemma {:induction false} PartialStops(date: string, m: nat)
    requires m <= 5 && forall j :: m <= j < 5 ==> FieldValue(date, j) == 0
    ensures Partial(date, m) == Partial(date, 5)
  {
    assert m <= 0 ==> FieldValue(date, 0) == 0;
    assert m <= 1 ==> FieldValue(date, 1) == 0;
    assert m <= 2 ==> FieldValue(date, 2) == 0;
    assert m <= 3 ==> FieldValue(date, 3) == 0;
    assert m <= 4 ==> FieldValue(date, 4) == 0;
  }

  /** The piece before the first dash of `rest` is piece `seg`, and the pieces after it follow. */
  lemma {:induction false} PieceAtDash(rest: string, i: nat, parts: seq<string>, seg: nat)
    requires IndexOf(rest, '-') == Some(i)
    requires seg <= |parts| && Split(rest, '-') == parts[seg..]
    ensures seg < |parts| - 1 && parts[seg] == rest[..i]
    ensures Split(rest[i + 1..], '-') == parts[seg + 1..]
  {
    assert parts[seg..] == [rest[..i]] + Split(rest[i + 1..], '-');
    assert parts[seg + 1..] == parts[seg..][1..];
  }

  /**
   * Reading on through `rest`, the pieces of the date from piece `min(k, last)`
   * on, with `k` fields read, completes the piece-by-piece fields.
   */
  lemma {:induction false} ReadFromPieces(date: string, parts: seq<string>, rest: string, k: nat)
    requires '-' in date && parts == Split(date, '-') && k <= 5
    requires Split(rest, '-') == parts[if k < |parts| - 1 then k else |parts| - 1..]
    ensures ReadFrom(rest, k, Partial(date, k)) == Partial(date, 5)
    decreases 5 - k
  {
    var last := |parts| - 1;
    if k == 5 {
    } else if rest == [] {
      assert Split(rest, '-') == [[]];
      assert k >= last && parts[last] == [];
      PartialStops(date, k);
    } else {
      PartialStep(date, k);
      match IndexOf(rest, '-')
      case Some(i) =>
        PieceAtDash(rest, i, parts, if k < last then k else last);
        assert k < last && parts[k] == rest[..i];
        assert FieldValue(date, k) == Atoi(rest[..i]);
        assert (if k + 1 < last then k + 1 else last) == k + 1;
        ReadFromPieces(date, parts, rest[i + 1..], k + 1);
      case None =>
        assert Split(rest, '-') == [rest];
        assert k >= last && rest == parts[last];
        assert FieldValue(date, k) == Atoi(rest);
        ReadFromPieces(date, parts, rest, k + 1);
    }
  }

  /** Every field of the expiration is the number the piece-by-piece description gives it. */
  lemma {:induction false} ExpirationFields(date: string)
    ensures ExpirationOf(date) == Partial(date, 5)
    ensures Fits(ExpirationOf(date))
  {
    if '-' in date {
      ReadFromPieces(date, Split(date, '-'), date, 0);
    }
  }

  /** The fields read from a date made of the given pieces joined by dashes. */
  lemma {:induction false} PiecesGiveFields(pieces: seq<string>)
    requires 2 <= |pieces| && forall i :: 0 <= i < |pieces| ==> '-' !in pieces[i]
    ensures var date := Join(pieces, '-'); '-' in date && Split(date, '-') == pieces
  {
    JoinSplitRoundTrip(pieces, '-');
    SplitPieces(Join(pieces, '-'), '-');
  }

  /** A date written out in full, `YYYY-MM-DD-HH-MM`, gives each piece to its own field. */
  lemma {:induction false} DashedDateFields(pieces: seq<string>)
    requires |pieces| == 5 && forall i :: 0 <= i < 5 ==> '-' !in pieces[i]
    requires pieces[4] != []
    ensures ExpirationOf(Join(pieces, '-'))
      == Stamp(Narrow(0, Atoi(pieces[0])), Narrow(1, Atoi(pieces[1])), Narrow(2, Atoi(pieces[2])),
               Narrow(3, Atoi(pieces[3])), Narrow(4, Atoi(pieces[4])))
  {
    PiecesGiveFields(pieces);
    ExpirationFields(Join(pieces, '-'));
  }

  /** A date of two pieces repeats its second piece in every field after the year. */
  lemma {:induction false} ShortDateRepeatsLastPiece(year: string, month: string)
    requires '-' !in year && '-' !in month && month != []
    ensures var e := ExpirationOf(Join([year, month], '-'));
      e.year == Narrow(0, Atoi(year)) && e.month == Narrow(1, Atoi(month))
      && e.day == e.month && e.hour == e.month && e.minute == e.month
  {
    PiecesGiveFields([year, month]);
    ExpirationFields(Join([year, month], '-'));
  }

  /** The unread part of the copy still holds the date, then the padding NULs. */
  predicate IntactFrom(buf: seq<char>, date: string, from: nat) {
    |buf| == 32 && |date| < 32
    && forall i :: from <= i < 32 ==> buf[i] == (if i < |date| then date[i] else '\0')
  }

  lemma {:induction false} ReadIntact(buf: seq<char>, date: string, from: nat)
    requires NoNul(date) && from <= |date| && IntactFrom(buf, date, from)
    ensures CStr(buf[from..]) == date[from..]
  {
    assert buf[from..] == date[from..] + ['\0'] + buf[|date| + 1..];
    CStrStopsAtNul(date[from..], buf[|date| + 1..]);
  }

  /** Overwriting the dash with NUL ends the C string at the dash and leaves the rest unread. */
  lemma {:induction false} ReadAfterNul(buf: seq<char>, date: string, from: nat, dash: nat)
    requires NoNul(date) && from <= dash < |date| && IntactFrom(buf, date, from)
    ensures CStr(buf[dash := '\0'][from..]) == date[from..dash]
    ensures IntactFrom(buf[dash := '\0'], date, dash + 1)
  {
    var b := buf[dash := '\0'];
    assert b[from..] == date[from..dash] + ['\0'] + b[dash + 1..];
    CStrStopsAtNul(date[from..dash], b[dash + 1..]);
  }

  /** An offset found in the rest of a string, as an offset into the whole string. */
  function Shift(r: Option<nat>, offset: nat): Option<nat> {
    match r
    case None => None
    case Some(i) => Some(i + offset)
  }

  /** The reading at a dash: the text before it fills field `k`, and the reading resumes after it. */
  lemma {:induction false} ReadAtDash(rest: string, i: nat, k: nat, e: Stamp)
    requires IndexOf(rest, '-') == Some(i) && k < 5
    ensures ReadFrom(rest, k, e) == ReadFrom(rest[i + 1..], k + 1, SetField(e, k, Atoi(rest[..i])))
  {
  }

  /** `strchr` on the intact part of the copy finds the date's next dash. */
  lemma {:induction false} StrChrIntact(buf: seq<char>, date: string, from: nat)
    requires NoNul(date) && from <= |date| && IntactFrom(buf, date, from)
    ensures StrChr(buf, from, '-') == Shift(IndexOf(date[from..], '-'), from)
  {
    ReadIntact(buf, date, from);
  }

  /**
   * Overwriting the dash ahead: the C string from the start now ends at the
   * dash, the copy holds the date after it, and the next `strchr` starts there.
   */
  lemma {:induction false} StepAtDash(buf: seq<char>, date: string, from: nat, dash: nat)
    requires NoNul(date) && from <= |date| && IntactFrom(buf, date, from)
    requires Shift(IndexOf(date[from..], '-'), from) == Some(dash)
    ensures from <= dash < |date|
    ensures CStr(buf[dash := '\0'][from..]) == date[from..][..dash - from]
    ensures date[from..][dash - from + 1..] == date[dash + 1..]
    ensures IntactFrom(buf[dash := '\0'], date, dash + 1)
    ensures StrChr(buf[dash := '\0'], dash + 1, '-') == Shift(IndexOf(date[dash + 1..], '-'), dash + 1)
  {
    assert from <= dash < |date|;
    SuffixSlices(date, from, dash);
    ReadAfterNul(buf, date, from, dash);
    StrChrIntact(buf[dash := '\0'], date, dash + 1);
  }

  /** One round of the loop on the last piece: `atoi` reads all of it, and the start stays put. */
  lemma {:induction false} StepAtLastPiece(buf: seq<char>, date: string, from: nat, k: nat, e: Stamp)
    requires NoNul(date) && from < |date| && IntactFrom(buf, date, from) && k < 5
    requires IndexOf(date[from..], '-') == None
    ensures ReadFrom(date[from..], k, e) == ReadFrom(date[from..], k + 1, SetField(e, k, Atoi(CStr(buf[from..]))))
  {
    ReadIntact(buf, date, from);
  }

  /** The `switch` on `curItem`: the number `atoi` reads from `field` goes into field `item`. */
  method StoreField(expiration: Stamp, item: nat, field: string) returns (r: Stamp)
    requires item < 5
    ensures r == SetField(expiration, item, Atoi(field))
  {
    r := expiration;
    match item {
      case 0 => r := r.(year := Atoi(field) % 0x1_0000);
      case 1 => r := r.(month := Atoi(field) % 0x100);
      case 2 => r := r.(day := Atoi(field) % 0x100);
      case 3 => r := r.(hour := Atoi(field) % 0x100);
      case 4 => r := r.(minute := Atoi(field) % 0x100);
    }
  }

  /**
   * Where the parse loop stands: the copy still holds the date from `start`
   * on, `nextDash` is the next dash from there, and reading on from `start`
   * with `item` fields in `e` gives `goal` (the expiration of the date).
   */
  ghost predicate Scanning(buf: seq<char>, date: string, start: nat, item: nat, nextDash: Option<nat>, e: Stamp, goal: Stamp) {
    NoNul(date) && item <= 5 && start <= |date|
    && IntactFrom(buf, date, start)
    && nextDash == Shift(IndexOf(date[start..], '-'), start)
    && ReadFrom(date[start..], item, e) == goal
  }

  /** A round with a dash ahead keeps the loop's standing, one field further on. */
  lemma {:induction false} RoundAtDash(buf: seq<char>, date: string, start: nat, item: nat, dash: nat, e: Stamp, goal: Stamp)
    requires Scanning(buf, date, start, item, Some(dash), e, goal) && item < 5
    ensures dash < |buf|
    ensures var b := buf[dash := '\0'];
      Scanning(b, date, dash + 1, item + 1, StrChr(b, dash + 1, '-'), SetField(e, item, Atoi(CStr(b[start..]))), goal)
  {
    StepAtDash(buf, date, start, dash);
    ReadAtDash(date[start..], dash - start, item, e);
  }

  /** A round on the last piece keeps the loop's standing, one field further on. */
  lemma {:induction false} RoundAtLastPiece(buf: seq<char>, date: string, start: nat, item: nat, e: Stamp, goal: Stamp)
    requires Scanning(buf, date, start, item, None, e, goal) && item < 5 && Strlen(buf, start) > 0
    ensures Scanning(buf, date, start, item + 1, None, SetField(e, item, Atoi(CStr(buf[start..]))), goal)
  {
    ReadIntact(buf, date, start);
    StepAtLastPiece(buf, date, start, item, e);
  }

  /**
   * One pass of the parse loop's body: the dash ahead, if any, is overwritten
   * by NUL so that `atoi` stops there, the field picked by `curItem` receives
   * the number, and the scan moves past the dash; with no dash left the start
   * stays where it is.
   */
  method ParseRound(dateCopy: array<char>, ghost date: string, curStart: nat, curItem: nat, nextDash: Option<nat>, expiration: Stamp,
                   ghost goal: Stamp)
    returns (nextStart: nat, following: Option<nat>, updated: Stamp)
    requires Scanning(dateCopy[..], date, curStart, curItem, nextDash, expiration, goal)
    requires curItem < 5 && Strlen(dateCopy[..], curStart) > 0
    modifies dateCopy
    ensures Scanning(dateCopy[..], date, nextStart, curItem + 1, following, updated, goal)
  {
    if nextDash.Some? {
      RoundAtDash(dateCopy[..], date, curStart, curItem, nextDash.value, expiration, goal);
      ghost var buf := dateCopy[..];
      dateCopy[nextDash.value] := '\0';
      assert dateCopy[..] == buf[nextDash.value := '\0'];
      updated := StoreField(expiration, curItem, CStr(dateCopy[curStart..]));
      nextStart := nextDash.value + 1;
      following := StrChr(dateCopy[..], nextStart, '-');
    } else {
      RoundAtLastPiece(dateCopy[..], date, curStart, curItem, expiration, goal);
      updated := StoreField(expiration, curItem, CStr(dateCopy[curStart..]));
      nextStart, following := curStart, nextDash;
    }
  }

  /**
   * The parse loop of `PrintImplicitLayerJsonInfo`, run on a date of 16
   * characters: it stops after five fields or when the text from the start
   * is empty. Once no dash is left the start stays on the last piece, which
   * therefore fills all remaining fields.
   */
  method ParseExpiration(date: string) returns (expiration: Stamp)
    requires |date| == 16 && NoNul(date)
    ensures expiration == ExpirationOf(date)
    ensures expiration == Partial(date, 5)
  {
    // `strncpy` into the 32-byte buffer: the text, then NUL padding.
    var dateCopy := new char[32](i => if 0 <= i < |date| then date[i] else '\0');
    ExpirationFields(date);
    expiration := ZeroStamp;
    var curItem: nat := 0;
    var curStart: nat := 0;
    assert IntactFrom(dateCopy[..], date, 0);
    ReadIntact(dateCopy[..], date, 0);
    assert date[0..] == date;
    var nextDash := StrChr(dateCopy[..], curStart, '-');
    if nextDash.Some? {
      while curItem < 5 && Strlen(dateCopy[..], curStart) > 0
        invariant Scanning(dateCopy[..], date, curStart, curItem, nextDash, expiration, ExpirationOf(date))
        decreases 5 - curItem
      {
        curStart, nextDash, expiration := ParseRound(dateCopy, date, curStart, curItem, nextDash, expiration, ExpirationOf(date));
        curItem := curItem + 1;
      }
      ReadIntact(dateCopy[..], date, curStart);
    }
  }

  // ---------------------------------------------------------------------
  // Enable and disable variables, expiration, and the verdict
  // ---------------------------------------------------------------------

  /** The name reported when the manifest names no enable or disable variable. */
  const NoVariable: string := "--NONE--"

  /** What the program has decided about one implicit layer once its manifest is read. */
  datatype Enablement = Enablement(
    enabled: bool,
    expired: bool,
    enableVariable: string,
    enableVarSet: bool,
    disableVariable: string,
    disableVarSet: bool,
    expiration: Option<Stamp>)

  const Initial: Enablement := Enablement(true, false, NoVariable, false, NoVariable, false, None)

  /**
   * The number a variable's value stands for: the value is copied into a
   * 16-byte buffer, so at most its first 15 characters reach `atoi`.
   */
  function VariableNumber(value: string): int {
    Atoi(value[..if |value| < 15 then |value| else 15])
  }

  /** The variable a toggle object names: the key of its first entry. */
  function ToggleVariable(toggle: Value): Option<string> {
    if toggle.Null? then None else FirstKey(toggle)
  }

  /**
   * `enable_environment`: naming a variable turns the layer off unless the
   * variable is set to a number other than 0.
   */
  function ApplyEnable(s: Enablement, toggle: Value, env: Env): Enablement {
    match ToggleVariable(toggle)
    case None => s
    case Some(name) =>
      var isSet := Getenv(env, name).Some? && VariableNumber(Getenv(env, name).value) != 0;
      s.(enableVariable := name, enabled := isSet, enableVarSet := if isSet then true else s.enableVarSet)
  }

  /** `disable_environment`: a variable set to a positive number turns the layer off. */
  function ApplyDisable(s: Enablement, toggle: Value, env: Env): Enablement {
    match ToggleVariable(toggle)
    case None => s
    case Some(name) =>
      var hit := Getenv(env, name).Some? && VariableNumber(Getenv(env, name).value) > 0;
      if hit then s.(disableVariable := name, disableVarSet := true, enabled := false)
      else s.(disableVariable := name)
  }

  /**
   * The expiration that takes part in the verdict: the member's text, as far
   * as its first NUL, must be exactly 16 characters long. (A text of 32
   * characters or more leaves the copy unterminated; its length then reads
   * as at least 32, so it is not taken either.)
   */
  function AppliedExpiration(expiration: Value): Option<Stamp> {
    if expiration.Null? then None
    else
      var date := CStr(AsString(expiration));
      if |date| == 16 then Some(ExpirationOf(date)) else None
  }

  /**
   * An applied expiration is checked only while the layer is still enabled,
   * and the outcome of `checkExpiration` becomes both `expired` and `enabled`.
   */
  function ApplyExpiration(s: Enablement, expiration: Value, now: Stamp): Enablement {
    match AppliedExpiration(expiration)
    case None => s
    case Some(e) =>
      if s.enabled then
        var still := CheckExpiration(e, now);
        s.(expiration := Some(e), expired := still, enabled := still)
      else s.(expiration := Some(e))
  }

  function LayerMember(root: Value, key: string): Value {
    Get(Get(root, LayerKey), key)
  }

  /** The decision `PrintImplicitLayerJsonInfo` reaches for a manifest, an environment and a current time. */
  function Evaluate(root: Value, env: Env, now: Stamp): Enablement {
    var enabled := ApplyEnable(Initial, LayerMember(root, EnableEnvironmentKey), env);
    var disabled := ApplyDisable(enabled, LayerMember(root, DisableEnvironmentKey), env);
    ApplyExpiration(disabled, LayerMember(root, ExpirationKey), now)
  }

  /** The manifest names no enable variable, or the one it names holds a non-zero number. */
  predicate EnableGate(root: Value, env: Env) {
    match ToggleVariable(LayerMember(root, EnableEnvironmentKey))
    case None => true
    case Some(name) => Getenv(env, name).Some? && VariableNumber(Getenv(env, name).value) != 0
  }

  /** The manifest names a disable variable and it holds a positive number. */
  predicate DisableHit(root: Value, env: Env) {
    match ToggleVariable(LayerMember(root, DisableEnvironmentKey))
    case None => false
    case Some(name) => Getenv(env, name).Some? && VariableNumber(Getenv(env, name).value) > 0
  }

  /** The enable gate opens, the disable variable is not hit, and an applied expiration passes the check. */
  lemma {:induction false} EnabledIff(root: Value, env: Env, now: Stamp)
    ensures var r := Evaluate(root, env, now);
      var exp := AppliedExpiration(LayerMember(root, ExpirationKey));
      r.enabled <==> EnableGate(root, env) && !DisableHit(root, env) && (exp.None? || CheckExpiration(exp.value, now))
  {
  }

  /** `expired` holds exactly when the layer would otherwise be enabled and its expiration passes the check. */
  lemma {:induction false} ExpiredIff(root: Value, env: Env, now: Stamp)
    ensures var r := Evaluate(root, env, now);
      var exp := AppliedExpiration(LayerMember(root, ExpirationKey));
      r.expired <==> EnableGate(root, env) && !DisableHit(root, env) && exp.Some? && CheckExpiration(exp.value, now)
  {
  }

  /** A disable variable holding a positive number turns the layer off whatever else the manifest says. */
  lemma {:induction false} DisableWins(root: Value, env: Env, now: Stamp)
    requires DisableHit(root, env)
    ensures !Evaluate(root, env, now).enabled && !Evaluate(root, env, now).expired
  {
  }

  /** The variables the program reports, and whether it reports them as set. */
  lemma {:induction false} VariablesReported(root: Value, env: Env, now: Stamp)
    ensures var r := Evaluate(root, env, now);
      var en := ToggleVariable(LayerMember(root, EnableEnvironmentKey));
      var dis := ToggleVariable(LayerMember(root, DisableEnvironmentKey));
      && r.enableVariable == (if en.Some? then en.value else NoVariable)
      && r.disableVariable == (if dis.Some? then dis.value else NoVariable)
      && (r.enableVarSet <==> en.Some? && EnableGate(root, env))
      && (r.disableVarSet <==> DisableHit(root, env))
      && r.expiration == AppliedExpiration(LayerMember(root, ExpirationKey))
  {
    var s1 := ApplyEnable(Initial, LayerMember(root, EnableEnvironmentKey), env);
    var s2 := ApplyDisable(s1, LayerMember(root, DisableEnvironmentKey), env);
    assert s2.enableVariable == s1.enableVariable && s2.enableVarSet == s1.enableVarSet;
  }

  /** The label printed in the "Enabled State" row. */
  datatype Status = Expired | Enabled | Disabled

  function StatusOf(r: Enablement): Status {
    if r.expired then Expired else if r.enabled then Enabled else Disabled
  }

  /**
   * Since `expired` receives the outcome of the validity check, the label
   * EXPIRED marks the layers that are in use because their expiration has
   * not passed, and ENABLED only those without an applied expiration.
   */
  lemma {:induction false} StatusLabels(root: Value, env: Env, now: Stamp)
    ensures var r := Evaluate(root, env, now);
      var exp := AppliedExpiration(LayerMember(root, ExpirationKey));
      && (StatusOf(r) == Expired <==> r.enabled && exp.Some?)
      && (StatusOf(r) == Enabled <==> r.enabled && exp.None?)
      && (StatusOf(r) == Disabled <==> !r.enabled)
  {
  }

  /** A layer whose expiration fails the check is reported DISABLED, never EXPIRED. */
  lemma {:induction false} LapsedLayerShowsDisabled(root: Value, env: Env, now: Stamp)
    requires var exp := AppliedExpiration(LayerMember(root, ExpirationKey));
      exp.Some? && !CheckExpiration(exp.value, now)
    ensures StatusOf(Evaluate(root, env, now)) == Disabled
  {
  }

  /** A 16-character date with no dash reads as all zeros, which never passes the check: the layer is off. */
  lemma {:induction false} DashlessDateDisables(root: Value, env: Env, now: Stamp)
    requires var e := LayerMember(root, ExpirationKey);
      !e.Null? && |CStr(AsString(e))| == 16 && '-' !in CStr(AsString(e))
    ensures !Evaluate(root, env, now).enabled
  {
  }

  // ---------------------------------------------------------------------
  // The imperative reading of one implicit manifest
  // ---------------------------------------------------------------------

  /** A `std::vector<std::string>` the caller owns and the reader appends to. */
  class PathList {
    var paths: seq<string>

    constructor()
      ensures paths == []
    {
      paths := [];
    }

    method PushBack(p: string)
      modifies this
      ensures paths == old(paths) + [p]
    {
      paths := paths + [p];
    }
  }

  /** The text of each value, in order. */
  function Texts(items: seq<Value>): (r: seq<string>)
    ensures |r| == |items|
    decreases |items|
  {
    if items == [] then [] else [AsString(items[0])] + Texts(items[1..])
  }

  /** The text of every entry of `override_paths`, in order, when that member is an array. */
  function OverridePaths(root: Value): seq<string> {
    var o := LayerMember(root, OverridePathsKey);
    if o.Arr? then Texts(o.items) else []
  }

  /** The `override_paths` loop: each entry's text is appended, in order. */
  method RecordOverridePaths(root: Value, overridePaths: PathList)
    modifies overridePaths
    ensures overridePaths.paths == old(overridePaths.paths) + OverridePaths(root)
  {
    var overrides := Get(Get(root, LayerKey), OverridePathsKey);
    assert overrides == LayerMember(root, OverridePathsKey);
    if !overrides.Null? && overrides.Arr? {
      var items := overrides.items;
      ghost var start := overridePaths.paths;
      var i := 0;
      while i < |items|
        invariant i <= |items|
        invariant overridePaths.paths + Texts(items[i..]) == start + Texts(items)
      {
        assert items[i..][1..] == items[i + 1..];
        overridePaths.PushBack(AsString(items[i]));
        i := i + 1;
      }
      assert items[i..] == [];
    }
  }

  /**
   * The `enable_environment` block: the first key names the variable and
   * switches the layer off, and a value whose first 15 characters read as a
   * non-zero number switches it back on.
   */
  method ReadEnableVariable(state: Enablement, enable: Value, env: Env) returns (r: Enablement)
    ensures r == ApplyEnable(state, enable, env)
  {
    r := state;
    if !enable.Null? {
      match FirstKey(enable) {
        case None =>
        case Some(name) =>
          r := r.(enableVariable := name, enabled := false);
          var value := Getenv(env, name);
          if value.Some? && VariableNumber(value.value) != 0 {
            r := r.(enableVarSet := true, enabled := true);
          }
      }
    }
  }

  /**
   * The `disable_environment` block: the first key names the variable, and
   * a value whose first 15 characters read as a positive number switches the
   * layer off.
   */
  method ReadDisableVariable(state: Enablement, disable: Value, env: Env) returns (r: Enablement)
    ensures r == ApplyDisable(state, disable, env)
  {
    r := state;
    if !disable.Null? {
      match FirstKey(disable) {
        case None =>
        case Some(name) =>
          r := r.(disableVariable := name);
          var value := Getenv(env, name);
          if value.Some? && VariableNumber(value.value) > 0 {
            r := r.(disableVarSet := true, enabled := false);
          }
      }
    }
  }

  /**
   * The `expiration` block: a date of exactly 16 characters is parsed and,
   * while the layer is still enabled, the outcome of `checkExpiration` is
   * stored into both `expired` and `enabled`.
   */
  method ReadExpiration(state: Enablement, expirationJson: Value, now: Stamp) returns (r: Enablement)
    ensures r == ApplyExpiration(state, expirationJson, now)
  {
    r := state;
    if !expirationJson.Null? {
      var date := CStr(AsString(expirationJson));
      if |date| == 16 {
        var expiration := ParseExpiration(date);
        assert AppliedExpiration(expirationJson) == Some(expiration);
        r := r.(expiration := Some(expiration));
        if r.enabled {
          var expired := CheckExpiration(expiration, now);
          r := r.(expired := expired, enabled := expired);
        }
      }
    }
  }

  /**
   * `PrintImplicitLayerJsonInfo`, with its locals `enabled`, `expired`, the
   * two variable names and their `..._var_set` flags gathered in one
   * `Enablement`: the manifest's override paths are appended to
   * `overridePaths`, then the enable variable, the disable variable and the
   * expiration are settled in that order. Before all that, the layer is
   * described as an explicit one would be (`PrintExplicitLayerJsonInfo`).
   */
  method PrintImplicitLayerJsonInfo(root: Value, env: Env, now: Stamp, overridePaths: PathList)
    returns (report: ExplicitLayer.LayerReport, state: Enablement)
    modifies overridePaths
    ensures report == ExplicitLayer.ExplicitLayerReport(root)
    ensures overridePaths.paths == old(overridePaths.paths) + OverridePaths(root)
    ensures state == Evaluate(root, env, now)
  {
    report := ExplicitLayer.PrintExplicitLayerJsonInfo(root);
    RecordOverridePaths(root, overridePaths);
    var layer := Get(root, LayerKey);
    state := Initial;
    state := ReadEnableVariable(state, Get(layer, EnableEnvironmentKey), env);
    state := ReadDisableVariable(state, Get(layer, DisableEnvironmentKey), env);
    state := ReadExpiration(state, Get(layer, ExpirationKey), now);
  }
}
