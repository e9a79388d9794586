/** What a settings file says when it is read back: for every record the settings that come
    back, and exactly which records come back as they were. */
module SettingsRoundTrip {
  import opened Common
  import opened SettingsText
  import opened SettingsFile

  // ---- The keys differ ----

  /** The key a name is for, told by its length and two of its letters. */
  function KeyNamed(name: string): Key {
    if |name| == 16 then ResolutionScale
    else if |name| == 13 then Widescreen2d
    else if |name| == 9 then FrameCap
    else if |name| == 11 then FpsOverlay
    else if |name| == 3 then Vrr
    else if |name| == 7 then Syslink
    else if |name| == 8 then if name[0] == 'h' then HorPlus else GameDir
    else if |name| == 17 then if name[0] == 'h' then HorPlusRegister else MouseSensitivity
    else if |name| == 10 then
      if name[0] == 'w' then Widescreen
      else if name[0] == 'a' then Anisotropy
      else if name[0] == 'f' then Fullscreen
      else MouseLook
    else if |name| == 12 then
      if name[8] == 't' then FrameInterp
      else if name[8] == 'h' then SyslinkHost
      else if name[8] == 'p' then SyslinkPort
      else if name[8] == 'c' then SyslinkCode
      else SyslinkUpnp
    else Vrr
  }

  /** No two keys have the same name. */
  lemma {:induction false} KeyNamedInverts(k: Key)
    ensures KeyNamed(KeyName(k)) == k
  {
  }

  lemma {:induction false} NamesAreKeys(k: Key)
    ensures IsKey(KeyName(k)) && '\n' !in KeyName(k) && |KeyName(k)| <= 17
  {
    if IndexOf(k) < 9 { FirstNames(k); } else { LastNames(k); }
  }

  lemma {:induction false} FirstNames(k: Key)
    requires IndexOf(k) < 9
    ensures IsKey(KeyName(k)) && '\n' !in KeyName(k) && |KeyName(k)| <= 17
  {
  }

  lemma {:induction false} LastNames(k: Key)
    requires IndexOf(k) >= 9
    ensures IsKey(KeyName(k)) && '\n' !in KeyName(k) && |KeyName(k)| <= 17
  {
  }

  lemma {:induction false} IndexOfKeyAt(i: nat)
    requires i < KEYS
    ensures IndexOf(KeyAt(i)) == i
  {
  }

  // ---- The file's lines and the table they fill ----

  /** What the host prints for a factor is a short trimmed word that does not read as auto. */
  ghost predicate PrintsAsValue(n: Numbers, x: real) {
    var v := n.show(x);
    v != "" && |v| < MAX_VALUE && IsTrimmed(v) && '\n' !in v && !IEq(v, "auto")
  }

  /** A text in a buffer of that size, on one line. */
  predicate IsText(s: string, size: nat) {
    |s| < size && '\n' !in s
  }

  /** A record as the program can hold it: 32-bit numbers and texts in their buffers, on one
      line. Nothing is asked of its values. */
  ghost predicate IsRecord(s: Settings, n: Numbers) {
    IsInt32(s.resolutionScale) && IsInt32(s.anisotropy) && IsInt32(s.frameInterp)
    && IsInt32(s.mouseSensitivity) && IsInt32(s.syslinkPort)
    && (s.horPlus.Some? ==> 0.0 <= s.horPlus.value && PrintsAsValue(n, s.horPlus.value))
    && (s.horPlusRegister.Some? ==> 0 <= s.horPlusRegister.value && IsInt32(s.horPlusRegister.value))
    && IsText(s.widescreen2d, WIDESCREEN_2D_SIZE) && IsText(s.frameCap, FRAME_CAP_SIZE)
    && IsText(s.gameDir, GAME_DIR_SIZE) && IsText(s.syslink, SYSLINK_SIZE)
    && IsText(s.syslinkHost, SYSLINK_HOST_SIZE) && IsText(s.syslinkCode, SYSLINK_CODE_SIZE)
  }

  /** Every value written is short and on one line. */
  lemma {:induction false} RowIsText(s: Settings, n: Numbers, k: Key)
    requires IsRecord(s, n) && Row(s, n, k).Some?
    ensures IsText(Row(s, n, k).value, MAX_VALUE)
  {
    match k
    case ResolutionScale => IntRoundTrip(s.resolutionScale);
    case HorPlusRegister => IntRoundTrip(s.horPlusRegister.value);
    case Anisotropy => IntRoundTrip(s.anisotropy);
    case FrameInterp => IntRoundTrip(if s.frameInterp < 1 then 1 else s.frameInterp);
    case MouseSensitivity => IntRoundTrip(ClampInt(s.mouseSensitivity, 1, 100));
    case SyslinkPort => IntRoundTrip(if s.syslinkPort > 0 then s.syslinkPort else SYSLINK_DEFAULT_PORT);
    case _ =>
  }

  /** The entries of the first rows. */
  function Entries(s: Settings, n: Numbers, i: nat): Table
    requires i <= KEYS
  {
    if i == 0 then []
    else
      match Row(s, n, KeyAt(i - 1))
      case Some(v) => Entries(s, n, i - 1) + [(KeyName(KeyAt(i - 1)), Trimmed(v))]
      case None => Entries(s, n, i - 1)
  }

  lemma {:induction false} ParsedAppend(t: Table, a: seq<string>, b: seq<string>)
    ensures ParsedFrom(t, a + b) == ParsedFrom(ParsedFrom(t, a), b)
    decreases |a|
  {
    if a == [] {
      assert a + b == b;
    } else {
      assert (a + b)[0] == a[0] && (a + b)[1..] == a[1..] + b;
      ParsedAppend(StoredLine(t, a[0]), a[1..], b);
    }
  }

  lemma {:induction false} NewlinesAppend(a: seq<string>, b: seq<string>)
    ensures WithNewlines(a + b) == WithNewlines(a) + WithNewlines(b)
  {
    if a == [] {
      assert a + b == b;
    } else {
      assert (a + b)[0] == a[0] && (a + b)[1..] == a[1..] + b;
      NewlinesAppend(a[1..], b);
    }
  }

  /** Comments leave the table as it is. */
  lemma {:induction false} CommentsStoreNothing(t: Table, comments: seq<string>)
    requires AllComments(comments)
    ensures ParsedFrom(t, WithNewlines(comments)) == t
  {
    if comments != [] {
      CommentLine(comments[0]);
      CommentsStoreNothing(t, comments[1..]);
    }
  }

  /** Where a key is in the table, and that a later key is not. */
  lemma {:induction false} EntryIn(s: Settings, n: Numbers, i: nat, k: Key)
    requires i <= KEYS
    ensures |Entries(s, n, i)| <= i
    ensures var t := Entries(s, n, i);
            var e := EntryOf(t, KeyName(k), 0);
            if IndexOf(k) < i && Row(s, n, k).Some? then e < |t| && t[e].1 == Trimmed(Row(s, n, k).value)
            else e == |t|
  {
    hide KeyName, Row, Trimmed;
    if i > 0 {
      EntryIn(s, n, i - 1, k);
      IndexOfKeyAt(i - 1);
      KeyNamedInverts(k);
      KeyNamedInverts(KeyAt(i - 1));
      var t := Entries(s, n, i - 1);
      if Row(s, n, KeyAt(i - 1)).Some? {
        OneMoreEntry(t, (KeyName(KeyAt(i - 1)), Trimmed(Row(s, n, KeyAt(i - 1)).value)), KeyName(k), 0);
      }
    }
  }

  lemma {:induction false} RowLineStores(s: Settings, n: Numbers, i: nat)
    requires IsRecord(s, n) && i < KEYS
    ensures StoredLine(Entries(s, n, i), RowLine(s, n, KeyAt(i)) + "\n") == Entries(s, n, i + 1)
    ensures FitsLine(RowLine(s, n, KeyAt(i)))
  {
    var k := KeyAt(i);
    var t := Entries(s, n, i);
    NamesAreKeys(k);
    EntryIn(s, n, i, k);
    IndexOfKeyAt(i);
    if Row(s, n, k).Some? {
      var v := Row(s, n, k).value;
      RowIsText(s, n, k);
      hide KeyName, Row, KeyAt, IsRecord;
      SettingLine(KeyName(k), v);
      TrimmedShorter(v);
      hide ParseLine, Trimmed, EntryOf;
    } else {
      hide KeyName, Row, KeyAt, IsRecord;
      CommentLine(RowLine(s, n, k));
    }
  }

  lemma {:induction false} TrimmedShorter(s: string)
    ensures |Trimmed(s)| <= |s|
  {
    LeftShorter(s);
    RightShorter(TrimLeft(s));
  }

  /** Reading the file's lines fills the table with the rows that have a value, in order. */
  lemma {:induction false} FileFillsTable(s: Settings, n: Numbers, comments: seq<seq<string>>, i: nat)
    requires IsRecord(s, n) && AreComments(comments) && i <= KEYS
    ensures ParsedFrom([], WithNewlines(LinesFor(s, n, comments, i))) == Entries(s, n, i)
    decreases i
  {
    if i > 0 {
      FileFillsTable(s, n, comments, i - 1);
      RowLineStores(s, n, i - 1);
      LinesGrow(s, n, comments, i - 1);
      hide *;
      OneMoreRow(LinesFor(s, n, comments, i - 1), comments[i - 1], RowLine(s, n, KeyAt(i - 1)), Entries(s, n, i - 1));
    } else {
      assert LinesFor(s, n, comments, 0) == [];
    }
  }

  lemma {:induction false} LinesGrow(s: Settings, n: Numbers, comments: seq<seq<string>>, i: nat)
    requires |comments| == KEYS && i < KEYS
    ensures LinesFor(s, n, comments, i + 1) == LinesFor(s, n, comments, i) + comments[i] + [RowLine(s, n, KeyAt(i))]
  {
    hide RowLine, KeyAt;
  }

  ghost predicate AllComments(lines: seq<string>) {
    forall j {:trigger lines[j]} :: 0 <= j < |lines| ==> lines[j] == "" || lines[j][0] == '#'
  }

  lemma {:induction false} OneMoreRow(before: seq<string>, group: seq<string>, line: string, t: Table)
    requires ParsedFrom([], WithNewlines(before)) == t
    requires AllComments(group)
    ensures ParsedFrom([], WithNewlines(before + group + [line])) == StoredLine(t, line + "\n")
  {
    CommentsStoreNothing(t, group);
    NewlinesAppend(before + group, [line]);
    NewlinesAppend(before, group);
    OneLine(line);
    OneParsed(t, line + "\n");
    hide WithNewlines, StoredLine, ParsedFrom;
    ParsedAppend([], WithNewlines(before) + WithNewlines(group), [line + "\n"]);
    ParsedAppend([], WithNewlines(before), WithNewlines(group));
  }

  ghost predicate AllFit(lines: seq<string>) {
    forall j {:trigger lines[j]} :: 0 <= j < |lines| ==> FitsLine(lines[j])
  }

  /** Every line of the file fits the buffer it is read through. */
  lemma {:induction false} FileFits(s: Settings, n: Numbers, comments: seq<seq<string>>, i: nat)
    requires IsRecord(s, n) && AreComments(comments) && i <= KEYS
    ensures AllFit(LinesFor(s, n, comments, i))
    decreases i
  {
    if i > 0 {
      FileFits(s, n, comments, i - 1);
      RowLineStores(s, n, i - 1);
      LinesGrow(s, n, comments, i - 1);
      assert AllFit([RowLine(s, n, KeyAt(i - 1))]);
      hide *;
      AllFitJoined(LinesFor(s, n, comments, i - 1), comments[i - 1]);
      AllFitJoined(LinesFor(s, n, comments, i - 1) + comments[i - 1], [RowLine(s, n, KeyAt(i - 1))]);
    } else {
      assert LinesFor(s, n, comments, 0) == [];
    }
  }

  lemma {:induction false} AllFitJoined(a: seq<string>, b: seq<string>)
    requires AllFit(a) && AllFit(b)
    ensures AllFit(a + b)
  {
    hide FitsLine;
  }

  lemma {:induction false} OneLine(line: string)
    ensures WithNewlines([line]) == [line + "\n"]
  {
    assert [line][1..] == [];
  }

  lemma {:induction false} OneParsed(t: Table, line: string)
    ensures ParsedFrom(t, [line]) == StoredLine(t, line)
  {
    assert [line][1..] == [];
  }

  /** What is found for a key after the file is read: the value written, trimmed, unless there
      was none or nothing is left of it. */
  lemma {:induction false} FoundIsWritten(s: Settings, n: Numbers, comments: seq<seq<string>>, k: Key)
    requires IsRecord(s, n) && AreComments(comments)
    ensures FromTable(ParsedFrom([], Lines(FileText(s, n, comments))), KeyName(k)) == Written(s, n, k)
  {
    FileFillsTable(s, n, comments, KEYS);
    FileFits(s, n, comments, KEYS);
    LinesOfJoined(LinesFor(s, n, comments, KEYS));
    EntryIn(s, n, KEYS, k);
  }

  function Written(s: Settings, n: Numbers, k: Key): Option<string> {
    var v := Row(s, n, k);
    if v.Some? && Trimmed(v.value) != "" then Some(Trimmed(v.value)) else None
  }

  // ---- Reading back ----

  /** A text as it comes back. */
  function TextBack(s: string, other: string): string {
    if Trimmed(s) == "" then other else Trimmed(s)
  }

  /** The record that comes back: numbers kept to their ranges, texts trimmed, and an empty
      text the default. A factor or register that was left to the title still is. */
  function Normal(s: Settings, n: Numbers): Settings {
    s.(resolutionScale := ClampInt(s.resolutionScale, 1, 8),
       horPlus := if s.horPlus.Some? then Some(AtLeastZero(n.scan(n.show(s.horPlus.value)))) else None,
       horPlusRegister := if s.horPlusRegister.Some? then Some(ClampInt(s.horPlusRegister.value, 0, 191)) else None,
       widescreen2d := TextBack(s.widescreen2d, "auto"),
       anisotropy := ClampInt(s.anisotropy, 1, 16),
       frameCap := TextBack(s.frameCap, "adaptive"),
       frameInterp := ClampInt(s.frameInterp, 1, 4),
       mouseSensitivity := ClampInt(s.mouseSensitivity, 1, 100),
       gameDir := Trimmed(s.gameDir),
       syslink := TextBack(s.syslink, "off"),
       syslinkHost := Trimmed(s.syslinkHost),
       syslinkPort := if s.syslinkPort > 0 then ClampInt(s.syslinkPort, 1, 65535) else SYSLINK_DEFAULT_PORT,
       syslinkCode := Trimmed(s.syslinkCode))
  }

  lemma {:induction false} IntBack(s: Settings, n: Numbers, k: Key, x: int, lo: int, hi: int, other: int)
    requires Row(s, n, k) == Some(IntText(x)) && IsInt32(x)
    ensures IntSetting(Written(s, n, k), lo, hi, other) == ClampInt(x, lo, hi)
    ensures Written(s, n, k) == Some(IntText(x))
  {
    IntRoundTrip(x);
    TrimmedIff(IntText(x));
  }

  lemma {:induction false} FlagBack(s: Settings, n: Numbers, k: Key, b: bool, other: bool)
    requires Row(s, n, k) == Some(FlagText(b))
    ensures FlagSetting(Written(s, n, k), other) == b
  {
    var v := FlagText(b);
    assert IsTrimmed(v);
    TrimmedIff(v);
    if b { assert v[0] == '1'; }
  }

  lemma {:induction false} TextComesBack(s: Settings, n: Numbers, k: Key, v: string, size: nat, other: string)
    requires Row(s, n, k) == Some(v) && |v| < size
    ensures TextSetting(Written(s, n, k), size, other) == TextBack(v, other)
  {
    TrimmedShorter(v);
  }

  lemma {:induction false} MaybeTextBack(s: Settings, n: Numbers, k: Key, v: string, size: nat)
    requires Row(s, n, k) == (if v != "" then Some(v) else None) && |v| < size
    ensures TextSetting(Written(s, n, k), size, "") == Trimmed(v)
  {
    TrimmedShorter(v);
  }

  lemma {:induction false} OrElseBack(v: string, other: string)
    requires other != "" && IsTrimmed(other)
    ensures TextBack(OrElse(v, other), other) == TextBack(v, other)
  {
    TrimmedIff(other);
  }

  lemma {:induction false} RegisterBack(s: Settings, n: Numbers)
    requires IsRecord(s, n)
    ensures RegisterSetting(Written(s, n, HorPlusRegister)) == Normal(s, n).horPlusRegister
  {
    if s.horPlusRegister.Some? {
      var x := s.horPlusRegister.value;
      IntBack(s, n, HorPlusRegister, x, 0, 191, 0);
      DecimalDigits(x);
      var v := IntText(x);
      assert IsDigit(v[0]) && Lower(v[0]) == v[0];
      assert "auto"[0] == 'a' && Lower('a') == 'a';
      assert !IEq(v, "auto");
    }
  }

  lemma {:induction false} FactorBack(s: Settings, n: Numbers)
    requires IsRecord(s, n)
    ensures FactorSetting(Written(s, n, HorPlus), n) == Normal(s, n).horPlus
  {
    if s.horPlus.Some? { TrimmedIff(n.show(s.horPlus.value)); }
  }

  /** For every record, reading the file it was written to gives its normal form, whatever
      comments the file has around the settings. */
  lemma {:induction false} ReadOfWritten(s: Settings, n: Numbers, comments: seq<seq<string>>)
    requires IsRecord(s, n) && AreComments(comments)
    ensures SettingsFrom(ParsedFrom([], Lines(FileText(s, n, comments))), n) == Normal(s, n)
  {
    var t := ParsedFrom([], Lines(FileText(s, n, comments)));
    forall k: Key ensures FromTable(t, KeyName(k)) == Written(s, n, k) {
      FoundIsWritten(s, n, comments, k);
    }
    NumbersBack(s, n);
    FlagsBack(s, n);
    TextsBack(s, n);
    FactorBack(s, n);
    RegisterBack(s, n);
  }

  lemma {:induction false} NumbersBack(s: Settings, n: Numbers)
    requires IsRecord(s, n)
    ensures IntSetting(Written(s, n, ResolutionScale), 1, 8, Defaults().resolutionScale) == Normal(s, n).resolutionScale
    ensures IntSetting(Written(s, n, Anisotropy), 1, 16, Defaults().anisotropy) == Normal(s, n).anisotropy
    ensures IntSetting(Written(s, n, FrameInterp), 1, 4, Defaults().frameInterp) == Normal(s, n).frameInterp
    ensures IntSetting(Written(s, n, MouseSensitivity), 1, 100, Defaults().mouseSensitivity) == Normal(s, n).mouseSensitivity
    ensures IntSetting(Written(s, n, SyslinkPort), 1, 65535, Defaults().syslinkPort) == Normal(s, n).syslinkPort
  {
    hide IntText, Decimal, Atoi, IntSetting, Written, Trimmed;
    IntBack(s, n, ResolutionScale, s.resolutionScale, 1, 8, Defaults().resolutionScale);
    IntBack(s, n, Anisotropy, s.anisotropy, 1, 16, Defaults().anisotropy);
    IntBack(s, n, FrameInterp, if s.frameInterp < 1 then 1 else s.frameInterp, 1, 4, Defaults().frameInterp);
    IntBack(s, n, MouseSensitivity, ClampInt(s.mouseSensitivity, 1, 100), 1, 100, Defaults().mouseSensitivity);
    IntBack(s, n, SyslinkPort, if s.syslinkPort > 0 then s.syslinkPort else SYSLINK_DEFAULT_PORT, 1, 65535,
            Defaults().syslinkPort);
  }

  lemma {:induction false} FlagsBack(s: Settings, n: Numbers)
    ensures FlagSetting(Written(s, n, Widescreen), Defaults().widescreen) == s.widescreen
    ensures FlagSetting(Written(s, n, FpsOverlay), Defaults().fpsOverlay) == s.fpsOverlay
    ensures FlagSetting(Written(s, n, Fullscreen), Defaults().fullscreen) == s.fullscreen
    ensures FlagSetting(Written(s, n, Vrr), Defaults().vrr) == s.vrr
    ensures FlagSetting(Written(s, n, MouseLook), Defaults().mouseLook) == s.mouseLook
    ensures FlagSetting(Written(s, n, SyslinkUpnp), Defaults().syslinkUpnp) == s.syslinkUpnp
  {
    FlagBack(s, n, Widescreen, s.widescreen, Defaults().widescreen);
    FlagBack(s, n, FpsOverlay, s.fpsOverlay, Defaults().fpsOverlay);
    FlagBack(s, n, Fullscreen, s.fullscreen, Defaults().fullscreen);
    FlagBack(s, n, Vrr, s.vrr, Defaults().vrr);
    FlagBack(s, n, MouseLook, s.mouseLook, Defaults().mouseLook);
    FlagBack(s, n, SyslinkUpnp, s.syslinkUpnp, Defaults().syslinkUpnp);
  }

  lemma {:induction false} TextsBack(s: Settings, n: Numbers)
    requires IsRecord(s, n)
    ensures TextSetting(Written(s, n, Widescreen2d), WIDESCREEN_2D_SIZE, Defaults().widescreen2d) == Normal(s, n).widescreen2d
    ensures TextSetting(Written(s, n, FrameCap), FRAME_CAP_SIZE, Defaults().frameCap) == Normal(s, n).frameCap
    ensures TextSetting(Written(s, n, GameDir), GAME_DIR_SIZE, Defaults().gameDir) == Normal(s, n).gameDir
    ensures TextSetting(Written(s, n, Syslink), SYSLINK_SIZE, Defaults().syslink) == Normal(s, n).syslink
    ensures TextSetting(Written(s, n, SyslinkHost), SYSLINK_HOST_SIZE, Defaults().syslinkHost) == Normal(s, n).syslinkHost
    ensures TextSetting(Written(s, n, SyslinkCode), SYSLINK_CODE_SIZE, Defaults().syslinkCode) == Normal(s, n).syslinkCode
  {
    hide TextSetting, Written, Trimmed, TextBack;
    TextComesBack(s, n, Widescreen2d, OrElse(s.widescreen2d, "auto"), WIDESCREEN_2D_SIZE, "auto");
    TextComesBack(s, n, FrameCap, OrElse(s.frameCap, "adaptive"), FRAME_CAP_SIZE, "adaptive");
    TextComesBack(s, n, Syslink, OrElse(s.syslink, "off"), SYSLINK_SIZE, "off");
    MaybeTextBack(s, n, GameDir, s.gameDir, GAME_DIR_SIZE);
    MaybeTextBack(s, n, SyslinkHost, s.syslinkHost, SYSLINK_HOST_SIZE);
    MaybeTextBack(s, n, SyslinkCode, s.syslinkCode, SYSLINK_CODE_SIZE);
    OrElseBack(s.widescreen2d, "auto");
    OrElseBack(s.frameCap, "adaptive");
    OrElseBack(s.syslink, "off");
  }

  /** The values a record should have: numbers in range, texts trimmed, the three words there,
      and a factor that prints exactly. */
  ghost predicate InRange(s: Settings, n: Numbers) {
    1 <= s.resolutionScale <= 8 && 1 <= s.anisotropy <= 16 && 1 <= s.frameInterp <= 4
    && 1 <= s.mouseSensitivity <= 100 && 1 <= s.syslinkPort <= 65535
    && (s.horPlus.Some? ==> AtLeastZero(n.scan(n.show(s.horPlus.value))) == s.horPlus.value)
    && (s.horPlusRegister.Some? ==> s.horPlusRegister.value <= 191)
    && s.widescreen2d != "" && s.frameCap != "" && s.syslink != ""
    && IsTrimmed(s.widescreen2d) && IsTrimmed(s.frameCap) && IsTrimmed(s.syslink)
    && IsTrimmed(s.gameDir) && IsTrimmed(s.syslinkHost) && IsTrimmed(s.syslinkCode)
  }

  /** A record survives the file exactly when its values are in range. */
  lemma {:induction false} SurvivesIff(s: Settings, n: Numbers, comments: seq<seq<string>>)
    requires IsRecord(s, n) && AreComments(comments)
    ensures SettingsFrom(ParsedFrom([], Lines(FileText(s, n, comments))), n) == s <==> InRange(s, n)
  {
    ReadOfWritten(s, n, comments);
    NormalIff(s, n);
  }

  lemma {:induction false} NormalIff(s: Settings, n: Numbers)
    requires s.horPlusRegister.Some? ==> 0 <= s.horPlusRegister.value
    ensures Normal(s, n) == s <==> InRange(s, n)
  {
    TrimmedIff(s.gameDir);
    TrimmedIff(s.syslinkHost);
    TrimmedIff(s.syslinkCode);
    TextBackIff(s.widescreen2d, "auto");
    TextBackIff(s.frameCap, "adaptive");
    TextBackIff(s.syslink, "off");
    hide Trimmed, IsTrimmed, TextBack;
  }

  lemma {:induction false} TextBackIff(s: string, other: string)
    requires other != "" && IsTrimmed(other)
    ensures TextBack(s, other) == s <==> s != "" && IsTrimmed(s)
  {
    TrimmedIff(s);
    TrimmedIff(other);
  }
}
