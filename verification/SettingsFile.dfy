/** The settings file: what is written, how it is read back into the table of entries, and
    that reading gives back the settings that were written. */
module SettingsFile {
  import opened Common
  import opened SettingsText

  /** The settings, in the order the file has them. */
  datatype Key =
    | ResolutionScale | Widescreen | HorPlus | HorPlusRegister | Widescreen2d | Anisotropy | FrameCap
    | FpsOverlay | Fullscreen | Vrr | FrameInterp | MouseLook | MouseSensitivity | GameDir
    | Syslink | SyslinkHost | SyslinkPort | SyslinkCode | SyslinkUpnp

  const KEYS: nat := 19

  function KeyAt(i: nat): Key {
    match i
    case 0 => ResolutionScale
    case 1 => Widescreen
    case 2 => HorPlus
    case 3 => HorPlusRegister
    case 4 => Widescreen2d
    case 5 => Anisotropy
    case 6 => FrameCap
    case 7 => FpsOverlay
    case 8 => Fullscreen
    case 9 => Vrr
    case 10 => FrameInterp
    case 11 => MouseLook
    case 12 => MouseSensitivity
    case 13 => GameDir
    case 14 => Syslink
    case 15 => SyslinkHost
    case 16 => SyslinkPort
    case 17 => SyslinkCode
    case _ => SyslinkUpnp
  }

  function IndexOf(k: Key): (i: nat)
    ensures i < KEYS && KeyAt(i) == k
  {
    match k
    case ResolutionScale => 0
    case Widescreen => 1
    case HorPlus => 2
    case HorPlusRegister => 3
    case Widescreen2d => 4
    case Anisotropy => 5
    case FrameCap => 6
    case FpsOverlay => 7
    case Fullscreen => 8
    case Vrr => 9
    case FrameInterp => 10
    case MouseLook => 11
    case MouseSensitivity => 12
    case GameDir => 13
    case Syslink => 14
    case SyslinkHost => 15
    case SyslinkPort => 16
    case SyslinkCode => 17
    case SyslinkUpnp => 18
  }

  function KeyName(k: Key): string {
    match k
    case ResolutionScale => "resolution_scale"
    case Widescreen => "widescreen"
    case HorPlus => "hor_plus"
    case HorPlusRegister => "hor_plus_register"
    case Widescreen2d => "widescreen_2d"
    case Anisotropy => "anisotropy"
    case FrameCap => "frame_cap"
    case FpsOverlay => "fps_overlay"
    case Fullscreen => "fullscreen"
    case Vrr => "vrr"
    case FrameInterp => "frame_interp"
    case MouseLook => "mouse_look"
    case MouseSensitivity => "mouse_sensitivity"
    case GameDir => "game_dir"
    case Syslink => "syslink"
    case SyslinkHost => "syslink_host"
    case SyslinkPort => "syslink_port"
    case SyslinkCode => "syslink_code"
    case SyslinkUpnp => "syslink_upnp"
  }

  /** The settings record. A horizontal factor or a register that is not set is left to the
      title. */
  datatype Settings = Settings(
    resolutionScale: int, widescreen: bool, horPlus: Option<real>, horPlusRegister: Option<int>, widescreen2d: string,
    anisotropy: int, frameCap: string, fpsOverlay: bool, fullscreen: bool, vrr: bool, frameInterp: int,
    mouseLook: bool, mouseSensitivity: int, gameDir: string,
    syslink: string, syslinkHost: string, syslinkPort: int, syslinkCode: string, syslinkUpnp: bool)

  const SYSLINK_DEFAULT_PORT: int := 27610
  const MOUSE_SENSITIVITY_DEFAULT: int := 80

  function Defaults(): Settings {
    Settings(1, false, None, None, "auto", 1, "adaptive", false, false, true, 1,
             false, MOUSE_SENSITIVITY_DEFAULT, "", "off", "", SYSLINK_DEFAULT_PORT, "", true)
  }

  /** How the host prints a factor and reads one. */
  datatype Numbers = Numbers(show: real -> string, scan: string -> real)

  // ---- Writing ----

  function FlagText(b: bool): string {
    if b then "1" else "0"
  }

  function ClampInt(v: int, lo: int, hi: int): int {
    if v < lo then lo else if v > hi then hi else v
  }

  function OrElse(s: string, other: string): string {
    if s != "" then s else other
  }

  /** The value written for a key; where there is none the line is written as a comment. */
  function Row(s: Settings, n: Numbers, k: Key): Option<string> {
    match k
    case ResolutionScale => Some(IntText(s.resolutionScale))
    case Widescreen => Some(FlagText(s.widescreen))
    case HorPlus => if s.horPlus.Some? then Some(n.show(s.horPlus.value)) else None
    case HorPlusRegister => if s.horPlusRegister.Some? then Some(IntText(s.horPlusRegister.value)) else None
    case Widescreen2d => Some(OrElse(s.widescreen2d, "auto"))
    case Anisotropy => Some(IntText(s.anisotropy))
    case FrameCap => Some(OrElse(s.frameCap, "adaptive"))
    case FpsOverlay => Some(FlagText(s.fpsOverlay))
    case Fullscreen => Some(FlagText(s.fullscreen))
    case Vrr => Some(FlagText(s.vrr))
    case FrameInterp => Some(IntText(if s.frameInterp < 1 then 1 else s.frameInterp))
    case MouseLook => Some(FlagText(s.mouseLook))
    case MouseSensitivity => Some(IntText(ClampInt(s.mouseSensitivity, 1, 100)))
    case GameDir => if s.gameDir != "" then Some(s.gameDir) else None
    case Syslink => Some(OrElse(s.syslink, "off"))
    case SyslinkHost => if s.syslinkHost != "" then Some(s.syslinkHost) else None
    case SyslinkPort => Some(IntText(if s.syslinkPort > 0 then s.syslinkPort else SYSLINK_DEFAULT_PORT))
    case SyslinkCode => if s.syslinkCode != "" then Some(s.syslinkCode) else None
    case SyslinkUpnp => Some(FlagText(s.syslinkUpnp))
  }

  /** The line of a key, under whatever comment lines the file has for it. */
  function RowLine(s: Settings, n: Numbers, k: Key): string {
    match Row(s, n, k)
    case Some(v) => KeyName(k) + " = " + v
    case None => "# " + KeyName(k) + (if k == HorPlus || k == HorPlusRegister then " = auto" else " =")
  }

  /** The comments of the file: for each setting the lines above it. Each is blank or starts
      with a number sign, and fits a line. */
  ghost predicate AreComments(comments: seq<seq<string>>) {
    |comments| == KEYS
    && forall i, j {:trigger comments[i][j]} :: 0 <= i < |comments| && 0 <= j < |comments[i]| ==>
         FitsLine(comments[i][j]) && (comments[i][j] == "" || comments[i][j][0] == '#')
  }

  function LinesFor(s: Settings, n: Numbers, comments: seq<seq<string>>, i: nat): seq<string>
    requires |comments| == KEYS && i <= KEYS
  {
    if i == 0 then [] else LinesFor(s, n, comments, i - 1) + comments[i - 1] + [RowLine(s, n, KeyAt(i - 1))]
  }

  /** The text of the settings file. */
  function FileText(s: Settings, n: Numbers, comments: seq<seq<string>>): string
    requires |comments| == KEYS
  {
    Joined(LinesFor(s, n, comments, KEYS))
  }

  // ---- The table of entries ----

  type Table = seq<(string, string)>

  function Cut(s: string, size: nat): string
    requires size > 0
  {
    if |s| < size then s else s[..size - 1]
  }

  function EntryOf(t: Table, key: string, i: nat): (k: nat)
    requires i <= |t|
    ensures i <= k <= |t|
    ensures k < |t| ==> t[k].0 == key
    ensures forall j {:trigger t[j]} :: i <= j < k ==> t[j].0 != key
    decreases |t| - i
  {
    if i == |t| || t[i].0 == key then i else EntryOf(t, key, i + 1)
  }

  function Stored(t: Table, key: string, value: string): Table {
    var i := EntryOf(t, key, 0);
    if i < |t| then t[i := (t[i].0, Cut(value, MAX_VALUE))]
    else if |t| >= MAX_ENTRIES then t
    else t + [(Cut(key, MAX_KEY), Cut(value, MAX_VALUE))]
  }

  function StoredLine(t: Table, line: string): Table {
    match ParseLine(line)
    case Some(kv) => Stored(t, kv.0, kv.1)
    case None => t
  }

  function ParsedFrom(t: Table, lines: seq<string>): Table
    decreases |lines|
  {
    if lines == [] then t else ParsedFrom(StoredLine(t, lines[0]), lines[1..])
  }

  /** The value of a key; an empty value is as good as none. */
  function FromTable(t: Table, key: string): Option<string> {
    var i := EntryOf(t, key, 0);
    if i < |t| && t[i].1 != "" then Some(t[i].1) else None
  }

  /** Storing is setting one key of a map: the key then has the new value, cut to its buffer,
      and every other key what it had; but a full table takes no new key. */
  lemma {:induction false} StoredIsUpdate(t: Table, key: string, value: string, other: string)
    requires |key| < MAX_KEY
    ensures FromTable(Stored(t, key, value), other) ==
      if other == key && (EntryOf(t, key, 0) < |t| || |t| < MAX_ENTRIES) then
        (if value == "" then None else Some(Cut(value, MAX_VALUE)))
      else FromTable(t, other)
  {
    var i := EntryOf(t, key, 0);
    if i < |t| {
      SameEntry(t, Stored(t, key, value), other, 0);
    } else if |t| < MAX_ENTRIES {
      OneMoreEntry(t, (key, Cut(value, MAX_VALUE)), other, 0);
    }
  }

  /** Where a key is depends on the keys alone. */
  lemma {:induction false} SameEntry(t: Table, u: Table, key: string, i: nat)
    requires |u| == |t| && i <= |t| && forall j {:trigger u[j]} :: 0 <= j < |t| ==> u[j].0 == t[j].0
    ensures EntryOf(u, key, i) == EntryOf(t, key, i)
    decreases |t| - i
  {
    if i < |t| && t[i].0 != key { SameEntry(t, u, key, i + 1); }
  }

  lemma {:induction false} OneMoreEntry(t: Table, e: (string, string), key: string, i: nat)
    requires i <= |t|
    ensures EntryOf(t + [e], key, i) ==
            if EntryOf(t, key, i) < |t| then EntryOf(t, key, i) else if e.0 == key then |t| else |t| + 1
    decreases |t| - i
  {
    assert (t + [e])[|t|] == e;
    if i < |t| {
      assert (t + [e])[i] == t[i];
      if t[i].0 != key { OneMoreEntry(t, e, key, i + 1); }
    }
  }

  // ---- Reading ----

  const VS_CONSTANTS: int := 192
  const WIDESCREEN_2D_SIZE: nat := 16
  const FRAME_CAP_SIZE: nat := 16
  const GAME_DIR_SIZE: nat := 512
  const SYSLINK_SIZE: nat := 8
  const SYSLINK_HOST_SIZE: nat := 128
  const SYSLINK_CODE_SIZE: nat := 64

  function IntSetting(v: Option<string>, lo: int, hi: int, other: int): int {
    if v.Some? then ClampInt(Atoi(v.value), lo, hi) else other
  }

  function FlagSetting(v: Option<string>, other: bool): bool {
    if v.Some? then !OffWord(v.value) else other
  }

  function TextSetting(v: Option<string>, size: nat, other: string): string
    requires size > 0
  {
    if v.Some? then Cut(v.value, size) else other
  }

  function AtLeastZero(x: real): real {
    if x < 0.0 then 0.0 else x
  }

  function FactorSetting(v: Option<string>, n: Numbers): Option<real> {
    if v.Some? && !IEq(v.value, "auto") then Some(AtLeastZero(n.scan(v.value))) else None
  }

  function RegisterSetting(v: Option<string>): Option<int> {
    if v.Some? && !IEq(v.value, "auto") then Some(ClampInt(Atoi(v.value), 0, VS_CONSTANTS - 1)) else None
  }

  /** The settings a table holds; what it has no entry for is the default. */
  function SettingsFrom(t: Table, n: Numbers): Settings {
    var d := Defaults();
    Settings(
      IntSetting(FromTable(t, KeyName(ResolutionScale)), 1, 8, d.resolutionScale),
      FlagSetting(FromTable(t, KeyName(Widescreen)), d.widescreen),
      FactorSetting(FromTable(t, KeyName(HorPlus)), n),
      RegisterSetting(FromTable(t, KeyName(HorPlusRegister))),
      TextSetting(FromTable(t, KeyName(Widescreen2d)), WIDESCREEN_2D_SIZE, d.widescreen2d),
      IntSetting(FromTable(t, KeyName(Anisotropy)), 1, 16, d.anisotropy),
      TextSetting(FromTable(t, KeyName(FrameCap)), FRAME_CAP_SIZE, d.frameCap),
      FlagSetting(FromTable(t, KeyName(FpsOverlay)), d.fpsOverlay),
      FlagSetting(FromTable(t, KeyName(Fullscreen)), d.fullscreen),
      FlagSetting(FromTable(t, KeyName(Vrr)), d.vrr),
      IntSetting(FromTable(t, KeyName(FrameInterp)), 1, 4, d.frameInterp),
      FlagSetting(FromTable(t, KeyName(MouseLook)), d.mouseLook),
      IntSetting(FromTable(t, KeyName(MouseSensitivity)), 1, 100, d.mouseSensitivity),
      TextSetting(FromTable(t, KeyName(GameDir)), GAME_DIR_SIZE, d.gameDir),
      TextSetting(FromTable(t, KeyName(Syslink)), SYSLINK_SIZE, d.syslink),
      TextSetting(FromTable(t, KeyName(SyslinkHost)), SYSLINK_HOST_SIZE, d.syslinkHost),
      IntSetting(FromTable(t, KeyName(SyslinkPort)), 1, 65535, d.syslinkPort),
      TextSetting(FromTable(t, KeyName(SyslinkCode)), SYSLINK_CODE_SIZE, d.syslinkCode),
      FlagSetting(FromTable(t, KeyName(SyslinkUpnp)), d.syslinkUpnp))
  }

  class ConfigTable {
    var entries: Table

    constructor ()
      ensures entries == []
    {
      entries := [];
    }

    method Store(key: string, value: string)
      modifies this
      ensures entries == Stored(old(entries), key, value)
    {
      var i := 0;
      while i < |entries|
        invariant 0 <= i <= |entries| && entries == old(entries)
        invariant EntryOf(entries, key, i) == EntryOf(entries, key, 0)
      {
        if entries[i].0 == key {
          entries := entries[i := (entries[i].0, Cut(value, MAX_VALUE))];
          return;
        }
        i := i + 1;
      }
      if |entries| >= MAX_ENTRIES {
        return;
      }
      entries := entries + [(Cut(key, MAX_KEY), Cut(value, MAX_VALUE))];
    }

    method ReadLine(line: string)
      modifies this
      ensures entries == StoredLine(old(entries), line)
    {
      var p := Trim(line);
      if p != "" && p[0] != '#' && p[0] != ';' {
        var eq := Find(p, '=', 0);
        if eq < |p| {
          var key := Trim(p[..eq]);
          var value := Trim(p[eq + 1..]);
          Store(key, value);
        }
      }
    }

    /** Reads a file line by line. */
    method Parse(text: string)
      modifies this
      ensures entries == ParsedFrom(old(entries), Lines(text))
    {
      hide StoredLine, LineEnd;
      var at := 0;
      assert text[0..] == text;
      while at < |text|
        invariant 0 <= at <= |text|
        invariant ParsedFrom(entries, Lines(text[at..])) == ParsedFrom(old(entries), Lines(text))
      {
        var rest := text[at..];
        EndAdvances(rest);
        var k := LineEnd(rest, 0);
        ghost var before := entries;
        ReadLine(rest[..k]);
        assert rest[k..] == text[at + k..];
        assert Lines(rest) == [rest[..k]] + Lines(rest[k..]);
        assert Lines(rest)[1..] == Lines(rest[k..]);
        at := at + k;
      }
    }

    /** What a key is set to. */
    method Lookup(key: string) returns (v: Option<string>)
      ensures v == FromTable(entries, key)
    {
      var i := 0;
      while i < |entries|
        invariant 0 <= i <= |entries|
        invariant EntryOf(entries, key, i) == EntryOf(entries, key, 0)
      {
        if entries[i].0 == key {
          return if entries[i].1 != "" then Some(entries[i].1) else None;
        }
        i := i + 1;
      }
      return None;
    }

    /** A number kept to its range, a switch and a text cut to its buffer: what a field
        becomes when its key is set, and otherwise what it was. */
    method ReadInt(key: string, lo: int, hi: int, other: int) returns (r: int)
      ensures r == IntSetting(FromTable(entries, key), lo, hi, other)
    {
      r := other;
      var v := Lookup(key);
      if v.Some? {
        var i := Atoi(v.value);
        r := if i < lo then lo else if i > hi then hi else i;
      }
    }

    method ReadFlag(key: string, other: bool) returns (r: bool)
      ensures r == FlagSetting(FromTable(entries, key), other)
    {
      r := other;
      var v := Lookup(key);
      if v.Some? { r := !OffWord(v.value); }
    }

    method ReadText(key: string, size: nat, other: string) returns (r: string)
      requires size > 0
      ensures r == TextSetting(FromTable(entries, key), size, other)
    {
      r := other;
      var v := Lookup(key);
      if v.Some? { r := if |v.value| < size then v.value else v.value[..size - 1]; }
    }

    /** Reads a settings file: the table is borrowed for it and put back after. */
    method ReadSettings(text: string, n: Numbers) returns (s: Settings)
      modifies this
      ensures s == SettingsFrom(ParsedFrom([], Lines(text)), n)
      ensures entries == old(entries)
    {
      s := Defaults();
      var saved := entries;
      entries := [];
      Parse(text);
      hide FromTable, Lines, ParsedFrom, KeyName, IntSetting, FlagSetting, TextSetting, FactorSetting, RegisterSetting;
      var i: int, b: bool, t: string;
      i := ReadInt(KeyName(ResolutionScale), 1, 8, s.resolutionScale);
      s := s.(resolutionScale := i);
      b := ReadFlag(KeyName(Widescreen), s.widescreen);
      s := s.(widescreen := b);
      var v := Lookup(KeyName(HorPlus));
      s := s.(horPlus := FactorSetting(v, n));
      v := Lookup(KeyName(HorPlusRegister));
      s := s.(horPlusRegister := RegisterSetting(v));
      t := ReadText(KeyName(Widescreen2d), WIDESCREEN_2D_SIZE, s.widescreen2d);
      s := s.(widescreen2d := t);
      i := ReadInt(KeyName(Anisotropy), 1, 16, s.anisotropy);
      s := s.(anisotropy := i);
      t := ReadText(KeyName(FrameCap), FRAME_CAP_SIZE, s.frameCap);
      s := s.(frameCap := t);
      b := ReadFlag(KeyName(FpsOverlay), s.fpsOverlay);
      s := s.(fpsOverlay := b);
      b := ReadFlag(KeyName(Fullscreen), s.fullscreen);
      s := s.(fullscreen := b);
      b := ReadFlag(KeyName(Vrr), s.vrr);
      s := s.(vrr := b);
      i := ReadInt(KeyName(FrameInterp), 1, 4, s.frameInterp);
      s := s.(frameInterp := i);
      b := ReadFlag(KeyName(MouseLook), s.mouseLook);
      s := s.(mouseLook := b);
      i := ReadInt(KeyName(MouseSensitivity), 1, 100, s.mouseSensitivity);
      s := s.(mouseSensitivity := i);
      t := ReadText(KeyName(GameDir), GAME_DIR_SIZE, s.gameDir);
      s := s.(gameDir := t);
      t := ReadText(KeyName(Syslink), SYSLINK_SIZE, s.syslink);
      s := s.(syslink := t);
      t := ReadText(KeyName(SyslinkHost), SYSLINK_HOST_SIZE, s.syslinkHost);
      s := s.(syslinkHost := t);
      i := ReadInt(KeyName(SyslinkPort), 1, 65535, s.syslinkPort);
      s := s.(syslinkPort := i);
      t := ReadText(KeyName(SyslinkCode), SYSLINK_CODE_SIZE, s.syslinkCode);
      s := s.(syslinkCode := t);
      b := ReadFlag(KeyName(SyslinkUpnp), s.syslinkUpnp);
      s := s.(syslinkUpnp := b);
      entries := saved;
    }
  }
}
