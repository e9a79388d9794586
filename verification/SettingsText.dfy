/** The text handling under the settings file: trimming, reading a file by lines through a
    fixed buffer, splitting a line at its equals sign, and decimal numbers. */
module SettingsText {
  import opened Common

  const MAX_ENTRIES: nat := 64
  const MAX_KEY: nat := 64
  const MAX_VALUE: nat := 512
  const LINE_SIZE: nat := MAX_VALUE + MAX_KEY + 8

  // ---- Trimming ----

  predicate IsSpace(c: char) {
    c == ' ' || c == '\t' || c == '\n' || c == '\r' || c == '\U{000B}' || c == '\U{000C}'
  }

  function TrimLeft(s: string): string {
    if s != "" && IsSpace(s[0]) then TrimLeft(s[1..]) else s
  }

  function TrimRight(s: string): string {
    if s != "" && IsSpace(s[|s| - 1]) then TrimRight(s[..|s| - 1]) else s
  }

  function Trimmed(s: string): string {
    TrimRight(TrimLeft(s))
  }

  /** Nothing to trim. */
  predicate IsTrimmed(s: string) {
    s == "" || (!IsSpace(s[0]) && !IsSpace(s[|s| - 1]))
  }

  /** The loops that trim a line: from the left, then from the right. */
  method Trim(s: string) returns (r: string)
    ensures r == Trimmed(s)
  {
    var start := 0;
    assert s[0..] == s;
    while start < |s| && IsSpace(s[start])
      invariant 0 <= start <= |s|
      invariant TrimLeft(s[start..]) == TrimLeft(s)
    {
      assert s[start..][1..] == s[start + 1..];
      start := start + 1;
    }
    var t := s[start..];
    var end := |t|;
    assert t[..end] == t;
    while end > 0 && IsSpace(t[end - 1])
      invariant 0 <= end <= |t|
      invariant TrimRight(t[..end]) == TrimRight(t)
    {
      assert t[..end][..end - 1] == t[..end - 1];
      end := end - 1;
    }
    return t[..end];
  }

  /** Trimming leaves alone what has nothing to trim, and nothing else. */
  lemma {:induction false} TrimmedIff(s: string)
    ensures Trimmed(s) == s <==> IsTrimmed(s)
  {
    LeftShorter(s);
    if s != "" && IsSpace(s[0]) {
      LeftShorter(s[1..]);
      RightShorter(TrimLeft(s));
    } else if s != "" && IsSpace(s[|s| - 1]) {
      RightShorter(s[..|s| - 1]);
    }
  }

  lemma {:induction false} LeftShorter(s: string)
    ensures |TrimLeft(s)| <= |s|
  {
    if s != "" && IsSpace(s[0]) { LeftShorter(s[1..]); }
  }

  lemma {:induction false} RightShorter(s: string)
    ensures |TrimRight(s)| <= |s|
  {
    if s != "" && IsSpace(s[|s| - 1]) { RightShorter(s[..|s| - 1]); }
  }

  /** White space after a text is trimmed with it. */
  lemma {:induction false} TrimmedBefore(s: string, c: char)
    requires IsSpace(c)
    ensures Trimmed(s + [c]) == Trimmed(s)
  {
    if s != "" && IsSpace(s[0]) {
      assert (s + [c])[1..] == s[1..] + [c];
      TrimmedBefore(s[1..], c);
    } else if s == "" {
      assert (s + [c])[1..] == "";
    } else {
      assert (s + [c])[..|s|] == s;
    }
  }

  /** A text that starts with something else than white space still does after trimming. */
  lemma {:induction false} TrimmedHead(s: string)
    requires s != "" && !IsSpace(s[0])
    ensures Trimmed(s) != "" && Trimmed(s)[0] == s[0]
  {
    RightHead(s);
  }

  lemma {:induction false} RightHead(s: string)
    requires s != "" && !IsSpace(s[0])
    ensures TrimRight(s) != "" && TrimRight(s)[0] == s[0]
  {
    if IsSpace(s[|s| - 1]) { RightHead(s[..|s| - 1]); }
  }

  // ---- Lines ----

  /** Where the next line ends: after its newline, at the end of the text, or where the buffer
      is full. */
  function LineEnd(text: string, n: nat): (k: nat)
    requires n <= |text|
    ensures n <= k <= |text|
    decreases |text| - n
  {
    if n == |text| || n == LINE_SIZE - 1 then n
    else if text[n] == '\n' then n + 1
    else LineEnd(text, n + 1)
  }

  /** The text as it is read, piece by piece. */
  function Lines(text: string): seq<string>
    decreases |text|
  {
    if text == "" then []
    else
      EndAdvances(text);
      var k := LineEnd(text, 0);
      [text[..k]] + Lines(text[k..])
  }

  lemma {:induction false} EndAdvances(text: string)
    requires text != ""
    ensures LineEnd(text, 0) > 0
  {
    if text[0] != '\n' { assert LineEnd(text, 0) == LineEnd(text, 1); }
  }

  /** Lines written one by one. */
  function Joined(lines: seq<string>): string {
    if lines == [] then "" else lines[0] + "\n" + Joined(lines[1..])
  }

  predicate FitsLine(line: string) {
    '\n' !in line && |line| + 1 < LINE_SIZE
  }

  function WithNewlines(lines: seq<string>): seq<string> {
    if lines == [] then [] else [lines[0] + "\n"] + WithNewlines(lines[1..])
  }

  lemma {:induction false} LineEndAt(line: string, rest: string, n: nat)
    requires FitsLine(line) && n <= |line|
    ensures LineEnd(line + "\n" + rest, n) == |line| + 1
    decreases |line| - n
  {
    if n < |line| {
      assert (line + "\n" + rest)[n] == line[n];
      LineEndAt(line, rest, n + 1);
    }
  }

  /** Lines that fit are read back as they were written. */
  lemma {:induction false} LinesOfJoined(lines: seq<string>)
    requires forall i {:trigger lines[i]} :: 0 <= i < |lines| ==> FitsLine(lines[i])
    ensures Lines(Joined(lines)) == WithNewlines(lines)
  {
    if lines != [] {
      var rest := Joined(lines[1..]);
      var text := lines[0] + "\n" + rest;
      LineEndAt(lines[0], rest, 0);
      assert text[..|lines[0]| + 1] == lines[0] + "\n";
      assert text[|lines[0]| + 1..] == rest;
      LinesOfJoined(lines[1..]);
    }
  }

  // ---- Settings in lines ----

  function Find(s: string, c: char, n: nat): (k: nat)
    requires n <= |s|
    ensures n <= k <= |s|
    ensures k < |s| ==> s[k] == c
    decreases |s| - n
  {
    if n == |s| || s[n] == c then n else Find(s, c, n + 1)
  }

  /** The key and the value of a line, if it is a setting. */
  function ParseLine(line: string): Option<(string, string)> {
    var p := Trimmed(line);
    if p == "" || p[0] == '#' || p[0] == ';' then None
    else
      var eq := Find(p, '=', 0);
      if eq == |p| then None else Some((Trimmed(p[..eq]), Trimmed(p[eq + 1..])))
  }

  lemma {:induction false} FindFirst(a: string, c: char, b: string, n: nat)
    requires c !in a && n <= |a|
    ensures Find(a + [c] + b, c, n) == |a|
    decreases |a| - n
  {
    if n < |a| {
      assert (a + [c] + b)[n] == a[n];
      FindFirst(a, c, b, n + 1);
    }
  }

  predicate IsKey(key: string) {
    key != "" && key[0] != '#' && key[0] != ';' && '=' !in key && IsTrimmed(key)
  }

  /** White space at the end goes whether it is trimmed once or twice. */
  lemma {:induction false} TrimmedOfRight(s: string)
    ensures Trimmed(TrimRight(s)) == Trimmed(s)
  {
    if s != "" && IsSpace(s[|s| - 1]) {
      TrimmedOfRight(s[..|s| - 1]);
      TrimmedBefore(s[..|s| - 1], s[|s| - 1]);
      assert s == s[..|s| - 1] + [s[|s| - 1]];
    }
  }

  lemma {:induction false} RightOfJoined(a: string, b: string)
    requires a != "" && !IsSpace(a[|a| - 1])
    ensures TrimRight(a + b) == a + TrimRight(b)
  {
    if b == "" {
      assert a + b == a;
    } else {
      assert (a + b)[..|a + b| - 1] == a + b[..|b| - 1];
      if IsSpace(b[|b| - 1]) { RightOfJoined(a, b[..|b| - 1]); }
    }
  }

  /** A line written as a setting is read as that setting, its value trimmed; an equals sign
      in the value stays in the value. */
  lemma {:induction false} SettingLine(key: string, value: string)
    requires IsKey(key)
    ensures ParseLine(key + " = " + value + "\n") == Some((key, Trimmed(value)))
  {
    var line := key + " = " + value + "\n";
    var a, b := key + " ", " " + value + "\n";
    var head := a + "=";
    assert line == head + b;
    RightOfJoined(head, b);
    var p := head + TrimRight(b);
    assert Trimmed(line) == p;
    assert p == a + "=" + TrimRight(b);
    FindFirst(a, '=', TrimRight(b), 0);
    assert p[..|a|] == a && p[|a| + 1..] == TrimRight(b);
    TrimmedBefore(key, ' ');
    TrimmedIff(key);
    TrimmedOfRight(b);
    TrimmedBefore(" " + value, '\n');
  }

  /** No comment and no blank line is a setting. */
  lemma {:induction false} CommentLine(line: string)
    requires line == "" || line[0] == '#'
    ensures ParseLine(line + "\n") == None
  {
    TrimmedBefore(line, '\n');
    if line != "" { TrimmedHead(line); }
  }

  // ---- Numbers and words ----

  function DigitChar(d: nat): char
    requires d < 10
  {
    "0123456789"[d]
  }

  predicate IsDigit(c: char) {
    '0' <= c <= '9'
  }

  function DigitValue(c: char): nat
    requires IsDigit(c)
  {
    c as int - '0' as int
  }

  function Decimal(n: nat): (s: string)
    ensures s != ""
  {
    if n < 10 then [DigitChar(n)] else Decimal(n / 10) + [DigitChar(n % 10)]
  }

  /** The value of the digits a text starts with, after `seen` has been read. */
  function DigitsFrom(s: string, i: nat, seen: nat): nat
    requires i <= |s|
    decreases |s| - i
  {
    if i < |s| && IsDigit(s[i]) then DigitsFrom(s, i + 1, seen * 10 + DigitValue(s[i])) else seen
  }

  /** The number a text starts with: white space, a sign, digits. */
  function Atoi(s: string): int {
    var t := TrimLeft(s);
    if t != "" && t[0] == '-' then 0 - DigitsFrom(t, 1, 0) as int
    else if t != "" && t[0] == '+' then DigitsFrom(t, 1, 0)
    else DigitsFrom(t, 0, 0)
  }

  lemma {:induction false} DecimalDigits(n: nat)
    ensures forall i {:trigger Decimal(n)[i]} :: 0 <= i < |Decimal(n)| ==> IsDigit(Decimal(n)[i])
  {
    if n >= 10 { DecimalDigits(n / 10); }
  }

  lemma {:induction false} DigitsFromAppend(s: string, c: char, i: nat, seen: nat)
    requires i <= |s| && IsDigit(c) && forall k {:trigger s[k]} :: 0 <= k < |s| ==> IsDigit(s[k])
    ensures DigitsFrom(s + [c], i, seen) == DigitsFrom(s, i, seen) * 10 + DigitValue(c)
    decreases |s| - i
  {
    if i < |s| {
      assert (s + [c])[i] == s[i];
      DigitsFromAppend(s, c, i + 1, seen * 10 + DigitValue(s[i]));
    } else {
      assert (s + [c])[i] == c;
      assert DigitsFrom(s + [c], i + 1, seen * 10 + DigitValue(c)) == seen * 10 + DigitValue(c);
    }
  }

  lemma {:induction false} DecimalValue(n: nat)
    ensures DigitsFrom(Decimal(n), 0, 0) == n
  {
    if n < 10 {
      assert DigitsFrom(Decimal(n), 1, n) == n;
    } else {
      DecimalDigits(n / 10);
      DecimalValue(n / 10);
      DigitsFromAppend(Decimal(n / 10), DigitChar(n % 10), 0, 0);
    }
  }

  /** A number printed is the number read, and its text is a value a line can hold. */
  lemma {:induction false} DecimalRoundTrip(n: nat)
    ensures Atoi(Decimal(n)) == n
    ensures IsTrimmed(Decimal(n)) && '\n' !in Decimal(n)
  {
    DecimalDigits(n);
    DecimalValue(n);
    assert IsDigit(Decimal(n)[0]);
  }

  /** A number below 10 ^ digits has no more digits than that. */
  lemma {:induction false} DecimalLength(n: nat, digits: nat)
    requires digits > 0 && n < TenTo(digits)
    ensures |Decimal(n)| <= digits
  {
    if n >= 10 { DecimalLength(n / 10, digits - 1); }
  }

  function TenTo(digits: nat): nat {
    if digits == 0 then 1 else 10 * TenTo(digits - 1)
  }

  function IntText(n: int): string {
    if n < 0 then "-" + Decimal(-n) else Decimal(n)
  }

  predicate IsInt32(n: int) {
    -0x8000_0000 <= n < 0x8000_0000
  }

  lemma {:induction false} DigitsFromAfter(c: char, s: string, i: nat, seen: nat)
    requires i <= |s|
    ensures DigitsFrom([c] + s, i + 1, seen) == DigitsFrom(s, i, seen)
    decreases |s| - i
  {
    if i < |s| && IsDigit(s[i]) {
      assert ([c] + s)[i + 1] == s[i];
      DigitsFromAfter(c, s, i + 1, seen * 10 + DigitValue(s[i]));
    }
  }

  /** An integer printed is the integer read, and its text is a short value. */
  lemma {:induction false} IntRoundTrip(n: int)
    requires IsInt32(n)
    ensures Atoi(IntText(n)) == n
    ensures IsTrimmed(IntText(n)) && '\n' !in IntText(n) && 0 < |IntText(n)| <= 11
  {
    var m := if n < 0 then -n else n;
    DecimalDigits(m);
    DecimalRoundTrip(m);
    assert TenTo(10) == 10_000_000_000;
    DecimalLength(m, 10);
    if n < 0 {
      DigitsFromAfter('-', Decimal(m), 0, 0);
      DecimalValue(m);
    }
  }

  function Lower(c: char): char {
    if 'A' <= c <= 'Z' then (c as int + 32) as char else c
  }

  predicate IEq(a: string, b: string) {
    |a| == |b| && forall i {:trigger a[i]} :: 0 <= i < |a| ==> Lower(a[i]) == Lower(b[i])
  }

  predicate OffWord(v: string) {
    v == "0" || IEq(v, "off") || IEq(v, "no") || IEq(v, "false")
  }

  /** The words that switch a flag off, in any case; every other word switches it on. */
  lemma {:induction false} OffWords()
    ensures OffWord("0") && OffWord("OFF") && OffWord("No") && OffWord("False")
    ensures !OffWord("1") && !OffWord("on") && !OffWord("yes") && !OffWord("true") && !OffWord("")
  {
    assert Lower("on"[0]) != Lower("no"[0]);
    assert Lower("yes"[0]) != Lower("off"[0]);
  }
}
