/** The registers of the voices: 32-bit words in guest memory, each shared by several fields.
    A field is given by the position of its mask's lowest bit and its width. */
module VoiceRegisters {
  import opened WholeNumbers
  import opened Mcpx

  type Word = w: nat | w < 0x1_0000_0000

  datatype Field = Field(shift: nat, width: nat) {
    ghost predicate Valid() { width > 0 && shift + width <= 32 }

    function End(): nat { shift + width }
  }

  /** No bit belongs to both. */
  predicate Disjoint(f: Field, g: Field) {
    f.End() <= g.shift || g.End() <= f.shift
  }

  function Get(w: Word, f: Field): nat {
    w / TwoTo(f.shift) % TwoTo(f.width)
  }

  /** The word with the field's bits replaced by the low bits of `x`. */
  function Put(w: nat, f: Field, x: nat): int {
    w + (x % TwoTo(f.width) - w / TwoTo(f.shift) % TwoTo(f.width)) * TwoTo(f.shift)
  }

  lemma {:induction false} TwoToAdd(a: nat, b: nat)
    ensures TwoTo(a + b) == TwoTo(a) * TwoTo(b)
  {
    if a > 0 {
      TwoToAdd(a - 1, b);
      assert a + b - 1 == a - 1 + b;
      assert 2 * (TwoTo(a - 1) * TwoTo(b)) == (2 * TwoTo(a - 1)) * TwoTo(b);
    }
  }

  /** A word, split at a field: what is above it, the field, and what is below. */
  lemma {:induction false} Split(w: nat, f: Field) returns (high: nat, mid: nat, low: nat)
    ensures w == (high * TwoTo(f.width) + mid) * TwoTo(f.shift) + low
    ensures mid < TwoTo(f.width) && low < TwoTo(f.shift)
    ensures mid == w / TwoTo(f.shift) % TwoTo(f.width)
  {
    var q := w / TwoTo(f.shift);
    DivNonNegative(w, TwoTo(f.shift));
    DivNonNegative(q, TwoTo(f.width));
    high, mid, low := q / TwoTo(f.width), q % TwoTo(f.width), w % TwoTo(f.shift);
    assert q == high * TwoTo(f.width) + mid;
    assert w == q * TwoTo(f.shift) + low;
  }

  lemma {:induction false} Joined(high: nat, mid: nat, low: nat, f: Field)
    requires mid < TwoTo(f.width) && low < TwoTo(f.shift)
    ensures var w := (high * TwoTo(f.width) + mid) * TwoTo(f.shift) + low;
      && w / TwoTo(f.shift) == high * TwoTo(f.width) + mid
      && w % TwoTo(f.shift) == low
      && w / TwoTo(f.shift) % TwoTo(f.width) == mid
      && w / TwoTo(f.End()) == high
  {
    var q := high * TwoTo(f.width) + mid;
    var w := q * TwoTo(f.shift) + low;
    DivUnique(w, TwoTo(f.shift), q, low);
    DivUnique(q, TwoTo(f.width), high, mid);
    DivDiv(w, TwoTo(f.shift), TwoTo(f.width));
    TwoToAdd(f.shift, f.width);
  }

  /** Writing a field: how the word is split afterwards. */
  lemma {:induction false} PutSplits(w: nat, f: Field, x: nat) returns (high: nat, low: nat)
    ensures low < TwoTo(f.shift)
    ensures w == (high * TwoTo(f.width) + w / TwoTo(f.shift) % TwoTo(f.width)) * TwoTo(f.shift) + low
    ensures Put(w, f, x) == (high * TwoTo(f.width) + x % TwoTo(f.width)) * TwoTo(f.shift) + low
  {
    var mid;
    high, mid, low := Split(w, f);
    var u, n := TwoTo(f.shift), x % TwoTo(f.width);
    var h := high * TwoTo(f.width);
    assert (h + mid) * u + (n - mid) * u == (h + n) * u;
  }

  lemma {:induction false} WordSize()
    ensures TwoTo(32) == 0x1_0000_0000
  {
    assert TwoTo(4) == 0x10;
    assert TwoTo(8) == 0x100;
    assert TwoTo(12) == 0x1000;
    assert TwoTo(16) == 0x1_0000;
    assert TwoTo(20) == 0x10_0000;
    assert TwoTo(24) == 0x100_0000;
    assert TwoTo(28) == 0x1000_0000;
  }

  lemma {:induction false} ThreeParts(a: nat, b: nat, c: nat)
    ensures TwoTo(a + (b + c)) == TwoTo(a) * TwoTo(b) * TwoTo(c) == TwoTo(a) * TwoTo(b + c)
  {
    TwoToAdd(b, c);
    TwoToAdd(a, b + c);
    var x, y, z := TwoTo(a), TwoTo(b), TwoTo(c);
    assert x * y * z == x * (y * z);
  }

  lemma {:induction false} WordParts(f: Field)
    requires f.Valid()
    ensures TwoTo(32 - f.End()) * TwoTo(f.width) * TwoTo(f.shift) == 0x1_0000_0000
    ensures TwoTo(32 - f.End()) * TwoTo(f.End()) == 0x1_0000_0000
  {
    WordSize();
    ThreeParts(32 - f.End(), f.width, f.shift);
  }

  lemma {:induction false} PutIsWord(w: Word, f: Field, x: nat)
    requires f.Valid()
    ensures 0 <= Put(w, f, x) < 0x1_0000_0000
  {
    var high, low := PutSplits(w, f, x);
    var top, size, unit := TwoTo(32 - f.End()), TwoTo(f.width), TwoTo(f.shift);
    WordParts(f);
    Joined(high, w / unit % size, low, f);
    DivBelow(w, top, TwoTo(f.End()));
    ThreeDigits(high, x % size, low, top, size, unit);
  }

  function Set(w: Word, f: Field, x: nat): Word
    requires f.Valid()
  {
    PutIsWord(w, f, x);
    Put(w, f, x)
  }

  /** A field just written holds the value cut to its width. */
  lemma {:induction false} GetOfSet(w: Word, f: Field, x: nat)
    requires f.Valid()
    ensures Get(Set(w, f, x), f) == x % TwoTo(f.width)
  {
    var high, low := PutSplits(w, f, x);
    Joined(high, x % TwoTo(f.width), low, f);
  }

  /** A field above: it reads only what is above the one written. */
  lemma {:induction false} GetAbove(w: Word, f: Field, g: Field)
    requires f.End() <= g.shift
    ensures Get(w, g) == w / TwoTo(f.End()) / TwoTo(g.shift - f.End()) % TwoTo(g.width)
  {
    DivDiv(w, TwoTo(f.End()), TwoTo(g.shift - f.End()));
    TwoToAdd(f.End(), g.shift - f.End());
  }

  /** A field below: it reads only what is below the one written. */
  lemma {:induction false} GetBelow(w: Word, f: Field, g: Field)
    requires g.End() <= f.shift
    ensures Get(w, g) == w % TwoTo(f.shift) / TwoTo(g.shift) % TwoTo(g.width)
  {
    var rest := f.shift - g.End();
    TwoToAdd(g.shift, g.width + rest);
    TwoToAdd(g.width, rest);
    assert g.shift + (g.width + rest) == f.shift;
    LowDigits(w, TwoTo(g.shift), TwoTo(g.width), TwoTo(rest));
  }

  /** And every field that shares no bit with it is as it was. */
  lemma {:induction false} GetOfOther(w: Word, f: Field, x: nat, g: Field)
    requires f.Valid() && g.Valid() && Disjoint(f, g)
    ensures Get(Set(w, f, x), g) == Get(w, g)
  {
    var high, low := PutSplits(w, f, x);
    Joined(high, x % TwoTo(f.width), low, f);
    Joined(high, w / TwoTo(f.shift) % TwoTo(f.width), low, f);
    if f.End() <= g.shift {
      GetAbove(w, f, g);
      GetAbove(Set(w, f, x), f, g);
    } else {
      GetBelow(w, f, g);
      GetBelow(Set(w, f, x), f, g);
    }
  }
}
