/** The voice structures in guest memory, and the code that steps, starts and releases a
    voice's envelopes by reading and writing their fields in place. */
module VoiceMemory {
  import opened WholeNumbers
  import opened Mcpx
  import opened VoiceRegisters
  import E = VoiceEnvelope

  const VOICE_WORDS: nat := 32

  /** A field of a voice: which of its words holds it, and where. */
  datatype Register = Register(word: nat, field: Field) {
    ghost predicate Valid() { word < VOICE_WORDS && field.Valid() }
  }

  predicate Apart(r: Register, q: Register) {
    r.word != q.word || VoiceRegisters.Disjoint(r.field, q.field)
  }

  ghost predicate Holds(memory: seq<Word>, base: nat) {
    base + VOICE_WORDS * MCPX_HW_MAX_VOICES <= |memory|
  }

  function Address(base: nat, v: Handle, r: Register): nat {
    base + VOICE_WORDS * v + r.word
  }

  function Read(memory: seq<Word>, base: nat, v: Handle, r: Register): nat
    requires Holds(memory, base) && r.Valid()
  {
    Get(memory[Address(base, v, r)], r.field)
  }

  function Write(memory: seq<Word>, base: nat, v: Handle, r: Register, x: nat): (m: seq<Word>)
    requires Holds(memory, base) && r.Valid()
    ensures |m| == |memory|
  {
    memory[Address(base, v, r) := Set(memory[Address(base, v, r)], r.field, x)]
  }

  /** Writing a field of a voice gives it the value cut to its width, and leaves every field
      of other voices, of other words and of other bits of the word alone. */
  lemma {:induction false} ReadOfWrite(memory: seq<Word>, base: nat, v: Handle, r: Register, x: nat, u: Handle,
        q: Register)
    requires Holds(memory, base) && r.Valid() && q.Valid()
    ensures Read(Write(memory, base, v, r, x), base, v, r) == x % TwoTo(r.field.width)
    ensures u != v || Apart(r, q) ==> Read(Write(memory, base, v, r, x), base, u, q) == Read(memory, base, u, q)
  {
    var w := memory[Address(base, v, r)];
    GetOfSet(w, r.field, x);
    if Address(base, u, q) == Address(base, v, r) && VoiceRegisters.Disjoint(r.field, q.field) {
      GetOfOther(w, r.field, x, q.field);
    }
  }

  // ---- The fields of an envelope ----

  const ACTIVE_VOICE := Register(0x54 / 4, Field(21, 1))
  const PAUSED := Register(0x54 / 4, Field(18, 1))
  const CBO := Register(0x58 / 4, Field(0, 24))
  const EBO := Register(0x5C / 4, Field(0, 24))

  function Cur(amplitude: bool): Register {
    Register(0x54 / 4, Field(if amplitude then 28 else 24, 4))
  }

  function Count(amplitude: bool): Register {
    Register(0x34 / 4, Field(if amplitude then 0 else 16, 16))
  }

  function Level(amplitude: bool): Register {
    Register(if amplitude then 0x58 / 4 else 0x5C / 4, Field(24, 8))
  }

  function AttackRate(amplitude: bool): Register {
    Register(if amplitude then 0x08 / 4 else 0x10 / 4, Field(0, 12))
  }

  function DelayTime(amplitude: bool): Register {
    Register(if amplitude then 0x08 / 4 else 0x10 / 4, Field(12, 12))
  }

  function DecayRate(amplitude: bool): Register {
    Register(if amplitude then 0x0C / 4 else 0x14 / 4, Field(0, 12))
  }

  function HoldTime(amplitude: bool): Register {
    Register(if amplitude then 0x0C / 4 else 0x14 / 4, Field(12, 12))
  }

  function SustainLevel(amplitude: bool): Register {
    Register(if amplitude then 0x0C / 4 else 0x14 / 4, Field(24, 8))
  }

  function ReleaseRate(amplitude: bool): Register {
    Register(if amplitude then 0x6C / 4 else 0x18 / 4, Field(0, 12))
  }

  /** The register at a byte offset of the voice structure, cut out by a mask. */
  predicate Masked(r: Register, offset: nat, mask: nat) {
    r.word * 4 == offset && (TwoTo(r.field.width) - 1) * TwoTo(r.field.shift) == mask
  }

  lemma {:induction false} Powers()
    ensures TwoTo(0) == 1 && TwoTo(1) == 2 && TwoTo(4) == 0x10 && TwoTo(8) == 0x100 && TwoTo(12) == 0x1000
    ensures TwoTo(16) == 0x1_0000 && TwoTo(18) == 0x4_0000 && TwoTo(21) == 0x20_0000
    ensures TwoTo(24) == 0x100_0000 && TwoTo(28) == 0x1000_0000
  {
    assert TwoTo(4) == 0x10;
    assert TwoTo(8) == 0x100;
    assert TwoTo(12) == 0x1000;
    assert TwoTo(16) == 0x1_0000;
    assert TwoTo(20) == 0x10_0000;
    assert TwoTo(24) == 0x100_0000;
    assert TwoTo(28) == 0x1000_0000;
  }

  /** The fields are those of the register map. */
  lemma {:induction false} FieldsAreMapped()
    ensures Masked(ACTIVE_VOICE, 0x54, 0x20_0000) && Masked(PAUSED, 0x54, 0x4_0000)
    ensures Masked(CBO, 0x58, 0x00FF_FFFF) && Masked(EBO, 0x5C, 0x00FF_FFFF)
    ensures Masked(Cur(true), 0x54, 0xF000_0000) && Masked(Cur(false), 0x54, 0x0F00_0000)
    ensures Masked(Count(true), 0x34, 0x0000_FFFF) && Masked(Count(false), 0x34, 0xFFFF_0000)
    ensures Masked(Level(true), 0x58, 0xFF00_0000) && Masked(Level(false), 0x5C, 0xFF00_0000)
    ensures Masked(AttackRate(true), 0x08, 0x0000_0FFF) && Masked(AttackRate(false), 0x10, 0x0000_0FFF)
    ensures Masked(DelayTime(true), 0x08, 0x00FF_F000) && Masked(DelayTime(false), 0x10, 0x00FF_F000)
    ensures Masked(DecayRate(true), 0x0C, 0x0000_0FFF) && Masked(DecayRate(false), 0x14, 0x0000_0FFF)
    ensures Masked(HoldTime(true), 0x0C, 0x00FF_F000) && Masked(HoldTime(false), 0x14, 0x00FF_F000)
    ensures Masked(SustainLevel(true), 0x0C, 0xFF00_0000) && Masked(SustainLevel(false), 0x14, 0xFF00_0000)
    ensures Masked(ReleaseRate(true), 0x6C, 0x0000_0FFF) && Masked(ReleaseRate(false), 0x18, 0x0000_0FFF)
  {
    Powers();
    hide TwoTo;
  }

  function ShapeAt(memory: seq<Word>, base: nat, v: Handle, amplitude: bool): (s: E.Shape)
    requires Holds(memory, base)
    ensures s.Valid()
  {
    E.Shape(Read(memory, base, v, AttackRate(amplitude)), Read(memory, base, v, DelayTime(amplitude)),
            Read(memory, base, v, DecayRate(amplitude)), Read(memory, base, v, HoldTime(amplitude)),
            Read(memory, base, v, SustainLevel(amplitude)), Read(memory, base, v, ReleaseRate(amplitude)))
  }

  function EnvelopeAt(memory: seq<Word>, base: nat, v: Handle, amplitude: bool): (e: E.Envelope)
    requires Holds(memory, base)
    ensures e.Valid()
  {
    E.Envelope(Read(memory, base, v, Cur(amplitude)), Read(memory, base, v, Count(amplitude)),
               Read(memory, base, v, Level(amplitude)))
  }

  /** Nothing has changed but the fields of voice `v` in `written`. */
  ghost predicate Keeps(before: seq<Word>, after: seq<Word>, base: nat, v: Handle, written: seq<Register>)
    requires Holds(before, base)
  {
    && |after| == |before|
    && forall u: Handle, q: Register {:trigger Read(after, base, u, q)} ::
         q.Valid() && (u != v || forall i {:trigger written[i]} :: 0 <= i < |written| ==> Apart(written[i], q))
         ==> Read(after, base, u, q) == Read(before, base, u, q)
  }

  lemma {:induction false} KeepsNothing(memory: seq<Word>, base: nat, v: Handle, written: seq<Register>)
    requires Holds(memory, base)
    ensures Keeps(memory, memory, base, v, written)
  {
  }

  lemma {:induction false} KeepsWrite(before: seq<Word>, after: seq<Word>, base: nat, v: Handle,
        written: seq<Register>, k: nat, x: nat)
    requires Holds(before, base) && Keeps(before, after, base, v, written)
    requires k < |written| && written[k].Valid()
    ensures Keeps(before, Write(after, base, v, written[k], x), base, v, written)
  {
    forall u: Handle, q: Register | q.Valid() && (u != v || forall i {:trigger written[i]} :: 0 <= i < |written| ==> Apart(written[i], q))
      ensures Read(Write(after, base, v, written[k], x), base, u, q) == Read(before, base, u, q)
    {
      ReadOfWrite(after, base, v, written[k], x, u, q);
      assert Apart(written[k], q) || u != v;
    }
  }

  /** What a step of an envelope may write. */
  function Written(amplitude: bool): (r: seq<Register>)
    ensures |r| == 4 && forall i :: 0 <= i < 4 ==> r[i].Valid()
  {
    [Cur(amplitude), Count(amplitude), Level(amplitude), ACTIVE_VOICE]
  }

  function WithPart(e: E.Envelope, k: nat, x: nat): E.Envelope {
    if k == 0 then e.(cur := x % 16)
    else if k == 1 then e.(count := x % 0x1_0000)
    else if k == 2 then e.(level := x % 256)
    else e
  }

  lemma {:induction false} PartWritten(memory: seq<Word>, base: nat, v: Handle, amplitude: bool, k: nat, x: nat)
    requires Holds(memory, base) && k < 4
    ensures var m := Write(memory, base, v, Written(amplitude)[k], x);
      && EnvelopeAt(m, base, v, amplitude) == WithPart(EnvelopeAt(memory, base, v, amplitude), k, x)
      && Read(m, base, v, ACTIVE_VOICE) == if k == 3 then x % 2 else Read(memory, base, v, ACTIVE_VOICE)
  {
    var r := Written(amplitude)[k];
    ReadOfWrite(memory, base, v, r, x, v, Cur(amplitude));
    ReadOfWrite(memory, base, v, r, x, v, Count(amplitude));
    ReadOfWrite(memory, base, v, r, x, v, Level(amplitude));
    ReadOfWrite(memory, base, v, r, x, v, ACTIVE_VOICE);
  }

  /** The two envelopes share words but no bits: what one writes leaves the other's phase,
      count and level, both positions of the voice and its pause bit alone. */
  lemma {:induction false} EnvelopesApart(before: seq<Word>, after: seq<Word>, base: nat, v: Handle, amplitude: bool)
    requires Holds(before, base) && Keeps(before, after, base, v, Written(amplitude))
    ensures EnvelopeAt(after, base, v, !amplitude) == EnvelopeAt(before, base, v, !amplitude)
    ensures Read(after, base, v, CBO) == Read(before, base, v, CBO)
    ensures Read(after, base, v, EBO) == Read(before, base, v, EBO)
    ensures Read(after, base, v, PAUSED) == Read(before, base, v, PAUSED)
  {
  }

  /** What a step does to an envelope as it stands in memory. */
  function NextAt(memory: seq<Word>, base: nat, v: Handle, amplitude: bool, curve: E.Curve): E.Outcome
    requires Holds(memory, base)
  {
    E.Next(ShapeAt(memory, base, v, amplitude), curve, amplitude, EnvelopeAt(memory, base, v, amplitude))
  }

  /** Memory has taken that step, and nothing else has changed in it. */
  ghost predicate SteppedTo(before: seq<Word>, after: seq<Word>, base: nat, v: Handle, amplitude: bool,
        outcome: E.Outcome)
    requires Holds(before, base)
  {
    && Keeps(before, after, base, v, Written(amplitude))
    && (outcome.Unknown? ==> after == before)
    && (outcome.Stepped? ==> EnvelopeAt(after, base, v, amplitude) == outcome.envelope)
    && (outcome.Stepped? ==>
         Read(after, base, v, ACTIVE_VOICE) == if outcome.ended then 0 else Read(before, base, v, ACTIVE_VOICE))
  }

  class VoiceProcessor {
    /** Guest memory, as words, and where the voice structures start in it. */
    const words: array<Word>
    var base: nat

    ghost predicate Valid()
      reads this, words
    {
      Holds(words[..], base)
    }

    method VoiceGetMask(v: Handle, r: Register) returns (x: nat)
      requires Valid() && r.Valid()
      ensures x == Read(words[..], base, v, r)
    {
      x := Get(words[base + VOICE_WORDS * v + r.word], r.field);
    }

    method VoiceSetMask(v: Handle, r: Register, x: nat)
      requires Valid() && r.Valid()
      modifies words
      ensures Valid() && words[..] == Write(old(words[..]), base, v, r, x)
    {
      var i := base + VOICE_WORDS * v + r.word;
      words[i] := Set(words[i], r.field, x);
    }

    /** Writes one of the fields a step may write. */
    method SetPart(v: Handle, amplitude: bool, k: nat, x: nat, ghost before: seq<Word>)
      requires Valid() && k < 4
      requires Holds(before, base) && Keeps(before, words[..], base, v, Written(amplitude))
      modifies words
      ensures Valid() && Keeps(before, words[..], base, v, Written(amplitude))
      ensures EnvelopeAt(words[..], base, v, amplitude) == WithPart(old(EnvelopeAt(words[..], base, v, amplitude)), k, x)
      ensures Read(words[..], base, v, ACTIVE_VOICE) == if k == 3 then x % 2 else old(Read(words[..], base, v, ACTIVE_VOICE))
    {
      PartWritten(words[..], base, v, amplitude, k, x);
      KeepsWrite(before, words[..], base, v, Written(amplitude), k, x);
      VoiceSetMask(v, Written(amplitude)[k], x);
    }

    method SetCur(v: Handle, amplitude: bool, x: nat, ghost before: seq<Word>)
      requires Valid() && Holds(before, base) && Keeps(before, words[..], base, v, Written(amplitude)) && x < 16
      modifies words
      ensures Valid() && Keeps(before, words[..], base, v, Written(amplitude))
      ensures EnvelopeAt(words[..], base, v, amplitude) == old(EnvelopeAt(words[..], base, v, amplitude)).(cur := x)
      ensures Read(words[..], base, v, ACTIVE_VOICE) == old(Read(words[..], base, v, ACTIVE_VOICE))
    {
      hide Read;
      hide EnvelopeAt;
      hide Keeps;
      SetPart(v, amplitude, 0, x, before);
    }

    method SetCount(v: Handle, amplitude: bool, x: nat, ghost before: seq<Word>)
      requires Valid() && Holds(before, base) && Keeps(before, words[..], base, v, Written(amplitude)) && x < 0x1_0000
      modifies words
      ensures Valid() && Keeps(before, words[..], base, v, Written(amplitude))
      ensures EnvelopeAt(words[..], base, v, amplitude) == old(EnvelopeAt(words[..], base, v, amplitude)).(count := x)
      ensures Read(words[..], base, v, ACTIVE_VOICE) == old(Read(words[..], base, v, ACTIVE_VOICE))
    {
      hide Read;
      hide EnvelopeAt;
      hide Keeps;
      SetPart(v, amplitude, 1, x, before);
    }

    method SetLevel(v: Handle, amplitude: bool, x: nat, ghost before: seq<Word>)
      requires Valid() && Holds(before, base) && Keeps(before, words[..], base, v, Written(amplitude)) && x < 256
      modifies words
      ensures Valid() && Keeps(before, words[..], base, v, Written(amplitude))
      ensures EnvelopeAt(words[..], base, v, amplitude) == old(EnvelopeAt(words[..], base, v, amplitude)).(level := x)
      ensures Read(words[..], base, v, ACTIVE_VOICE) == old(Read(words[..], base, v, ACTIVE_VOICE))
    {
      hide Read;
      hide EnvelopeAt;
      hide Keeps;
      SetPart(v, amplitude, 2, x, before);
    }

    /** Moves on to a phase that counts down from sixteen times the field `r`. */
    method EnterPhase(v: Handle, amplitude: bool, phase: nat, r: Register, ghost before: seq<Word>)
      requires Valid() && Holds(before, base) && Keeps(before, words[..], base, v, Written(amplitude)) && phase < 16
      requires r == HoldTime(amplitude) || r == DecayRate(amplitude)
      modifies words
      ensures Valid() && Keeps(before, words[..], base, v, Written(amplitude))
      ensures var shape := ShapeAt(before, base, v, amplitude);
        EnvelopeAt(words[..], base, v, amplitude) == old(EnvelopeAt(words[..], base, v, amplitude)).(
          cur := phase, count := E.Count((if r == HoldTime(amplitude) then shape.holdTime else shape.decayRate) * 16))
      ensures Read(words[..], base, v, ACTIVE_VOICE) == old(Read(words[..], base, v, ACTIVE_VOICE))
    {
      SetCur(v, amplitude, phase, before);
      hide Read;
      hide EnvelopeAt;
      hide Keeps;
      hide ShapeAt;
      var time := VoiceGetMask(v, r);
      SetCount(v, amplitude, E.Count(time * 16), before);
    }

    method StepOff(v: Handle, amplitude: bool, curve: E.Curve, count: nat, ghost before: seq<Word>)
        returns (value: real, ghost after: E.Envelope)
      requires Valid() && words[..] == before
      requires EnvelopeAt(before, base, v, amplitude).cur == E.OFF && EnvelopeAt(before, base, v, amplitude).count == count
      modifies words
      ensures Valid() && Keeps(before, words[..], base, v, Written(amplitude))
      ensures EnvelopeAt(words[..], base, v, amplitude) == after
      ensures NextAt(before, base, v, amplitude, curve) == E.Stepped(after, value, false)
      ensures Read(words[..], base, v, ACTIVE_VOICE) == Read(before, base, v, ACTIVE_VOICE)
    {
      KeepsNothing(before, base, v, Written(amplitude));
      hide Read;
      hide EnvelopeAt;
      hide Keeps;
      hide E.Scaled;
      hide ShapeAt;
      SetCount(v, amplitude, 0, before);
      SetLevel(v, amplitude, 0xFF, before);
      value := 1.0;
      after := EnvelopeAt(words[..], base, v, amplitude);
    }

    method StepDelay(v: Handle, amplitude: bool, curve: E.Curve, count: nat, ghost before: seq<Word>)
        returns (value: real, ghost after: E.Envelope)
      requires Valid() && words[..] == before
      requires EnvelopeAt(before, base, v, amplitude).cur == E.DELAY && EnvelopeAt(before, base, v, amplitude).count == count
      modifies words
      ensures Valid() && Keeps(before, words[..], base, v, Written(amplitude))
      ensures EnvelopeAt(words[..], base, v, amplitude) == after
      ensures NextAt(before, base, v, amplitude, curve) == E.Stepped(after, value, false)
      ensures Read(words[..], base, v, ACTIVE_VOICE) == Read(before, base, v, ACTIVE_VOICE)
    {
      KeepsNothing(before, base, v, Written(amplitude));
      hide Read;
      hide EnvelopeAt;
      hide Keeps;
      hide E.Scaled;
      hide ShapeAt;
      SetLevel(v, amplitude, 0x00, before);
      if count == 0 {
        SetCur(v, amplitude, E.ATTACK, before);
        SetCount(v, amplitude, 0, before);
      } else {
        SetCount(v, amplitude, count - 1, before);
      }
      value := 0.0;
      after := EnvelopeAt(words[..], base, v, amplitude);
    }

    method StepAttack(v: Handle, amplitude: bool, curve: E.Curve, count: nat, ghost before: seq<Word>)
        returns (value: real, ghost after: E.Envelope)
      requires Valid() && words[..] == before
      requires EnvelopeAt(before, base, v, amplitude).cur == E.ATTACK && EnvelopeAt(before, base, v, amplitude).count == count
      modifies words
      ensures Valid() && Keeps(before, words[..], base, v, Written(amplitude))
      ensures EnvelopeAt(words[..], base, v, amplitude) == after
      ensures NextAt(before, base, v, amplitude, curve) == E.Stepped(after, value, false)
      ensures Read(words[..], base, v, ACTIVE_VOICE) == Read(before, base, v, ACTIVE_VOICE)
    {
      KeepsNothing(before, base, v, Written(amplitude));
      assert ShapeAt(before, base, v, amplitude).attackRate == Read(before, base, v, AttackRate(amplitude));
      hide Read;
      hide EnvelopeAt;
      hide Keeps;
      hide E.Count;
      hide E.Scaled;
      hide E.AttackValue;
      hide ShapeAt;
      var rate := VoiceGetMask(v, AttackRate(amplitude));
      var level := E.AttackValue(rate, count);
      SetLevel(v, amplitude, level, before);
      if count == rate * 16 {
        EnterPhase(v, amplitude, E.HOLD, HoldTime(amplitude), before);
      } else {
        SetCount(v, amplitude, E.Count(count + 1), before);
      }
      value := E.Scaled(level);
      after := EnvelopeAt(words[..], base, v, amplitude);
    }

    method StepHold(v: Handle, amplitude: bool, curve: E.Curve, count: nat, ghost before: seq<Word>)
        returns (value: real, ghost after: E.Envelope)
      requires Valid() && words[..] == before
      requires EnvelopeAt(before, base, v, amplitude).cur == E.HOLD && EnvelopeAt(before, base, v, amplitude).count == count
      modifies words
      ensures Valid() && Keeps(before, words[..], base, v, Written(amplitude))
      ensures EnvelopeAt(words[..], base, v, amplitude) == after
      ensures NextAt(before, base, v, amplitude, curve) == E.Stepped(after, value, false)
      ensures Read(words[..], base, v, ACTIVE_VOICE) == Read(before, base, v, ACTIVE_VOICE)
    {
      KeepsNothing(before, base, v, Written(amplitude));
      hide Read;
      hide EnvelopeAt;
      hide Keeps;
      hide E.Count;
      hide E.Scaled;
      hide ShapeAt;
      SetLevel(v, amplitude, 0xFF, before);
      if count == 0 {
        EnterPhase(v, amplitude, E.DECAY, DecayRate(amplitude), before);
      } else {
        SetCount(v, amplitude, count - 1, before);
      }
      value := 1.0;
      after := EnvelopeAt(words[..], base, v, amplitude);
    }

    method StepDecay(v: Handle, amplitude: bool, curve: E.Curve, count: nat, ghost before: seq<Word>)
        returns (value: real, ghost after: E.Envelope)
      requires Valid() && words[..] == before
      requires EnvelopeAt(before, base, v, amplitude).cur == E.DECAY && EnvelopeAt(before, base, v, amplitude).count == count
      modifies words
      ensures Valid() && Keeps(before, words[..], base, v, Written(amplitude))
      ensures EnvelopeAt(words[..], base, v, amplitude) == after
      ensures NextAt(before, base, v, amplitude, curve) == E.Stepped(after, value, false)
      ensures Read(words[..], base, v, ACTIVE_VOICE) == Read(before, base, v, ACTIVE_VOICE)
    {
      KeepsNothing(before, base, v, Written(amplitude));
      assert ShapeAt(before, base, v, amplitude).decayRate == Read(before, base, v, DecayRate(amplitude));
      assert ShapeAt(before, base, v, amplitude).sustainLevel == Read(before, base, v, SustainLevel(amplitude));
      hide Read;
      hide EnvelopeAt;
      hide Keeps;
      hide E.DecayEnds;
      hide E.LevelOf;
      hide E.Scaled;
      hide E.DecayValue;
      hide ShapeAt, E.Count;
      var rate := VoiceGetMask(v, DecayRate(amplitude));
      var sustain := VoiceGetMask(v, SustainLevel(amplitude));
      var level := E.DecayValue(rate, count);
      if E.DecayEnds(level, sustain) {
        SetCur(v, amplitude, E.SUSTAIN, before);
      } else {
        SetCount(v, amplitude, E.Count(count - 1), before);
        SetLevel(v, amplitude, E.LevelOf(level), before);
      }
      value := level / 255.0;
      after := EnvelopeAt(words[..], base, v, amplitude);
    }

    method StepSustain(v: Handle, amplitude: bool, curve: E.Curve, count: nat, ghost before: seq<Word>)
        returns (value: real, ghost after: E.Envelope)
      requires Valid() && words[..] == before
      requires EnvelopeAt(before, base, v, amplitude).cur == E.SUSTAIN && EnvelopeAt(before, base, v, amplitude).count == count
      modifies words
      ensures Valid() && Keeps(before, words[..], base, v, Written(amplitude))
      ensures EnvelopeAt(words[..], base, v, amplitude) == after
      ensures NextAt(before, base, v, amplitude, curve) == E.Stepped(after, value, false)
      ensures Read(words[..], base, v, ACTIVE_VOICE) == Read(before, base, v, ACTIVE_VOICE)
    {
      KeepsNothing(before, base, v, Written(amplitude));
      assert ShapeAt(before, base, v, amplitude).sustainLevel == Read(before, base, v, SustainLevel(amplitude));
      hide Read;
      hide EnvelopeAt;
      hide Keeps;
      hide E.Scaled;
      hide ShapeAt;
      var sustain := VoiceGetMask(v, SustainLevel(amplitude));
      SetCount(v, amplitude, 0, before);
      SetLevel(v, amplitude, sustain, before);
      value := E.Scaled(sustain);
      after := EnvelopeAt(words[..], base, v, amplitude);
    }

    method StepRelease(v: Handle, amplitude: bool, curve: E.Curve, count: nat, ghost before: seq<Word>)
        returns (value: real, ghost after: E.Envelope)
      requires Valid() && words[..] == before
      requires EnvelopeAt(before, base, v, amplitude).cur == E.RELEASE && EnvelopeAt(before, base, v, amplitude).count == count
      modifies words
      ensures Valid() && Keeps(before, words[..], base, v, Written(amplitude))
      ensures EnvelopeAt(words[..], base, v, amplitude) == after
      ensures NextAt(before, base, v, amplitude, curve) == E.Stepped(after, value, false)
      ensures Read(words[..], base, v, ACTIVE_VOICE) == Read(before, base, v, ACTIVE_VOICE)
    {
      KeepsNothing(before, base, v, Written(amplitude));
      var level := VoiceGetMask(v, Level(amplitude));
      assert level == EnvelopeAt(before, base, v, amplitude).level;
      assert ShapeAt(before, base, v, amplitude).releaseRate == Read(before, base, v, ReleaseRate(amplitude));
      hide Read;
      hide EnvelopeAt;
      hide Keeps;
      hide E.Scaled;
      hide E.ReleaseValue;
      hide ShapeAt;
      var rate := VoiceGetMask(v, ReleaseRate(amplitude));
      if rate == 0 || count == 0 {
        SetCur(v, amplitude, E.FORCE_RELEASE, before);
        value := 0.0;
      } else {
        SetCount(v, amplitude, count - 1, before);
        value := E.ReleaseValue(curve, rate, count, level);
      }
      after := EnvelopeAt(words[..], base, v, amplitude);
    }

    method StepForceRelease(v: Handle, amplitude: bool, curve: E.Curve, count: nat, ghost before: seq<Word>)
        returns (value: real, ghost after: E.Envelope)
      requires Valid() && words[..] == before
      requires EnvelopeAt(before, base, v, amplitude).cur == E.FORCE_RELEASE && EnvelopeAt(before, base, v, amplitude).count == count
      modifies words
      ensures Valid() && Keeps(before, words[..], base, v, Written(amplitude))
      ensures EnvelopeAt(words[..], base, v, amplitude) == after
      ensures NextAt(before, base, v, amplitude, curve) == E.Stepped(after, value, amplitude)
      ensures Read(words[..], base, v, ACTIVE_VOICE) == if amplitude then 0 else Read(before, base, v, ACTIVE_VOICE)
    {
      KeepsNothing(before, base, v, Written(amplitude));
      hide Read;
      hide EnvelopeAt;
      hide Keeps;
      hide E.Scaled;
      hide ShapeAt;
      if amplitude {
        SetPart(v, amplitude, 3, 0, before);
      }
      value := 0.0;
      after := EnvelopeAt(words[..], base, v, amplitude);
    }

    /** One step of an envelope of voice `v`, in place; `known` is false where the program
        aborts on a phase that does not exist. */
    method StepEnvelope(v: Handle, amplitude: bool, curve: E.Curve) returns (value: real, known: bool)
      requires Valid()
      modifies words
      ensures Valid() && SteppedTo(old(words[..]), words[..], base, v, amplitude, NextAt(old(words[..]), base, v, amplitude, curve))
      ensures known <==> NextAt(old(words[..]), base, v, amplitude, curve).Stepped?
      ensures known ==> value == NextAt(old(words[..]), base, v, amplitude, curve).value
    {
      ghost var before := words[..];
      KeepsNothing(before, base, v, Written(amplitude));
      known, value := true, 0.0;
      ghost var after;
      var cur := VoiceGetMask(v, Cur(amplitude));
      var count := VoiceGetMask(v, Count(amplitude));
      assert cur == EnvelopeAt(before, base, v, amplitude).cur && count == EnvelopeAt(before, base, v, amplitude).count;
      hide Read;
      hide EnvelopeAt;
      hide Keeps;
      hide E.Scaled;
      hide ShapeAt;
      if cur == E.OFF {
        value, after := StepOff(v, amplitude, curve, count, before);
      } else if cur == E.DELAY {
        value, after := StepDelay(v, amplitude, curve, count, before);
      } else if cur == E.ATTACK {
        value, after := StepAttack(v, amplitude, curve, count, before);
      } else if cur == E.HOLD {
        value, after := StepHold(v, amplitude, curve, count, before);
      } else if cur == E.DECAY {
        value, after := StepDecay(v, amplitude, curve, count, before);
      } else if cur == E.SUSTAIN {
        value, after := StepSustain(v, amplitude, curve, count, before);
      } else if cur == E.RELEASE {
        value, after := StepRelease(v, amplitude, curve, count, before);
      } else if cur == E.FORCE_RELEASE {
        value, after := StepForceRelease(v, amplitude, curve, count, before);
      } else {
        known := false;
      }
    }

    /** VOICE_ON for one envelope: its starting phase, and the count if that phase has one. */
    method StartEnvelope(v: Handle, amplitude: bool, start: nat)
      requires Valid() && start < 16
      modifies words
      ensures Valid() && Keeps(old(words[..]), words[..], base, v, Written(amplitude))
      ensures EnvelopeAt(words[..], base, v, amplitude)
           == E.VoiceOn(old(ShapeAt(words[..], base, v, amplitude)), start, old(EnvelopeAt(words[..], base, v, amplitude)))
      ensures Read(words[..], base, v, ACTIVE_VOICE) == old(Read(words[..], base, v, ACTIVE_VOICE))
    {
      ghost var before := words[..];
      KeepsNothing(before, base, v, Written(amplitude));
      hide Read;
      hide EnvelopeAt;
      hide Keeps;
      hide ShapeAt;
      SetCur(v, amplitude, start, before);
      if start == E.DELAY {
        var delayTime := VoiceGetMask(v, DelayTime(amplitude));
        SetCount(v, amplitude, delayTime * 16, before);
      } else if start == E.ATTACK {
        SetCount(v, amplitude, 0, before);
      } else if start == E.HOLD {
        var holdTime := VoiceGetMask(v, HoldTime(amplitude));
        SetCount(v, amplitude, holdTime * 16, before);
      }
    }

    /** VOICE_RELEASE for one envelope. */
    method ReleaseEnvelope(v: Handle, amplitude: bool)
      requires Valid()
      modifies words
      ensures Valid() && Keeps(old(words[..]), words[..], base, v, Written(amplitude))
      ensures EnvelopeAt(words[..], base, v, amplitude)
           == E.VoiceRelease(old(ShapeAt(words[..], base, v, amplitude)), old(EnvelopeAt(words[..], base, v, amplitude)))
      ensures Read(words[..], base, v, ACTIVE_VOICE) == old(Read(words[..], base, v, ACTIVE_VOICE))
    {
      ghost var before := words[..];
      KeepsNothing(before, base, v, Written(amplitude));
      hide Read;
      hide EnvelopeAt;
      hide Keeps;
      hide ShapeAt;
      var rate := VoiceGetMask(v, ReleaseRate(amplitude));
      SetCount(v, amplitude, rate * 16, before);
      SetCur(v, amplitude, E.RELEASE, before);
    }
  }
}
