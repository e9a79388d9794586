/** The software mixer: 64 voices with 16.16 fixed-point positions, mixed with clamping into
    the output frames, and the shared count of active voices. Volumes are exact reals. */
module SoftwareMixer {
  import opened WholeNumbers
  import opened Common

  const APU_MIXER_MAX_VOICES: nat := 64
  const MIXER_FRAME_SAMPLES: nat := 256

  type Sample = x: int | -32768 <= x <= 32767
  type Frame = (Sample, Sample)

  /** A mixer slot; `pcm` are the samples its data pointer leads to, if it is set. */
  datatype Voice = Voice(active: bool, looping: bool, pcm: Option<seq<Sample>>, pcmBytes: nat, channels: nat, rate: nat,
                         offset: nat, volume: real) {
    ghost predicate Valid() {
      && (pcm.Some? ==> |pcm.value| == pcmBytes / 2)
      && (active ==> Playable(this))
      && (Playable(this) ==> offset < End(this))
    }
  }

  /** What playing a slot asks for: data of one or two channels, one frame at least. */
  predicate Playable(v: Voice) {
    v.pcm.Some? && (v.channels == 1 || v.channels == 2) && v.pcmBytes >= v.channels * 2
  }

  function TotalFrames(v: Voice): nat {
    if v.channels == 2 then v.pcmBytes / 2 / 2 else v.pcmBytes / 2
  }

  function End(v: Voice): nat {
    TotalFrames(v) * 0x1_0000
  }

  function Inc(v: Voice): nat {
    v.rate * 0x1_0000 / 48000
  }

  /** Toward zero. */
  function Truncated(x: real): int {
    if x >= 0.0 then x.Floor else -((-x).Floor)
  }

  function ClampSample(x: int): Sample {
    if x > 32767 then 32767 else if x < -32768 then -32768 else x
  }

  function Mixed(f: Frame, left: int, right: int): Frame {
    (ClampSample(f.0 + left), ClampSample(f.1 + right))
  }

  // ---- What a voice plays ----

  predicate Sounds(v: Voice) {
    v.active && v.pcm.Some? && v.pcmBytes != 0 && TotalFrames(v) > 0
  }

  /** Where sample `i` of a render is, before the buffer's end is minded. */
  function Raw(v: Voice, i: nat): nat {
    v.offset + i * Inc(v)
  }

  predicate PlaysAt(v: Voice, i: nat) {
    Sounds(v) && (v.looping || Raw(v, i) < End(v))
  }

  /** The source frame of sample `i`: its position, taken around the buffer. */
  function SourceFrame(v: Voice, i: nat): nat
    requires Sounds(v)
  {
    Raw(v, i) % End(v) / 0x1_0000
  }

  function Loud(x: Sample, volume: real): int {
    Truncated(x as real * volume)
  }

  function Scaled(pcm: seq<Sample>, channels: nat, volume: real, k: nat): (int, int)
    requires 1 <= channels <= 2 && k * channels + channels <= |pcm|
  {
    if channels == 2 then (Loud(pcm[k * 2], volume), Loud(pcm[k * 2 + 1], volume))
    else (Loud(pcm[k], volume), Loud(pcm[k], volume))
  }

  /** A frame with the voice's source frame `k` mixed in. */
  function Heard(v: Voice, f: Frame, k: nat): Frame
    requires v.pcm.Some? && 1 <= v.channels <= 2 && k * v.channels + v.channels <= |v.pcm.value|
  {
    var s := Scaled(v.pcm.value, v.channels, v.volume, k);
    Mixed(f, s.0, s.1)
  }

  lemma {:induction false} FrameInRange(v: Voice, i: nat)
    requires v.Valid() && Sounds(v)
    ensures SourceFrame(v, i) < TotalFrames(v)
    ensures SourceFrame(v, i) * v.channels + v.channels <= |v.pcm.value|
  {
    var e := End(v);
    assert e > 0;
    var pos := Raw(v, i) % e;
    assert 0 <= pos < e;
    DivBelow(pos, TotalFrames(v), 0x1_0000);
  }

  /** What voice `v` adds to output frame `i`. */
  function AddVoice(v: Voice, f: Frame, i: nat): Frame
    requires v.Valid()
  {
    if PlaysAt(v, i) then
      FrameInRange(v, i);
      Heard(v, f, SourceFrame(v, i))
    else f
  }

  /** Voice `v` after `n` output frames: a one-shot that has come to its end is stopped and
      rewound. */
  function After(v: Voice, n: nat): Voice {
    if !Sounds(v) then v
    else if v.looping then v.(offset := Raw(v, n) % End(v))
    else if Raw(v, n) < End(v) then v.(offset := Raw(v, n))
    else v.(active := false, offset := 0)
  }

  lemma {:induction false} RawAdd(v: Voice, n: nat, m: nat)
    ensures Raw(v, n + m) == Raw(v, n) + m * Inc(v)
  {
    var inc := Inc(v);
    assert (n + m) * inc == n * inc + m * inc;
  }

  lemma {:induction false} ModAdd(a: nat, c: nat, b: nat)
    requires 0 < b
    ensures (a % b + c) % b == (a + c) % b
  {
    assert a == a / b * b + a % b;
    DivShift(a / b, b, a % b + c);
  }

  /** Splitting a render anywhere gives the same voice at the end, and the same samples. */
  lemma {:induction false} AfterSplits(v: Voice, n: nat, m: nat)
    requires v.Valid()
    ensures After(After(v, n), m) == After(v, n + m)
  {
    if Sounds(v) {
      var w := After(v, n);
      RawAdd(v, n, m);
      if v.looping {
        assert Raw(w, m) == Raw(v, n) % End(v) + m * Inc(v);
        ModAdd(Raw(v, n), m * Inc(v), End(v));
      } else {
        MulMonotone(0, Inc(v), m);
      }
    }
  }

  lemma {:induction false} PlaysSplits(v: Voice, n: nat, i: nat)
    requires v.Valid()
    ensures PlaysAt(After(v, n), i) == PlaysAt(v, n + i)
    ensures PlaysAt(v, n + i) ==> SourceFrame(After(v, n), i) == SourceFrame(v, n + i)
  {
    if Sounds(v) {
      var w, inc := After(v, n), Inc(v);
      RawAdd(v, n, i);
      MulMonotone(0, i, inc);
      assert i * inc >= 0;
      if v.looping {
        assert Raw(w, i) == Raw(v, n) % End(v) + i * inc;
        ModAdd(Raw(v, n), i * inc, End(v));
      } else if Raw(v, n) < End(v) {
        assert Raw(w, i) == Raw(v, n + i);
      }
    }
  }

  lemma {:induction false} AddVoiceSplits(v: Voice, n: nat, i: nat, f: Frame)
    requires v.Valid()
    ensures After(v, n).Valid()
    ensures AddVoice(After(v, n), f, i) == AddVoice(v, f, n + i)
  {
    PlaysSplits(v, n, i);
    var w := After(v, n);
    assert w.pcm == v.pcm && w.channels == v.channels && w.volume == v.volume;
    hide After;
    hide PlaysAt;
    hide SourceFrame;
    hide Mixed;
    hide Scaled;
  }

  // ---- All voices ----

  ghost predicate AllValid(voices: seq<Voice>) {
    forall s {:trigger voices[s]} :: 0 <= s < |voices| ==> voices[s].Valid()
  }

  /** Output frame `i` with the first `k` voices mixed in. */
  function MixFirst(voices: seq<Voice>, k: nat, f: Frame, i: nat): Frame
    requires AllValid(voices) && k <= |voices|
  {
    if k == 0 then f else AddVoice(voices[k - 1], MixFirst(voices, k - 1, f, i), i)
  }

  function MixAll(voices: seq<Voice>, f: Frame, i: nat): Frame
    requires AllValid(voices)
  {
    MixFirst(voices, |voices|, f, i)
  }

  ghost function AllAfter(voices: seq<Voice>, n: nat): (r: seq<Voice>)
    requires AllValid(voices)
    ensures |r| == |voices| && AllValid(r)
    ensures forall s {:trigger r[s]} :: 0 <= s < |voices| ==> r[s] == After(voices[s], n)
  {
    forall s ensures 0 <= s < |voices| ==> After(voices[s], n).Valid() {
    }
    seq(|voices|, s requires 0 <= s < |voices| => After(voices[s], n))
  }

  lemma {:induction false} MixSplits(voices: seq<Voice>, n: nat, k: nat, f: Frame, i: nat)
    requires AllValid(voices) && k <= |voices|
    ensures MixFirst(AllAfter(voices, n), k, f, i) == MixFirst(voices, k, f, n + i)
  {
    if k > 0 {
      MixSplits(voices, n, k - 1, f, i);
      AddVoiceSplits(voices[k - 1], n, i, MixFirst(voices, k - 1, f, n + i));
    }
  }

  /** A render: the frames, and the voices after it. */
  ghost function Rendered(voices: seq<Voice>, frames: seq<Frame>): (r: seq<Frame>)
    requires AllValid(voices)
    ensures |r| == |frames| && forall i {:trigger r[i]} :: 0 <= i < |frames| ==> r[i] == MixAll(voices, frames[i], i)
  {
    seq(|frames|, i requires 0 <= i < |frames| => MixAll(voices, frames[i], i))
  }

  /** Rendering in two parts is rendering at once, for any voices and any split. */
  lemma {:induction false} RenderSplits(voices: seq<Voice>, a: seq<Frame>, b: seq<Frame>)
    requires AllValid(voices)
    ensures Rendered(voices, a + b) == Rendered(voices, a) + Rendered(AllAfter(voices, |a|), b)
    ensures AllAfter(AllAfter(voices, |a|), |b|) == AllAfter(voices, |a + b|)
  {
    forall i | 0 <= i < |a + b| ensures Rendered(voices, a + b)[i] == (Rendered(voices, a) + Rendered(AllAfter(voices, |a|), b))[i] {
      if i >= |a| { MixSplits(voices, |a|, |voices|, b[i - |a|], i - |a|); }
    }
    forall s | 0 <= s < |voices| ensures AllAfter(AllAfter(voices, |a|), |b|)[s] == AllAfter(voices, |a + b|)[s] {
      AfterSplits(voices[s], |a|, |b|);
    }
  }

  // ---- What a render adds up to ----

  /** A sample by its volume, without the fraction. */
  lemma {:induction false} LoudDropsFraction(x: Sample, volume: real)
    ensures var y, z := x as real * volume, Loud(x, volume) as real;
      (y >= 0.0 ==> z <= y < z + 1.0) && (y < 0.0 ==> z - 1.0 < y <= z)
  {
  }

  /** Where frame `i` of a render comes from: the position moves on by the rate over 48000 in
      16.16 fixed point, and goes around the buffer. */
  function Position(v: Voice, i: nat): nat {
    v.offset + i * (v.rate * 0x1_0000 / 48000)
  }

  /** The 16-bit frames of the data. */
  function Length(v: Voice): nat {
    if v.channels == 2 then v.pcmBytes / 4 else v.pcmBytes / 2
  }

  predicate Plays(v: Voice, i: nat) {
    v.active && v.pcm.Some? && Length(v) > 0 && (v.looping || Position(v, i) < Length(v) * 0x1_0000)
  }

  function PlayedFrame(v: Voice, i: nat): nat
    requires Plays(v, i)
  {
    Position(v, i) % (Length(v) * 0x1_0000) / 0x1_0000
  }

  lemma {:induction false} PlayedIsSource(v: Voice, i: nat)
    requires v.Valid()
    ensures Plays(v, i) <==> PlaysAt(v, i)
    ensures Plays(v, i) ==> PlayedFrame(v, i) == SourceFrame(v, i) && PlayedFrame(v, i) < Length(v)
    ensures Plays(v, i) && v.channels == 2 ==> 2 * PlayedFrame(v, i) + 1 < |v.pcm.value|
    ensures Plays(v, i) && v.channels != 2 ==> PlayedFrame(v, i) < |v.pcm.value|
  {
    DivDiv(v.pcmBytes, 2, 2);
    assert Length(v) == TotalFrames(v) && Position(v, i) == Raw(v, i);
    if PlaysAt(v, i) { FrameInRange(v, i); }
    hide Raw, Position;
  }

  /** What a voice brings to frame `i`, left and right: with two channels samples 2k and 2k + 1,
      with one sample k on both sides, by the volume. */
  function Brings(v: Voice, i: nat): (int, int)
    requires v.Valid()
  {
    PlayedIsSource(v, i);
    if !Plays(v, i) then (0, 0)
    else
      var k := PlayedFrame(v, i);
      if v.channels == 2 then
        (Loud(v.pcm.value[2 * k], v.volume), Loud(v.pcm.value[2 * k + 1], v.volume))
      else (Loud(v.pcm.value[k], v.volume), Loud(v.pcm.value[k], v.volume))
  }

  /** `y` is the sample nearest to `x`. */
  predicate Nearest(x: int, y: int) {
    && -32768 <= y <= 32767 && (-32768 <= x <= 32767 ==> y == x)
    && (x > 32767 ==> y == 32767) && (x < -32768 ==> y == -32768)
  }

  lemma {:induction false} MixedIsNearest(f: Frame, left: int, right: int)
    ensures Nearest(f.0 + left, Mixed(f, left, right).0) && Nearest(f.1 + right, Mixed(f, left, right).1)
  {
  }

  lemma {:induction false} ScaledIsBrought(v: Voice, i: nat)
    requires v.Valid() && Plays(v, i)
    ensures PlayedFrame(v, i) * v.channels + v.channels <= |v.pcm.value|
    ensures Scaled(v.pcm.value, v.channels, v.volume, PlayedFrame(v, i)) == Brings(v, i)
  {
    PlayedIsSource(v, i);
    hide Loud, Plays, PlayedFrame, PlaysAt, SourceFrame;
    if v.channels == 2 { assert 2 * PlayedFrame(v, i) == PlayedFrame(v, i) * 2; }
  }

  /** A voice is added to the frame there is; a sum out of range gives the bound it is beyond. */
  lemma {:induction false} AddVoiceAdds(v: Voice, f: Frame, i: nat)
    requires v.Valid()
    ensures Nearest(f.0 + Brings(v, i).0, AddVoice(v, f, i).0) && Nearest(f.1 + Brings(v, i).1, AddVoice(v, f, i).1)
  {
    PlayedIsSource(v, i);
    if Plays(v, i) {
      ScaledIsBrought(v, i);
      MixedIsNearest(f, Brings(v, i).0, Brings(v, i).1);
    } else {
      MixedIsNearest(f, 0, 0);
      assert Brings(v, i) == (0, 0);
      assert Mixed(f, 0, 0) == f;
    }
    hide Plays, PlaysAt, PlayedFrame, SourceFrame, Brings, Mixed, Scaled, Nearest;
  }

  /** What the first `k` voices bring together. */
  function SumOf(voices: seq<Voice>, k: nat, i: nat): (int, int)
    requires AllValid(voices) && k <= |voices|
  {
    if k == 0 then (0, 0)
    else
      var sum, more := SumOf(voices, k - 1, i), Brings(voices[k - 1], i);
      (sum.0 + more.0, sum.1 + more.1)
  }

  /** No partial sum leaves the range of a sample. */
  ghost predicate Fits(voices: seq<Voice>, f: Frame, i: nat)
    requires AllValid(voices)
  {
    forall k: nat {:trigger SumOf(voices, k, i)} :: k <= |voices| ==>
      -32768 <= f.0 + SumOf(voices, k, i).0 <= 32767 && -32768 <= f.1 + SumOf(voices, k, i).1 <= 32767
  }

  lemma {:induction false} MixFirstSums(voices: seq<Voice>, k: nat, f: Frame, i: nat)
    requires AllValid(voices) && k <= |voices| && Fits(voices, f, i)
    ensures MixFirst(voices, k, f, i) == (f.0 + SumOf(voices, k, i).0, f.1 + SumOf(voices, k, i).1)
  {
    hide AddVoice, Brings;
    if k > 0 {
      MixFirstSums(voices, k - 1, f, i);
      AddVoiceAdds(voices[k - 1], MixFirst(voices, k - 1, f, i), i);
      assert -32768 <= f.0 + SumOf(voices, k, i).0 <= 32767;
    }
  }

  /** Whatever the sums, the frames go through the voices one after the other, each adding what it
      brings. */
  ghost predicate AddsUp(voices: seq<Voice>, i: nat, partial: seq<Frame>)
    requires AllValid(voices)
  {
    && |partial| == |voices| + 1
    && forall k: nat {:trigger partial[k], voices[k]} :: k < |voices| ==>
         && Nearest(partial[k].0 + Brings(voices[k], i).0, partial[k + 1].0)
         && Nearest(partial[k].1 + Brings(voices[k], i).1, partial[k + 1].1)
  }

  /** Frame `i` after a render: the frame before and what every voice that plays brings to it,
      and where a sum on the way is out of range its bound. */
  lemma {:induction false} RenderAdds(voices: seq<Voice>, f: Frame, i: nat) returns (partial: seq<Frame>)
    requires AllValid(voices)
    ensures AddsUp(voices, i, partial) && partial[0] == f && partial[|voices|] == MixAll(voices, f, i)
    ensures Fits(voices, f, i) ==>
      MixAll(voices, f, i) == (f.0 + SumOf(voices, |voices|, i).0, f.1 + SumOf(voices, |voices|, i).1)
  {
    partial := seq(|voices| + 1, k requires 0 <= k <= |voices| => MixFirst(voices, k, f, i));
    forall k: nat {:trigger partial[k], voices[k]} | k < |voices|
      ensures Nearest(partial[k].0 + Brings(voices[k], i).0, partial[k + 1].0)
      ensures Nearest(partial[k].1 + Brings(voices[k], i).1, partial[k + 1].1)
    {
      AddVoiceAdds(voices[k], MixFirst(voices, k, f, i), i);
    }
    if Fits(voices, f, i) { MixFirstSums(voices, |voices|, f, i); }
  }

  // ---- The active count ----

  function ActiveCount(voices: seq<Voice>, k: nat): nat
    requires k <= |voices|
  {
    if k == 0 then 0 else ActiveCount(voices, k - 1) + (if voices[k - 1].active then 1 else 0)
  }

  lemma {:induction false} CountAfterSet(voices: seq<Voice>, s: nat, v: Voice, k: nat)
    requires s < |voices| && k <= |voices|
    ensures ActiveCount(voices[s := v], k) ==
      ActiveCount(voices, k) + (if s < k then (if v.active then 1 else 0) - (if voices[s].active then 1 else 0) else 0)
  {
    if k > 0 { CountAfterSet(voices, s, v, k - 1); }
  }

  /** The frame a byte offset falls in. */
  function FrameOf(channels: nat, bytes: nat): nat {
    if channels == 2 then bytes / 4 else bytes / 2
  }

  predicate CanSeek(v: Voice, byteOffset: nat) {
    && (v.channels == 1 || v.channels == 2) && byteOffset < v.pcmBytes
    && FrameOf(v.channels, byteOffset) < FrameOf(v.channels, v.pcmBytes)
  }

  function Sought(v: Voice, byteOffset: nat): Voice {
    v.(offset := FrameOf(v.channels, byteOffset) * 0x1_0000)
  }

  /** What can be started is data of one or two channels with a whole frame in it, and once
      started it is heard. */
  lemma {:induction false} PlayableIffFrame(v: Voice, looping: bool)
    requires v.Valid()
    ensures Playable(v) <==> v.pcm.Some? && (v.channels == 1 || v.channels == 2) && Length(v) > 0
    ensures Playable(v) ==> Plays(v.(active := true, looping := looping), 0)
  {
    DivDiv(v.pcmBytes, 2, 2);
    assert v.channels == 2 && v.pcmBytes >= 4 ==> v.pcmBytes / 4 >= 1;
    assert v.channels == 1 && v.pcmBytes >= 2 ==> v.pcmBytes / 2 >= 1;
  }

  /** A voice that is still on goes on where it was; one that came to its end starts over when it
      is played again. */
  lemma {:induction false} GoesOn(v: Voice, n: nat)
    requires v.Valid() && Plays(v, 0)
    ensures After(v, n).active <==> Plays(v, n)
    ensures Plays(v, n) ==> After(v, n).offset == Position(v, n) % (Length(v) * 0x1_0000)
    ensures !Plays(v, n) ==> Plays(After(v, n).(active := true), 0) && PlayedFrame(After(v, n).(active := true), 0) == 0
  {
    DivDiv(v.pcmBytes, 2, 2);
    assert Length(v) == TotalFrames(v) && Position(v, n) == Raw(v, n);
    if !v.looping && Raw(v, n) < End(v) { SmallMod(Raw(v, n), End(v)); }
    SmallMod(0, End(v));
    hide Raw;
  }

  /** A playable slot can be moved to the offsets inside one of its whole frames. */
  lemma {:induction false} CanSeekIff(v: Voice, byteOffset: nat)
    requires v.Valid() && Playable(v)
    ensures CanSeek(v, byteOffset) <==> byteOffset / (2 * v.channels) < Length(v)
  {
    if v.pcmBytes <= byteOffset { DivMonotone(v.pcmBytes, byteOffset, 2 * v.channels); }
  }

  /** A seek goes to the start of the frame the byte is in, which is then the position reported. */
  lemma {:induction false} SeekGoesToFrame(v: Voice, byteOffset: nat)
    requires CanSeek(v, byteOffset)
    ensures Sought(v, byteOffset).offset % 0x1_0000 == 0
    ensures Sought(v, byteOffset).offset / 0x1_0000 * v.channels * 2 == byteOffset - byteOffset % (2 * v.channels)
  {
    var k := FrameOf(v.channels, byteOffset);
    DivExact(k, 0x1_0000);
  }

  class Mixer {
    const voices: array<Voice>
    var activeCount: int
    var muted: bool

    ghost predicate Valid()
      reads this, voices
    {
      && voices.Length == APU_MIXER_MAX_VOICES && AllValid(voices[..])
      && activeCount == ActiveCount(voices[..], APU_MIXER_MAX_VOICES)
    }

    constructor ()
      ensures Valid() && activeCount == 0 && fresh(voices)
    {
      voices := new Voice[APU_MIXER_MAX_VOICES](s => Voice(false, false, None, 0, 0, 0, 0, 0.0));
      activeCount := 0;
      muted := false;
      new;
      NoneActive(voices[..], APU_MIXER_MAX_VOICES);
    }

    /** A slot that is neither playing nor holding data, or -1. */
    method AllocVoice() returns (slot: int)
      requires Valid()
      modifies voices
      ensures Valid()
      ensures slot == -1 || 0 <= slot < voices.Length
      ensures slot >= 0 ==> !old(voices[slot].active) && old(voices[slot].pcm).None?
      ensures slot >= 0 ==> voices[..] == old(voices[..])[slot := old(voices[slot]).(volume := 1.0, rate := 44100, channels := 2)]
      ensures slot == -1 ==> voices[..] == old(voices[..])
      ensures slot == -1 ==> forall s {:trigger voices[s]} :: 0 <= s < voices.Length ==> voices[s].active || voices[s].pcm.Some?
    {
      for i := 0 to APU_MIXER_MAX_VOICES
        invariant forall s {:trigger voices[s]} :: 0 <= s < i ==> voices[s].active || voices[s].pcm.Some?
      {
        if !voices[i].active && voices[i].pcm.None? {
          CountAfterSet(voices[..], i, voices[i].(volume := 1.0, rate := 44100, channels := 2), APU_MIXER_MAX_VOICES);
          voices[i] := voices[i].(volume := 1.0, rate := 44100, channels := 2);
          return i;
        }
      }
      return -1;
    }

    method Stop(slot: int)
      requires Valid()
      modifies `activeCount, voices
      ensures Valid()
      ensures voices[..] ==
        if 0 <= slot < voices.Length then old(voices[..])[slot := old(voices[slot]).(active := false)] else old(voices[..])
    {
      if slot < 0 || slot >= voices.Length {
        return;
      }
      if voices[slot].active {
        CountAfterSet(voices[..], slot, voices[slot].(active := false), APU_MIXER_MAX_VOICES);
        voices[slot] := voices[slot].(active := false);
        activeCount := activeCount - 1;
      } else {
        assert voices[..] == voices[..][slot := voices[slot].(active := false)];
      }
    }

    method FreeVoice(slot: int)
      requires Valid()
      modifies `activeCount, voices
      ensures Valid()
      ensures 0 <= slot < voices.Length ==> voices[..] == old(voices[..])[slot :=
        old(voices[slot]).(active := false, pcm := None, pcmBytes := 0, offset := 0)]
      ensures !(0 <= slot < voices.Length) ==> voices[..] == old(voices[..])
    {
      if slot < 0 || slot >= voices.Length {
        return;
      }
      Stop(slot);
      CountAfterSet(voices[..], slot, voices[slot].(pcm := None, pcmBytes := 0, offset := 0), APU_MIXER_MAX_VOICES);
      voices[slot] := voices[slot].(pcm := None, pcmBytes := 0, offset := 0);
    }

    /** What DirectSound does when a buffer gets new data: its voice is stopped, and given the
        new samples and format if they are of 16 bits. */
    method SetBufferData(slot: int, bits: nat, pcm: Option<seq<Sample>>, bytes: nat, channels: nat, rate: nat)
      requires Valid() && (pcm.Some? ==> |pcm.value| == bytes / 2)
      modifies `activeCount, voices
      ensures Valid()
      ensures 0 <= slot < voices.Length ==> voices[..] == old(voices[..])[slot :=
        var v := old(voices[slot]).(active := false);
        if bits != 16 then v else v.(
          pcm := pcm, pcmBytes := if pcm.Some? then bytes else 0, offset := 0, channels := channels, rate := rate)]
      ensures !(0 <= slot < voices.Length) ==> voices[..] == old(voices[..])
    {
      Stop(slot);
      if 0 <= slot < voices.Length && bits == 16 {
        var v := voices[slot].(
          pcm := pcm, pcmBytes := if pcm.Some? then bytes else 0, offset := 0, channels := channels, rate := rate);
        CountAfterSet(voices[..], slot, v, APU_MIXER_MAX_VOICES);
        voices[slot] := v;
      }
    }

    /** Seeks to the frame of a byte offset, if that is inside the buffer. */
    method SetPosition(slot: int, byteOffset: nat) returns (valid: bool)
      requires Valid()
      modifies voices
      ensures Valid()
      ensures valid <==> 0 <= slot < voices.Length && CanSeek(old(voices[slot]), byteOffset)
      ensures voices[..] == if valid then old(voices[..])[slot := Sought(old(voices[slot]), byteOffset)] else old(voices[..])
    {
      if slot < 0 || slot >= voices.Length {
        return false;
      }
      var v := voices[slot];
      valid := (v.channels == 1 || v.channels == 2) && byteOffset < v.pcmBytes
        && FrameOf(v.channels, byteOffset) < FrameOf(v.channels, v.pcmBytes);
      if valid {
        CountAfterSet(voices[..], slot, Sought(v, byteOffset), APU_MIXER_MAX_VOICES);
        voices[slot] := v.(offset := FrameOf(v.channels, byteOffset) * 0x1_0000);
      }
    }

    method GetState(slot: int) returns (byteOffset: nat, active: bool, looping: bool)
      requires Valid()
      ensures 0 <= slot < voices.Length ==>
        && byteOffset == voices[slot].offset / 0x1_0000 * voices[slot].channels * 2
        && active == voices[slot].active && looping == (voices[slot].active && voices[slot].looping)
      ensures 0 <= slot < voices.Length && Playable(voices[slot]) ==> byteOffset < voices[slot].pcmBytes
      ensures !(0 <= slot < voices.Length) ==> byteOffset == 0 && !active && !looping
    {
      if slot < 0 || slot >= voices.Length {
        return 0, false, false;
      }
      var v := voices[slot];
      assert v.Valid();
      if Playable(v) { DivBelow(v.offset, TotalFrames(v), 0x1_0000); }
      return v.offset / 0x1_0000 * v.channels * 2, v.active, v.active && v.looping;
    }

    /** Starts a slot from where it stands, or changes whether a playing one loops. */
    method Play(slot: int, looping: bool)
      requires Valid()
      modifies `activeCount, voices
      ensures Valid()
      ensures voices[..] ==
        if !muted && 0 <= slot < voices.Length && Playable(old(voices[slot]))
        then old(voices[..])[slot := old(voices[slot]).(active := true, looping := looping)] else old(voices[..])
    {
      if muted {
        return;
      }
      if slot < 0 || slot >= voices.Length {
        return;
      }
      var v := voices[slot];
      if v.pcm.None? || (v.channels != 1 && v.channels != 2) || v.pcmBytes < v.channels * 2 {
        return;
      }
      CountAfterSet(voices[..], slot, v.(active := true, looping := looping), APU_MIXER_MAX_VOICES);
      voices[slot] := voices[slot].(looping := looping);
      if !voices[slot].active {
        activeCount := activeCount + 1;
      }
      voices[slot] := voices[slot].(active := true);
      assert voices[..] == old(voices[..])[slot := v.(active := true, looping := looping)];
    }

    /** The inner loop of a render: the position it leaves off at. A one-shot that has come to
        its end there is stopped and counted out, and the loop left. */
    method PlayFrames(slot: nat, frameBuf: array<Frame>, count: nat) returns (pos: nat)
      requires Valid() && slot < voices.Length && Sounds(voices[slot]) && count <= frameBuf.Length
      modifies `activeCount, voices, frameBuf
      ensures forall k {:trigger frameBuf[k]} :: 0 <= k < frameBuf.Length ==>
        frameBuf[k] == if k < count then AddVoice(old(voices[slot]), old(frameBuf[k]), k) else old(frameBuf[k])
      ensures forall k {:trigger frameBuf[k]} :: 0 <= k < count ==>
        && Nearest(old(frameBuf[k]).0 + Brings(old(voices[slot]), k).0, frameBuf[k].0)
        && Nearest(old(frameBuf[k]).1 + Brings(old(voices[slot]), k).1, frameBuf[k].1)
      ensures var v := old(voices[slot]);
        || (voices[..] == old(voices[..]) && activeCount == old(activeCount) && Stands(v, count, pos))
        || (voices[..] == old(voices[..])[slot := v.(active := false)] && activeCount == old(activeCount) - 1 && pos == 0
            && !v.looping && Raw(v, count) >= End(v))
    {
      var v := voices[slot];
      assert v.Valid();
      var inc, end := Inc(v), End(v);
      pos := v.offset;
      var i := 0;
      while i < count
        invariant 0 <= i <= count
        invariant Stands(v, i, pos)
        invariant voices[..] == old(voices[..]) && activeCount == old(activeCount)
        invariant forall k {:trigger frameBuf[k]} :: 0 <= k < frameBuf.Length ==>
          frameBuf[k] == if k < i then AddVoice(v, old(frameBuf[k]), k) else old(frameBuf[k])
        decreases count - i
      {
        if pos / 0x1_0000 >= TotalFrames(v) {
          if v.looping {
            pos := pos % end;
            SmallMod(pos, end);
          } else {
            SilentToEnd(v, i, count);
            pos := 0;
            voices[slot] := voices[slot].(active := false);
            activeCount := activeCount - 1;
            break;
          }
        }
        StillInside(v, i, pos);
        FrameInRange(v, i);
        frameBuf[i] := Heard(v, frameBuf[i], pos / 0x1_0000);
        NextStands(v, i, pos);
        pos := pos + inc;
        i := i + 1;
      }
      forall k {:trigger frameBuf[k]} | 0 <= k < count
        ensures Nearest(old(frameBuf[k]).0 + Brings(v, k).0, frameBuf[k].0)
        ensures Nearest(old(frameBuf[k]).1 + Brings(v, k).1, frameBuf[k].1)
      {
        AddVoiceAdds(v, old(frameBuf[k]), k);
      }
    }

    /** One voice of a render: its frames, then its position. A one-shot that comes to its end
        with the last frame has not been stopped by the loop, and is stopped here. */
    method RenderVoice(slot: nat, frameBuf: array<Frame>, count: nat)
      requires Valid() && slot < voices.Length && count <= frameBuf.Length
      modifies `activeCount, voices, frameBuf
      ensures Valid() && voices[..] == old(voices[..])[slot := After(old(voices[slot]), count)]
      ensures forall k {:trigger frameBuf[k]} :: 0 <= k < frameBuf.Length ==>
        frameBuf[k] == if k < count then AddVoice(old(voices[slot]), old(frameBuf[k]), k) else old(frameBuf[k])
    {
      ghost var v, before := voices[slot], voices[..];
      assert v.Valid();
      if !voices[slot].active || voices[slot].pcm.None? || voices[slot].pcmBytes == 0 || TotalFrames(voices[slot]) == 0 {
        assert voices[..] == voices[..][slot := After(v, count)];
        return;
      }
      var totalFrames, end := TotalFrames(voices[slot]), End(voices[slot]);
      var pos := PlayFrames(slot, frameBuf, count);
      voices[slot] := voices[slot].(offset := pos);
      if pos / 0x1_0000 >= totalFrames {
        if voices[slot].looping {
          voices[slot] := voices[slot].(offset := pos % end);
        } else if voices[slot].active {
          voices[slot] := voices[slot].(offset := 0);
          voices[slot] := voices[slot].(active := false);
          activeCount := activeCount - 1;
        }
      } else if voices[slot].active {
        StillInside(v, count, pos);
      }
      assert voices[..] == before[slot := After(v, count)];
      CountAfterSet(before, slot, After(v, count), APU_MIXER_MAX_VOICES);
      AddVoiceSplits(v, count, 0, (0, 0));
    }

    /** All voices into `count` frames. */
    method Render(frameBuf: array<Frame>, count: nat)
      requires Valid() && count == frameBuf.Length
      modifies `activeCount, voices, frameBuf
      ensures Valid()
      ensures voices[..] == AllAfter(old(voices[..]), count)
      ensures frameBuf[..] == Rendered(old(voices[..]), old(frameBuf[..]))
      ensures forall i {:trigger frameBuf[i]} :: 0 <= i < count && Fits(old(voices[..]), old(frameBuf[i]), i) ==>
        var sum := SumOf(old(voices[..]), APU_MIXER_MAX_VOICES, i);
        frameBuf[i] == (old(frameBuf[i]).0 + sum.0, old(frameBuf[i]).1 + sum.1)
    {
      ghost var before, frames := voices[..], frameBuf[..];
      for slot := 0 to APU_MIXER_MAX_VOICES
        invariant Valid() && frameBuf.Length == count
        invariant forall s {:trigger voices[s]} :: 0 <= s < voices.Length ==>
          voices[s] == if s < slot then After(before[s], count) else before[s]
        invariant forall k {:trigger frameBuf[k]} :: 0 <= k < count ==> frameBuf[k] == MixFirst(before, slot, frames[k], k)
      {
        assert voices[slot] == before[slot];
        RenderVoice(slot, frameBuf, count);
      }
      assert voices[..] == AllAfter(before, count);
      assert frameBuf[..] == Rendered(before, frames);
      forall i {:trigger frameBuf[i]} | 0 <= i < count && Fits(before, frames[i], i)
        ensures frameBuf[i] == (frames[i].0 + SumOf(before, |before|, i).0, frames[i].1 + SumOf(before, |before|, i).1)
      {
        assert frameBuf[i] == frameBuf[..][i];
        MixFirstSums(before, |before|, frames[i], i);
      }
    }

    /** Filling an output buffer 256 frames at a time, each over its part of the test tone, is
        one render of the whole. */
    method MonitorFrame(out: array<Frame>, tone: seq<Frame>)
      requires Valid() && |tone| == out.Length
      modifies `activeCount, voices, out
      ensures Valid()
      ensures muted ==> out[..] == tone && voices[..] == old(voices[..])
      ensures !muted ==> out[..] == Rendered(old(voices[..]), tone) && voices[..] == AllAfter(old(voices[..]), out.Length)
    {
      ghost var before := voices[..];
      NothingRendered(before);
      var done := 0;
      while done < out.Length
        invariant Valid() && 0 <= done <= out.Length
        invariant muted ==> out[..done] == tone[..done] && voices[..] == before
        invariant !muted ==> out[..done] == Rendered(before, tone[..done]) && voices[..] == AllAfter(before, done)
      {
        var chunk := if out.Length - done < MIXER_FRAME_SAMPLES then out.Length - done else MIXER_FRAME_SAMPLES;
        var part := RenderChunk(tone[done..done + chunk]);
        RenderSplits(before, tone[..done], tone[done..done + chunk]);
        assert tone[..done] + tone[done..done + chunk] == tone[..done + chunk];
        CopyFrames(out, done, part);
        done := done + chunk;
      }
      assert tone[..done] == tone;
      assert out[..done] == out[..];
    }

    /** One chunk: over its frames of the tone, unless the sound is off. */
    method RenderChunk(tone: seq<Frame>) returns (frames: seq<Frame>)
      requires Valid()
      modifies `activeCount, voices
      ensures Valid() && |frames| == |tone|
      ensures muted ==> frames == tone && voices[..] == old(voices[..])
      ensures !muted ==> frames == Rendered(old(voices[..]), tone) && voices[..] == AllAfter(old(voices[..]), |tone|)
    {
      var frameBuf := new Frame[|tone|](i requires 0 <= i < |tone| => tone[i]);
      assert frameBuf[..] == tone;
      if !muted {
        Render(frameBuf, |tone|);
      }
      frames := frameBuf[..];
    }
  }

  method CopyFrames(out: array<Frame>, at: nat, frames: seq<Frame>)
    requires at + |frames| <= out.Length
    modifies out
    ensures out[..at + |frames|] == old(out[..at]) + frames
  {
    for i := 0 to |frames|
      invariant out[..at] == old(out[..at])
      invariant forall k {:trigger frames[k]} :: 0 <= k < i ==> out[at + k] == frames[k]
    {
      out[at + i] := frames[i];
    }
  }

  lemma {:induction false} NothingRendered(voices: seq<Voice>)
    requires AllValid(voices)
    ensures AllAfter(voices, 0) == voices && Rendered(voices, []) == []
  {
    forall s | 0 <= s < |voices| ensures AllAfter(voices, 0)[s] == voices[s] {
      var v := voices[s];
      if Sounds(v) { SmallMod(v.offset, End(v)); }
    }
  }

  /** Where the inner loop stands at frame `i`: looping positions only up to the buffer's end. */
  predicate Stands(v: Voice, i: nat, pos: nat) {
    End(v) > 0 && if v.looping then pos % End(v) == Raw(v, i) % End(v) else pos == Raw(v, i)
  }

  lemma {:induction false} StillInside(v: Voice, i: nat, pos: nat)
    requires Stands(v, i, pos) && pos < End(v)
    ensures pos == Raw(v, i) % End(v)
  {
    SmallMod(pos, End(v));
  }

  lemma {:induction false} SmallMod(a: nat, b: nat)
    requires a < b
    ensures a % b == a
  {
    DivUnique(a, b, 0, a);
  }

  lemma {:induction false} NextStands(v: Voice, i: nat, pos: nat)
    requires Stands(v, i, pos)
    ensures Stands(v, i + 1, pos + Inc(v))
  {
    RawAdd(v, i, 1);
    if v.looping {
      ModAdd(pos, Inc(v), End(v));
      ModAdd(Raw(v, i), Inc(v), End(v));
    }
  }

  lemma {:induction false} RawGrows(v: Voice, i: nat, k: nat)
    requires i <= k
    ensures Raw(v, i) <= Raw(v, k)
  {
    MulMonotone(i, k, Inc(v));
  }

  lemma {:induction false} SilentToEnd(v: Voice, i: nat, count: nat)
    requires v.Valid() && !v.looping && Raw(v, i) >= End(v) && i <= count
    ensures Raw(v, count) >= End(v)
    ensures forall k: nat, f: Frame {:trigger AddVoice(v, f, k)} :: i <= k ==> AddVoice(v, f, k) == f
  {
    RawGrows(v, i, count);
    forall k: nat, f: Frame {:trigger AddVoice(v, f, k)} | i <= k ensures AddVoice(v, f, k) == f {
      RawGrows(v, i, k);
    }
  }

  lemma {:induction false} NoneActive(voices: seq<Voice>, k: nat)
    requires k <= |voices| && forall s {:trigger voices[s]} :: 0 <= s < |voices| ==> !voices[s].active
    ensures ActiveCount(voices, k) == 0
  {
    if k > 0 { NoneActive(voices, k - 1); }
  }

}
