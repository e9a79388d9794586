/** The loops of a voice worker: playing its queue of voices into its own mix bins, then
    adding those into the bins of the dispatch. Each loop is proved against the mixes that
    the scheduling theorems of `FrameSchedule` are about. */
module VoiceWorkers {
  import opened Common
  import opened Mcpx
  import opened MixBins
  import opened FrameSchedule

  ghost predicate IsMixbins(a: array2<real>) {
    a.Length0 == NUM_MIXBINS && a.Length1 == NUM_SAMPLES_PER_FRAME
  }

  ghost function MixOf(a: array2<real>): (m: Mix)
    requires IsMixbins(a)
    reads a
    ensures forall b, i {:trigger m[b][i]} :: 0 <= b < NUM_MIXBINS && 0 <= i < NUM_SAMPLES_PER_FRAME ==> m[b][i] == a[b, i]
  {
    seq(NUM_MIXBINS, b requires 0 <= b < NUM_MIXBINS && IsMixbins(a) reads a =>
      RowOf(a, b))
  }

  ghost function RowOf(a: array2<real>, b: Bin): (s: Samples)
    requires IsMixbins(a)
    reads a
    ensures forall i :: 0 <= i < NUM_SAMPLES_PER_FRAME ==> s[i] == a[b, i]
  {
    seq(NUM_SAMPLES_PER_FRAME, i requires 0 <= i < NUM_SAMPLES_PER_FRAME && IsMixbins(a) reads a => a[b, i])
  }

  /** Bins that agree sample by sample are the same mix. */
  lemma {:induction false} SameMix(m: Mix, n: Mix)
    requires forall b, i :: 0 <= b < NUM_MIXBINS && 0 <= i < NUM_SAMPLES_PER_FRAME ==> m[b][i] == n[b][i]
    ensures m == n
  {
    forall b | 0 <= b < NUM_MIXBINS ensures m[b] == n[b] {
    }
  }

  method ClearMix(a: array2<real>)
    requires IsMixbins(a)
    modifies a
    ensures MixOf(a) == EmptyMix()
  {
    for b := 0 to NUM_MIXBINS
      invariant forall c, i :: 0 <= c < b && 0 <= i < NUM_SAMPLES_PER_FRAME ==> a[c, i] == 0.0
    {
      for i := 0 to NUM_SAMPLES_PER_FRAME
        invariant forall c, j :: 0 <= c < b && 0 <= j < NUM_SAMPLES_PER_FRAME ==> a[c, j] == 0.0
        invariant forall j :: 0 <= j < i ==> a[b, j] == 0.0
      {
        a[b, i] := 0.0;
      }
    }
    SameMix(MixOf(a), EmptyMix());
  }

  method ClearBin(a: array2<real>, bin: Bin)
    requires IsMixbins(a)
    modifies a
    ensures MixOf(a) == old(MixOf(a))[bin := Silence()]
  {
    for i := 0 to NUM_SAMPLES_PER_FRAME
      invariant forall b, j :: 0 <= b < NUM_MIXBINS && 0 <= j < NUM_SAMPLES_PER_FRAME ==>
        a[b, j] == if b == bin && j < i then 0.0 else old(a[b, j])
    {
      a[bin, i] := 0.0;
    }
    SameMix(MixOf(a), old(MixOf(a))[bin := Silence()]);
  }

  /** One send of a voice. */
  method AddToBin(a: array2<real>, bin: Bin, add: Samples)
    requires IsMixbins(a)
    modifies a
    ensures MixOf(a) == old(MixOf(a))[bin := AddSamples(old(MixOf(a))[bin], add)]
  {
    for i := 0 to NUM_SAMPLES_PER_FRAME
      invariant forall b, j :: 0 <= b < NUM_MIXBINS && 0 <= j < NUM_SAMPLES_PER_FRAME ==>
        a[b, j] == if b == bin && j < i then old(a[b, j]) + add[j] else old(a[b, j])
    {
      a[bin, i] := a[bin, i] + add[i];
    }
    SameMix(MixOf(a), old(MixOf(a))[bin := AddSamples(old(MixOf(a))[bin], add)]);
  }

  /** The eight sends of a voice. */
  method AddSends(a: array2<real>, bins: SendBins, sends: Sends)
    requires IsMixbins(a)
    modifies a
    ensures MixOf(a) == Plus(old(MixOf(a)), Spread(bins, sends))
    ensures forall b, i {:trigger a[b, i]} :: 0 <= b < NUM_MIXBINS && 0 <= i < NUM_SAMPLES_PER_FRAME ==>
      a[b, i] == old(a[b, i]) + Brought(bins, sends, b, i, SENDS_PER_VOICE)
  {
    ghost var m := MixOf(a);
    PlusZero(m);
    for n := 0 to SENDS_PER_VOICE
      invariant MixOf(a) == Plus(m, SpreadFirst(bins, sends, n))
    {
      PlusStep(m, SpreadFirst(bins, sends, n), bins[n], sends[n]);
      AddToBin(a, bins[n], sends[n]);
    }
    forall b, i {:trigger a[b, i]} | 0 <= b < NUM_MIXBINS && 0 <= i < NUM_SAMPLES_PER_FRAME
      ensures a[b, i] == old(a[b, i]) + Brought(bins, sends, b, i, SENDS_PER_VOICE)
    {
      SendsAdded(m, bins, sends, b, i);
    }
  }

  /** The same, sample by sample. */
  lemma {:induction false} SendsAdded(m: Mix, bins: SendBins, sends: Sends, bin: Bin, i: nat)
    requires i < NUM_SAMPLES_PER_FRAME
    ensures Plus(m, Spread(bins, sends))[bin][i] == m[bin][i] + Brought(bins, sends, bin, i, SENDS_PER_VOICE)
  {
    SpreadBrings(bins, sends, bin, i, SENDS_PER_VOICE);
  }

  /** Adds a worker's finished bins into the dispatch's. */
  method AddMix(to: array2<real>, from: array2<real>)
    requires IsMixbins(to) && IsMixbins(from) && to != from
    modifies to
    ensures MixOf(to) == Plus(old(MixOf(to)), MixOf(from))
  {
    for b := 0 to NUM_MIXBINS
      invariant forall c, j :: 0 <= c < NUM_MIXBINS && 0 <= j < NUM_SAMPLES_PER_FRAME ==>
        to[c, j] == if c < b then old(to[c, j]) + from[c, j] else old(to[c, j])
    {
      for i := 0 to NUM_SAMPLES_PER_FRAME
        invariant forall c, j :: 0 <= c < NUM_MIXBINS && 0 <= j < NUM_SAMPLES_PER_FRAME ==>
          to[c, j] == if c < b || (c == b && j < i) then old(to[c, j]) + from[c, j] else old(to[c, j])
      {
        to[b, i] := to[b, i] + from[b, i];
      }
    }
    SameMix(MixOf(to), Plus(old(MixOf(to)), MixOf(from)));
  }

  /** The voices after the first `n` of `mine` have been played alone. */
  ghost function SoloVoices<S>(d: Device, play: Play<S>, start: seq<S>, mine: seq<Handle>, n: nat): (voices: seq<S>)
    requires d.Valid() && |start| == MCPX_HW_MAX_VOICES && n <= |mine|
    ensures |voices| == MCPX_HW_MAX_VOICES
  {
    if n == 0 then start
    else SoloVoices(d, play, start, mine, n - 1)[mine[n - 1] := SoloState(d, play, start, mine, n - 1)]
  }

  lemma {:induction false} NotYetPlayed<S>(d: Device, play: Play<S>, start: seq<S>, mine: seq<Handle>, n: nat,
        v: Handle)
    requires d.Valid() && |start| == MCPX_HW_MAX_VOICES && n <= |mine|
    requires forall j :: 0 <= j < n ==> mine[j] != v
    ensures SoloVoices(d, play, start, mine, n)[v] == start[v]
  {
    if n > 0 { NotYetPlayed(d, play, start, mine, n - 1, v); }
  }

  /** A voice played alone in its turn keeps the state that gave it. */
  lemma {:induction false} PlayedInTurn<S>(d: Device, play: Play<S>, start: seq<S>, mine: seq<Handle>, n: nat, j: nat)
    requires d.Valid() && |start| == MCPX_HW_MAX_VOICES && j < n <= |mine| && Distinct(mine)
    ensures SoloVoices(d, play, start, mine, n)[mine[j]] == SoloState(d, play, start, mine, j)
  {
    if j < n - 1 { PlayedInTurn(d, play, start, mine, n - 1, j); }
  }

  class VoiceWorker<S> {
    const mixbins: array2<real>
    var queue: seq<Handle>

    /** What a multipass voice plays: the samples of its bin, which it may clear. */
    method GetMultipassSamples(d: Device, v: Handle) returns (samples: Samples)
      requires d.Valid() && IsMixbins(mixbins) && d.voices[v].multipass
      modifies mixbins
      ensures samples == old(MixOf(mixbins))[d.voices[v].mpBin]
      ensures MixOf(mixbins) == if d.voices[v].clearMix
        then old(MixOf(mixbins))[d.voices[v].mpBin := Silence()] else old(MixOf(mixbins))
    {
      var bin := d.voices[v].mpBin;
      var heard: seq<real> := [];
      for i := 0 to NUM_SAMPLES_PER_FRAME
        invariant |heard| == i && forall j :: 0 <= j < i ==> heard[j] == mixbins[bin, j]
      {
        heard := heard + [mixbins[bin, i]];
      }
      samples := heard;
      if d.voices[v].clearMix {
        ClearBin(mixbins, bin);
      }
    }

    /** Plays one voice into the bins. */
    method VoiceProcess(d: Device, play: Play<S>, v: Handle, s: S) returns (s': S)
      requires d.Valid() && IsMixbins(mixbins)
      modifies mixbins
      ensures s' == VoiceState(d, play, v, s, old(MixOf(mixbins)))
      ensures MixOf(mixbins) == VoiceMix(d, play, v, s, old(MixOf(mixbins)))
      ensures d.voices[v].paused ==> s' == s && MixOf(mixbins) == old(MixOf(mixbins))
      ensures !d.voices[v].paused ==>
        var r := d.voices[v];
        var (next, sends) := play(v, s, if r.multipass then old(MixOf(mixbins))[r.mpBin] else Silence());
        && s' == next
        && forall b, i {:trigger mixbins[b, i]} :: 0 <= b < NUM_MIXBINS && 0 <= i < NUM_SAMPLES_PER_FRAME ==>
             mixbins[b, i] == (if r.multipass && r.clearMix && b == r.mpBin then 0.0 else old(mixbins[b, i]))
               + SentTo(d, v, sends, b, i, SENDS_PER_VOICE)
    {
      ghost var m := MixOf(mixbins);
      if d.voices[v].paused {
        return s;
      }
      var samples := Silence();
      if d.voices[v].multipass {
        samples := GetMultipassSamples(d, v);
      }
      var (next, sends) := play(v, s, samples);
      AddSends(mixbins, SendsTo(d, v), sends);
      VoiceMixAt(d, play, v, s, m, 0, 0);
      hide VoiceMix, VoiceState, SentTo, SendsTo, Spread;
      forall b, i {:trigger mixbins[b, i]} | 0 <= b < NUM_MIXBINS && 0 <= i < NUM_SAMPLES_PER_FRAME
        ensures mixbins[b, i] == (if d.voices[v].multipass && d.voices[v].clearMix && b == d.voices[v].mpBin then 0.0 else m[b][i])
          + SentTo(d, v, sends, b, i, SENDS_PER_VOICE)
      {
        assert mixbins[b, i] == MixOf(mixbins)[b][i];
        VoiceMixAt(d, play, v, s, m, b, i);
      }
      return next;
    }

    /** Plays the whole queue from cleared bins, on voices no other worker touches. */
    method ProcessQueue(d: Device, play: Play<S>, voices: array<S>)
      requires d.Valid() && IsMixbins(mixbins) && voices.Length == MCPX_HW_MAX_VOICES
      requires Distinct(queue)
      modifies mixbins, voices
      ensures MixOf(mixbins) == Solo(d, play, old(voices[..]), queue, |queue|)
      ensures voices[..] == SoloVoices(d, play, old(voices[..]), queue, |queue|)
    {
      ClearMix(mixbins);
      ghost var start := voices[..];
      for i := 0 to |queue|
        invariant MixOf(mixbins) == Solo(d, play, start, queue, i)
        invariant voices[..] == SoloVoices(d, play, start, queue, i)
      {
        var v := queue[i];
        NotYetPlayed(d, play, start, queue, i, v);
        var s := VoiceProcess(d, play, v, voices[v]);
        voices[v] := s;
      }
    }
  }
}
