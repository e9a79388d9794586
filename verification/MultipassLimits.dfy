/** Exactly which queues mix on many workers as they do on one thread. A voice that takes the
    multipass bin on another worker than one that fed it misses what that one sent, and there
    are sounds for which it is heard. */
module MultipassLimits {
  import opened Common
  import opened Mcpx
  import opened MixBins
  import opened FrameSchedule

  // ---- One loud voice ----

  function Tone(): Samples {
    seq(NUM_SAMPLES_PER_FRAME, i => 1.0)
  }

  function EightOf(x: Samples): (sends: Sends)
    ensures sends == Repeat(SENDS_PER_VOICE, x)
  {
    Repeat(SENDS_PER_VOICE, x)
  }

  /** Only `loud` sends anything, and each voice remembers what it heard. */
  function OneLoud(loud: Handle): Play<Samples> {
    (v: Handle, s: Samples, heard: Samples) =>
      (heard, EightOf(if v == loud then Tone() else Silence()))
  }

  function HeardNothing(): (start: seq<Samples>)
    ensures |start| == MCPX_HW_MAX_VOICES
  {
    Repeat(MCPX_HW_MAX_VOICES, Silence())
  }

  lemma {:induction false} SpreadSilence(bins: SendBins, n: nat)
    requires n <= SENDS_PER_VOICE
    ensures SpreadFirst(bins, EightOf(Silence()), n) == EmptyMix()
  {
    if n > 0 {
      SpreadSilence(bins, n - 1);
      AddSamplesLaws(Silence(), Silence(), Silence());
    }
  }

  lemma {:induction false} SpreadTone(bins: SendBins, n: nat, b: Bin)
    requires n <= SENDS_PER_VOICE
    ensures SpreadFirst(bins, EightOf(Tone()), n)[b][0] >= if b in bins[..n] then 1.0 else 0.0
  {
    if n > 0 {
      SpreadTone(bins, n - 1, b);
      SpreadTone(bins, n - 1, bins[n - 1]);
      assert bins[..n] == bins[..n - 1] + [bins[n - 1]];
    }
  }

  lemma {:induction false} QuietVoice(d: Device, loud: Handle, v: Handle, s: Samples, m: Mix)
    requires d.Valid() && v != loud && (Takes(d, v) ==> m == EmptyMix())
    ensures VoiceMix(d, OneLoud(loud), v, s, m) == m
  {
    if !d.voices[v].paused {
      SpreadSilence(SendsTo(d, v), SENDS_PER_VOICE);
      if Takes(d, v) { assert EmptyMix()[d.voices[v].mpBin := Silence()] == EmptyMix(); }
      PlusZero(m);
    }
  }

  lemma {:induction false} LoudVoice(d: Device, loud: Handle, s: Samples, m: Mix)
    requires d.Valid() && Feeds(d, loud) && Regular(d, loud) && m[MULTIPASS_BIN] == Silence()
    ensures VoiceMix(d, OneLoud(loud), loud, s, m)[MULTIPASS_BIN][0] >= 1.0
  {
    var bins := SendsTo(d, loud);
    BinsOfIff(bins, SENDS_PER_VOICE, MULTIPASS_BIN);
    SpreadTone(bins, SENDS_PER_VOICE, MULTIPASS_BIN);
  }

  // ---- What one thread hears ----

  lemma {:induction false} QuietBefore(d: Device, queue: seq<Handle>, i: nat, n: nat)
    requires d.Valid() && n <= i < |queue| && Distinct(queue)
    ensures InOrder(d, OneLoud(queue[i]), HeardNothing(), queue, n).mix == EmptyMix()
  {
    if n > 0 {
      QuietBefore(d, queue, i, n - 1);
      var before := InOrder(d, OneLoud(queue[i]), HeardNothing(), queue, n - 1);
      QuietVoice(d, queue[i], queue[n - 1], before.voices[queue[n - 1]], before.mix);
    }
  }

  lemma {:induction false} LoudUntilTaken(d: Device, queue: seq<Handle>, i: nat, n: nat)
    requires d.Valid() && i < n <= |queue| && Distinct(queue) && Held(d, queue, i, n) && Regular(d, queue[i])
    ensures InOrder(d, OneLoud(queue[i]), HeardNothing(), queue, n).mix[MULTIPASS_BIN][0] >= 1.0
    decreases n
  {
    var v := queue[n - 1];
    var before := InOrder(d, OneLoud(queue[i]), HeardNothing(), queue, n - 1);
    if n == i + 1 {
      QuietBefore(d, queue, i, i);
      LoudVoice(d, v, before.voices[v], before.mix);
    } else {
      assert !Takes(d, v) && Held(d, queue, i, n - 1);
      LoudUntilTaken(d, queue, i, n - 1);
      QuietVoice(d, queue[i], v, before.voices[v], before.mix);
    }
  }

  lemma {:induction false} TakerHears(d: Device, queue: seq<Handle>, i: nat, k: nat, n: nat)
    requires d.Valid() && i < k < n <= |queue| && Distinct(queue) && Held(d, queue, i, k)
    requires Takes(d, queue[k]) && Regular(d, queue[i]) && Regular(d, queue[k])
    ensures InOrder(d, OneLoud(queue[i]), HeardNothing(), queue, n).voices[queue[k]][0] >= 1.0
    decreases n
  {
    hide VoiceMix, Feeds, SendsTo, EightOf;
    if n == k + 1 {
      LoudUntilTaken(d, queue, i, k);
    } else {
      hide VoiceState, OneLoud;
      TakerHears(d, queue, i, k, n - 1);
    }
  }

  // ---- What another worker hears ----

  lemma {:induction false} QuietWorker(d: Device, loud: Handle, mine: seq<Handle>, n: nat)
    requires d.Valid() && n <= |mine| && loud !in mine
    ensures Solo(d, OneLoud(loud), HeardNothing(), mine, n) == EmptyMix()
  {
    if n > 0 {
      QuietWorker(d, loud, mine, n - 1);
      QuietVoice(d, loud, mine[n - 1], HeardNothing()[mine[n - 1]], EmptyMix());
    }
  }

  lemma {:induction false} IsDealt(d: Device, workers: nat, queue: seq<Handle>, i: nat)
    requires d.Valid() && workers > 0 && i < |queue|
    ensures queue[i] in Plan(d, workers, queue)[PlaceOf(d, workers, queue, i)]
  {
    var w := PlaceOf(d, workers, queue, i);
    DealtGrows(d, workers, queue, w, i + 1, |queue|);
    var upTo := Dealt(d, workers, queue, w, i + 1);
    assert upTo[|upTo| - 1] == queue[i];
    assert Plan(d, workers, queue)[w][|upTo| - 1] == queue[i];
  }

  lemma {:induction false} OtherWorkerHearsNothing(d: Device, workers: nat, queue: seq<Handle>, i: nat, k: nat,
        trace: seq<nat>)
    requires d.Valid() && workers > 0 && i < |queue| && k < |queue| && Distinct(queue)
    requires PlaceOf(d, workers, queue, i) != PlaceOf(d, workers, queue, k) && Takes(d, queue[k])
    requires RunAll(d, OneLoud(queue[i]), Plan(d, workers, queue), HeardNothing(), trace).Drained(Plan(d, workers, queue))
    ensures RunAll(d, OneLoud(queue[i]), Plan(d, workers, queue), HeardNothing(), trace).voices[queue[k]] == Silence()
  {
    var plan, play, start := Plan(d, workers, queue), OneLoud(queue[i]), HeardNothing();
    var owner := PlanOwners(d, workers, queue);
    IsDealt(d, workers, queue, i);
    IsDealt(d, workers, queue, k);
    RunSeparate(d, play, plan, owner, start, trace, |trace|);
    var (w, j) := owner[queue[k]];
    assert queue[i] !in plan[w];
    QuietWorker(d, queue[i], plan[w], j);
    hide Plan, CursorAt;
    assert RunAll(d, play, plan, start, trace).voices[queue[k]] == SoloState(d, play, start, plan[w], j);
  }

  // ---- The exact condition ----

  /** However the voices sound and whatever the interleaving, playing the queue on the workers
      gives the voices and the mix that one thread gives. */
  ghost predicate AlwaysInOrder(d: Device, workers: nat, queue: seq<Handle>)
    requires d.Valid() && workers > 0
  {
    forall play: Play<Samples>, start: seq<Samples>, trace: seq<nat> {:trigger RunAll(d, play, Plan(d, workers, queue), start, trace)} ::
      |start| == MCPX_HW_MAX_VOICES
      && RunAll(d, play, Plan(d, workers, queue), start, trace).Drained(Plan(d, workers, queue)) ==>
        (var ws := RunAll(d, play, Plan(d, workers, queue), start, trace);
         Sound(ws.voices, Total(ws.mixes)) == InOrder(d, play, start, queue, |queue|))
  }

  /** A queue the scheduler accepts mixes on the workers as on one thread exactly when every
      voice that takes the multipass bin is on the worker of those that fed it. */
  lemma {:induction false} InOrderIffAligned(d: Device, workers: nat, queue: seq<Handle>)
    requires d.Valid() && workers > 0 && Accepts(d, workers, queue) && Distinct(queue)
    ensures AlwaysInOrder(d, workers, queue) <==> Aligned(d, workers, queue)
  {
    if Aligned(d, workers, queue) {
      AlignedIsEnough(d, workers, queue);
    } else {
      MisalignedDiffers(d, workers, queue);
    }
  }

  lemma {:induction false} AlignedIsEnough(d: Device, workers: nat, queue: seq<Handle>)
    requires d.Valid() && workers > 0 && Accepts(d, workers, queue) && Distinct(queue)
    requires Aligned(d, workers, queue)
    ensures AlwaysInOrder(d, workers, queue)
  {
    hide Aligned, Accepts, Plan, RunAll, InOrder, Total;
    forall play: Play<Samples>, start: seq<Samples>, trace: seq<nat> |
      |start| == MCPX_HW_MAX_VOICES
      && RunAll(d, play, Plan(d, workers, queue), start, trace).Drained(Plan(d, workers, queue))
      ensures var ws := RunAll(d, play, Plan(d, workers, queue), start, trace);
         Sound(ws.voices, Total(ws.mixes)) == InOrder(d, play, start, queue, |queue|)
    {
      ParallelMixIsInOrder(d, play, workers, queue, start, trace);
    }
  }

  lemma {:induction false} NotAlways(d: Device, workers: nat, queue: seq<Handle>, play: Play<Samples>,
        start: seq<Samples>, trace: seq<nat>)
    requires d.Valid() && workers > 0 && |start| == MCPX_HW_MAX_VOICES
    requires RunAll(d, play, Plan(d, workers, queue), start, trace).Drained(Plan(d, workers, queue))
    requires RunAll(d, play, Plan(d, workers, queue), start, trace).voices != InOrder(d, play, start, queue, |queue|).voices
    ensures !AlwaysInOrder(d, workers, queue)
  {
    hide Plan, RunAll, InOrder, Total;
  }

  lemma {:induction false} MisalignedDiffers(d: Device, workers: nat, queue: seq<Handle>)
    requires d.Valid() && workers > 0 && Accepts(d, workers, queue) && Distinct(queue)
    requires !Aligned(d, workers, queue)
    ensures !AlwaysInOrder(d, workers, queue)
  {
    var i: nat, k: nat :| i < k < |queue| && Held(d, queue, i, k) && Takes(d, queue[k])
      && PlaceOf(d, workers, queue, i) != PlaceOf(d, workers, queue, k);
    var play, trace := OneLoud(queue[i]), InQueueOrder(d, workers, queue);
    InQueueOrderDrains(d, play, workers, queue, HeardNothing());
    hide *;
    MisalignedPair(d, workers, queue, i, k, trace);
    NotAlways(d, workers, queue, play, HeardNothing(), trace);
  }

  /** The voice that takes the bin hears the loud one on one thread, and not on its worker. */
  lemma {:induction false} MisalignedPair(d: Device, workers: nat, queue: seq<Handle>, i: nat, k: nat, trace: seq<nat>)
    requires d.Valid() && workers > 0 && Accepts(d, workers, queue) && Distinct(queue)
    requires i < k < |queue| && Held(d, queue, i, k) && Takes(d, queue[k])
    requires PlaceOf(d, workers, queue, i) != PlaceOf(d, workers, queue, k)
    requires RunAll(d, OneLoud(queue[i]), Plan(d, workers, queue), HeardNothing(), trace).Drained(Plan(d, workers, queue))
    ensures RunAll(d, OneLoud(queue[i]), Plan(d, workers, queue), HeardNothing(), trace).voices[queue[k]][0] == 0.0
    ensures InOrder(d, OneLoud(queue[i]), HeardNothing(), queue, |queue|).voices[queue[k]][0] >= 1.0
  {
    VoiceAdmitted(d, workers, queue, i);
    VoiceAdmitted(d, workers, queue, k);
    OtherWorkerHearsNothing(d, workers, queue, i, k, trace);
    TakerHears(d, queue, i, k, |queue|);
  }

  // ---- Two queues that are accepted and not aligned ----

  /** Bins 1 to 7 take the silent sends. */
  function SendsFirstTo(bin: Bin): SendBins {
    [bin, 1, 1, 1, 1, 1, 1, 1]
  }

  /** Voices 100 and 102 are plain sources for the multipass bin; 101 and 103 read it, clear
      it and send what they heard to `to101` and to bin 0. */
  function Regs(paused101: bool, to101: Bin, v: int): VoiceRegs {
    if v == 101 then VoiceRegs(paused101, true, true, MULTIPASS_BIN, SendsFirstTo(to101))
    else if v == 103 then VoiceRegs(false, true, true, MULTIPASS_BIN, SendsFirstTo(0))
    else VoiceRegs(false, false, false, MULTIPASS_BIN, SendsFirstTo(MULTIPASS_BIN))
  }

  function FourVoices(paused101: bool, to101: Bin): (d: Device)
    ensures d.Valid()
    ensures forall v: Handle :: d.voices[v] == Regs(paused101, to101, v)
  {
    Device(seq(MCPX_HW_MAX_VOICES, v => Regs(paused101, to101, v)), Repeat(4, 0))
  }

  lemma {:induction false} SentBins(paused101: bool, to101: Bin, v: Handle)
    requires 100 <= v <= 103
    ensures var d := FourVoices(paused101, to101);
      MULTIPASS_BIN in DestinationBins(d, v) <==> Regs(paused101, to101, v).bins[0] == MULTIPASS_BIN
  {
    var d := FourVoices(paused101, to101);
    var bins := SendsTo(d, v);
    BinsOfIff(bins, |bins|, MULTIPASS_BIN);
    assert bins[..|bins|] == bins;
    assert bins == Regs(paused101, to101, v).bins;
    assert bins[0] in bins;
  }

  const QUEUE: seq<Handle> := [100, 101, 102, 103]

  /** How the four are dealt to two workers: the voice between the two groups decides. */
  lemma {:induction false} Dealing(paused101: bool, to101: Bin)
    requires to101 == 0 || to101 == MULTIPASS_BIN
    ensures var d := FourVoices(paused101, to101);
      && Accepts(d, 2, QUEUE)
      && PlaceOf(d, 2, QUEUE, 0) == 0 && PlaceOf(d, 2, QUEUE, 1) == 0 && PlaceOf(d, 2, QUEUE, 2) == 1
      && PlaceOf(d, 2, QUEUE, 3) == (if to101 == MULTIPASS_BIN then 0 else 1)
  {
    var d := FourVoices(paused101, to101);
    SentBins(paused101, to101, 100);
    SentBins(paused101, to101, 101);
    SentBins(paused101, to101, 102);
    SentBins(paused101, to101, 103);
    var c1, c2, c3 := CursorAt(d, 2, QUEUE, 1), CursorAt(d, 2, QUEUE, 2), CursorAt(d, 2, QUEUE, 3);
    assert CursorAt(d, 2, QUEUE, 0) == Cursor(0, false, {});
    assert c1 == Advance(d, 2, Cursor(0, false, {}), 100);
    assert c2 == Advance(d, 2, c1, 101);
    assert c3 == Advance(d, 2, c2, 102);
    assert AdmitsAt(d, 2, QUEUE, 0);
    assert AcceptsFirst(d, 2, QUEUE, 1);
    assert AcceptsFirst(d, 2, QUEUE, 2);
    assert AcceptsFirst(d, 2, QUEUE, 3);
  }

  /** With voice 101 paused, or with it sending to the bin it reads, the scheduler accepts the
      queue 100, 101, 102, 103 and two workers do not always mix what one thread mixes: 103 takes
      what 100 or 101 sent, and is dealt to the other worker. */
  lemma {:induction false} UndrainedMultipassDiffers(paused101: bool, to101: Bin)
    requires (paused101 && to101 == 0) || (!paused101 && to101 == MULTIPASS_BIN)
    ensures var d := FourVoices(paused101, to101);
      Accepts(d, 2, QUEUE) && Distinct(QUEUE) && !MultipassDrains(d, QUEUE) && !AlwaysInOrder(d, 2, QUEUE)
  {
    var d := FourVoices(paused101, to101);
    Dealing(paused101, to101);
    SentBins(paused101, to101, 100);
    SentBins(paused101, to101, 101);
    SentBins(paused101, to101, 102);
    var i := if paused101 then 0 else 2;
    assert QUEUE[1] == 101 && QUEUE[3] == 103 && QUEUE[i] == 100 + i;
    assert !Takes(d, QUEUE[2]) && (paused101 ==> !Takes(d, QUEUE[1]));
    assert Held(d, QUEUE, i, 3) && Takes(d, QUEUE[3]);
    InOrderIffAligned(d, 2, QUEUE);
  }
}
