/** Dealing the queued voices of a frame to the worker threads, and why the summed mixes
    of the workers are the mix of one thread playing the queue in order.

    A voice plays as a function of its own state and of what it reads from its multipass
    bin, in exact arithmetic. A worker's voice is one atomic step; any interleaving of
    the workers' steps is a run. */
module FrameSchedule {
  import opened Common
  import opened Mcpx
  import opened MixBins
  import opened WholeNumbers

  const MAX_VOICE_WORKERS: nat := 16

  /** The registers of a voice that decide where it reads and writes. */
  datatype VoiceRegs = VoiceRegs(paused: bool, multipass: bool, clearMix: bool, mpBin: Bin, bins: SendBins)

  datatype Device = Device(voices: seq<VoiceRegs>, hrtfSubmix: seq<Bin>) {
    ghost predicate Valid() {
      |voices| == MCPX_HW_MAX_VOICES && |hrtfSubmix| == 4
    }
  }

  /** A 3D voice sends its first four blocks to the HRTF submixes. */
  function SendsTo(d: Device, v: Handle): SendBins
    requires d.Valid()
  {
    if v < MCPX_HW_MAX_3D_VOICES then d.hrtfSubmix + d.voices[v].bins[4..] else d.voices[v].bins
  }

  function SourceBins(d: Device, v: Handle): set<Bin>
    requires d.Valid()
  {
    if d.voices[v].multipass then {d.voices[v].mpBin} else {}
  }

  function ClearedBins(d: Device, v: Handle): set<Bin>
    requires d.Valid()
  {
    if d.voices[v].multipass && d.voices[v].clearMix then {d.voices[v].mpBin} else {}
  }

  /** The bins named by the first `n` sends. */
  function BinsOf(bins: SendBins, n: nat): set<Bin>
    requires n <= |bins|
  {
    if n == 0 then {} else BinsOf(bins, n - 1) + {bins[n - 1]}
  }

  lemma {:induction false} BinsOfIff(bins: SendBins, n: nat, bin: Bin)
    requires n <= |bins|
    ensures bin in BinsOf(bins, n) <==> bin in bins[..n]
  {
    if n > 0 {
      BinsOfIff(bins, n - 1, bin);
      assert bins[..n] == bins[..n - 1] + [bins[n - 1]];
    }
  }

  function DestinationBins(d: Device, v: Handle): set<Bin>
    requires d.Valid()
  {
    BinsOf(SendsTo(d, v), |SendsTo(d, v)|)
  }

  /** The bins a voice reads, writes and clears, as the masks the scheduler works with. */
  method GetVoiceBinSrcDst(d: Device, v: Handle) returns (src: set<Bin>, dst: set<Bin>, clr: set<Bin>)
    requires d.Valid()
    ensures src == SourceBins(d, v) && dst == DestinationBins(d, v) && clr == ClearedBins(d, v)
  {
    src, dst, clr := {}, {}, {};
    var r := d.voices[v];
    if r.multipass {
      src := src + {r.mpBin};
      if r.clearMix {
        clr := clr + {r.mpBin};
      }
    }
    var bins := if v < MCPX_HW_MAX_3D_VOICES then d.hrtfSubmix + r.bins[4..] else r.bins;
    for i := 0 to SENDS_PER_VOICE
      invariant dst == BinsOf(bins, i)
    {
      dst := dst + {bins[i]};
    }
  }

  // ---- Dealing the queue ----

  /** The scheduler between two voices: the worker it deals to, whether a group of multipass
      sources is being kept together, and the bins written since they were last cleared. */
  datatype Cursor = Cursor(next: nat, group: bool, dirty: set<Bin>)

  /** The three scheduling assumptions, asserted for each voice: the multipass bin is constant,
      a multipass voice clears it, and multipass sources are consecutive. */
  predicate Admits(src: set<Bin>, dst: set<Bin>, clr: set<Bin>, dirty: set<Bin>) {
    && (src == {} || src == {MULTIPASS_BIN})
    && (src == {} || clr == {MULTIPASS_BIN})
    && (src != {} || MULTIPASS_BIN in dst || MULTIPASS_BIN !in dirty)
  }

  /** Round the workers. */
  function NextWorker(w: nat, workers: nat): nat {
    if w + 1 == workers then 0 else w + 1
  }

  lemma {:induction false} NextWorkerIsMod(w: nat, workers: nat)
    requires w < workers
    ensures NextWorker(w, workers) == (w + 1) % workers
  {
    if w + 1 < workers { assert (w + 1) % workers == w + 1; }
  }

  function Advance(d: Device, workers: nat, cur: Cursor, v: Handle): (r: Cursor)
    requires d.Valid() && cur.next < workers
    ensures r.next < workers
  {
    var dst, clr := DestinationBins(d, v), ClearedBins(d, v);
    var grouped := cur.group || (MULTIPASS_BIN in dst && MULTIPASS_BIN !in cur.dirty);
    var group := grouped && MULTIPASS_BIN !in clr;
    Cursor(if group then cur.next else NextWorker(cur.next, workers), group, (cur.dirty - clr) + dst)
  }

  /** The scheduler before voice `i` of the queue. */
  function CursorAt(d: Device, workers: nat, queue: seq<Handle>, i: nat): (cur: Cursor)
    requires d.Valid() && workers > 0 && i <= |queue|
    ensures cur.next < workers
  {
    if i == 0 then Cursor(0, false, {}) else Advance(d, workers, CursorAt(d, workers, queue, i - 1), queue[i - 1])
  }

  /** Whether voice `i` passes the assertions. */
  predicate AdmitsAt(d: Device, workers: nat, queue: seq<Handle>, i: nat)
    requires d.Valid() && workers > 0 && i < |queue|
  {
    Admits(SourceBins(d, queue[i]), DestinationBins(d, queue[i]), ClearedBins(d, queue[i]),
           CursorAt(d, workers, queue, i).dirty)
  }

  predicate AcceptsFirst(d: Device, workers: nat, queue: seq<Handle>, i: nat)
    requires d.Valid() && workers > 0 && i <= |queue|
  {
    i == 0 || (AcceptsFirst(d, workers, queue, i - 1) && AdmitsAt(d, workers, queue, i - 1))
  }

  predicate Accepts(d: Device, workers: nat, queue: seq<Handle>)
    requires d.Valid() && workers > 0
  {
    AcceptsFirst(d, workers, queue, |queue|)
  }

  lemma {:induction false} AcceptsEach(d: Device, workers: nat, queue: seq<Handle>, i: nat, j: nat)
    requires d.Valid() && workers > 0 && j < i <= |queue|
    ensures AcceptsFirst(d, workers, queue, i) ==> AdmitsAt(d, workers, queue, j)
  {
    if j < i - 1 { AcceptsEach(d, workers, queue, i - 1, j); }
  }

  /** The worker voice `i` is dealt to. */
  function PlaceOf(d: Device, workers: nat, queue: seq<Handle>, i: nat): (w: nat)
    requires d.Valid() && workers > 0 && i < |queue|
    ensures w < workers
  {
    CursorAt(d, workers, queue, i).next
  }

  lemma {:induction false} ModNext(i: nat, n: nat)
    requires n > 0
    ensures (i % n + 1) % n == (i + 1) % n
  {
    var q, r := i / n, i % n;
    assert i == q * n + r;
    if r + 1 < n {
      DivUnique(i + 1, n, q, r + 1);
    } else {
      assert (q + 1) * n == q * n + n;
      DivUnique(i + 1, n, q + 1, 0);
    }
  }

  /** The worker whose turn it is after `i` others. */
  function Turn(i: nat, workers: nat): (w: nat)
    requires workers > 0
    ensures w < workers && (i == 0 ==> w == 0)
  {
    i % workers
  }

  lemma {:induction false} TurnNext(i: nat, workers: nat)
    requires workers > 0
    ensures NextWorker(Turn(i, workers), workers) == Turn(i + 1, workers)
  {
    NextWorkerIsMod(i % workers, workers);
    ModNext(i, workers);
  }

  lemma {:induction false} GoesRound(d: Device, workers: nat, cur: Cursor, v: Handle)
    requires d.Valid() && cur.next < workers && !cur.group && MULTIPASS_BIN !in DestinationBins(d, v)
    ensures Advance(d, workers, cur, v).next == NextWorker(cur.next, workers) && !Advance(d, workers, cur, v).group
  {
    hide DestinationBins, ClearedBins;
  }

  /** A queue that leaves the multipass bin alone is dealt round and round the workers. */
  lemma {:induction false} RoundRobin(d: Device, workers: nat, queue: seq<Handle>, i: nat)
    requires d.Valid() && workers > 0 && i < |queue|
    requires forall j {:trigger queue[j]} :: 0 <= j < i ==> MULTIPASS_BIN !in DestinationBins(d, queue[j])
    ensures PlaceOf(d, workers, queue, i) == Turn(i, workers) && !CursorAt(d, workers, queue, i).group
  {
    hide DestinationBins, Advance, NextWorker, Turn;
    if i > 0 {
      RoundRobin(d, workers, queue, i - 1);
      GoesRound(d, workers, CursorAt(d, workers, queue, i - 1), queue[i - 1]);
      TurnNext(i - 1, workers);
    }
  }

  /** What worker `w` has been dealt of the first `i` voices, in queue order. */
  function Dealt(d: Device, workers: nat, queue: seq<Handle>, w: nat, i: nat): seq<Handle>
    requires d.Valid() && workers > 0 && i <= |queue|
  {
    if i == 0 then []
    else if PlaceOf(d, workers, queue, i - 1) == w then Dealt(d, workers, queue, w, i - 1) + [queue[i - 1]]
    else Dealt(d, workers, queue, w, i - 1)
  }

  /** The workers dealt at least one of the first `i` voices. */
  function Busy(d: Device, workers: nat, queue: seq<Handle>, i: nat): set<nat>
    requires d.Valid() && workers > 0 && i <= |queue|
  {
    if i == 0 then {} else Busy(d, workers, queue, i - 1) + {PlaceOf(d, workers, queue, i - 1)}
  }

  /** What each worker is to play of the first `i` voices. */
  ghost function DealtAll(d: Device, workers: nat, queue: seq<Handle>, i: nat): (plan: seq<seq<Handle>>)
    requires d.Valid() && workers > 0 && i <= |queue|
    ensures |plan| == workers
    ensures forall w {:trigger plan[w]} :: 0 <= w < workers ==> plan[w] == Dealt(d, workers, queue, w, i)
  {
    seq(workers, w requires 0 <= w < workers => Dealt(d, workers, queue, w, i))
  }

  /** What every worker is to play: one queue per worker. */
  ghost function Plan(d: Device, workers: nat, queue: seq<Handle>): (plan: seq<seq<Handle>>)
    requires d.Valid() && workers > 0
    ensures |plan| == workers
  {
    DealtAll(d, workers, queue, |queue|)
  }

  lemma {:induction false} DealtAllNext(d: Device, workers: nat, queue: seq<Handle>, i: nat)
    requires d.Valid() && workers > 0 && i < |queue|
    ensures var plan, w := DealtAll(d, workers, queue, i), PlaceOf(d, workers, queue, i);
      DealtAll(d, workers, queue, i + 1) == plan[w := plan[w] + [queue[i]]]
  {
  }

  /** Each worker's queue with its share of the plan after it. */
  ghost function Appended(was: seq<seq<Handle>>, plan: seq<seq<Handle>>): (r: seq<seq<Handle>>)
    requires |was| == |plan|
    ensures |r| == |was|
    ensures forall w {:trigger r[w]} :: 0 <= w < |was| ==> r[w] == was[w] + plan[w]
  {
    seq(|was|, w requires 0 <= w < |was| => was[w] + plan[w])
  }

  lemma {:induction false} BusyNext(d: Device, workers: nat, queue: seq<Handle>, was: set<nat>, i: nat)
    requires d.Valid() && workers > 0 && i < |queue|
    ensures was + Busy(d, workers, queue, i + 1) == was + Busy(d, workers, queue, i) + {PlaceOf(d, workers, queue, i)}
  {
  }

  lemma {:induction false} AppendedNothing(d: Device, workers: nat, queue: seq<Handle>, was: seq<seq<Handle>>)
    requires d.Valid() && workers > 0 && |was| == workers
    ensures Appended(was, DealtAll(d, workers, queue, 0)) == was
  {
    var plan := DealtAll(d, workers, queue, 0);
    forall w | 0 <= w < workers ensures Appended(was, plan)[w] == was[w] {
      assert plan[w] == [];
    }
  }

  lemma {:induction false} AppendedNext(d: Device, workers: nat, queue: seq<Handle>, was: seq<seq<Handle>>, i: nat)
    requires d.Valid() && workers > 0 && i < |queue| && |was| == workers
    ensures var r, w := Appended(was, DealtAll(d, workers, queue, i)), PlaceOf(d, workers, queue, i);
      Appended(was, DealtAll(d, workers, queue, i + 1)) == r[w := r[w] + [queue[i]]]
  {
    DealtAllNext(d, workers, queue, i);
    var plan, w := DealtAll(d, workers, queue, i), PlaceOf(d, workers, queue, i);
    assert was[w] + (plan[w] + [queue[i]]) == (was[w] + plan[w]) + [queue[i]];
  }

  /** The scheduler's bookkeeping for voice `i` of the queue. */
  method Follow(d: Device, workers: nat, queue: seq<Handle>, i: nat, next: nat, group: bool, dirty: set<Bin>)
    returns (admitted: bool, next': nat, group': bool, dirty': set<Bin>)
    requires d.Valid() && workers > 0 && i < |queue|
    requires Cursor(next, group, dirty) == CursorAt(d, workers, queue, i)
    ensures admitted == AdmitsAt(d, workers, queue, i)
    ensures Cursor(next', group', dirty') == CursorAt(d, workers, queue, i + 1)
  {
    var src, dst, clr := GetVoiceBinSrcDst(d, queue[i]);
    admitted := Admits(src, dst, clr, dirty);
    group', next' := group, next;
    if MULTIPASS_BIN in dst && MULTIPASS_BIN !in dirty {
      group' := true;
    }
    dirty' := (dirty - clr) + dst;
    if MULTIPASS_BIN in clr {
      group' := false;
    }
    if !group' {
      NextWorkerIsMod(next, workers);
      next' := (next + 1) % workers;
    }
  }

  class VoiceWorkDispatch {
    var queue: seq<Handle>
    /** One queue per worker; its length is the worker count. */
    const workerQueues: array<seq<Handle>>
    /** The bits of the pending mask. */
    var workersPending: set<nat>

    ghost predicate Valid()
      reads this
    {
      0 < workerQueues.Length <= MAX_VOICE_WORKERS
    }

    method Assign(w: nat, v: Handle)
      requires w < workerQueues.Length
      modifies this`workersPending, workerQueues
      ensures workerQueues[..] == old(workerQueues[..])[w := old(workerQueues[w]) + [v]]
      ensures workersPending == old(workersPending) + {w}
    {
      workerQueues[w] := workerQueues[w] + [v];
      workersPending := workersPending + {w};
    }

    /** Deals the queue, or stops at the first voice that breaks an assumption (`ok` false,
        where the program would abort). */
    method Schedule(d: Device) returns (ok: bool)
      requires Valid() && d.Valid()
      modifies this`workersPending, workerQueues
      ensures ok <==> Accepts(d, workerQueues.Length, queue)
      ensures ok ==> workerQueues[..] == Appended(old(workerQueues[..]), Plan(d, workerQueues.Length, queue))
      ensures ok ==> workersPending == old(workersPending) + Busy(d, workerQueues.Length, queue, |queue|)
    {
      var n := workerQueues.Length;
      var next: nat, group, dirty := 0, false, {};
      ghost var was, pending := workerQueues[..], workersPending;
      AppendedNothing(d, n, queue, was);
      for i := 0 to |queue|
        invariant Cursor(next, group, dirty) == CursorAt(d, n, queue, i)
        invariant AcceptsFirst(d, n, queue, i)
        invariant workerQueues[..] == Appended(was, DealtAll(d, n, queue, i))
        invariant workersPending == pending + Busy(d, n, queue, i)
      {
        var w := next;
        var admitted;
        admitted, next, group, dirty := Follow(d, n, queue, i, next, group, dirty);
        if !admitted {
          AcceptsEach(d, n, queue, |queue|, i);
          return false;
        }
        AppendedNext(d, n, queue, was, i);
        BusyNext(d, n, queue, pending, i);
        hide Busy, Appended, DealtAll, Advance, CursorAt;
        Assign(w, queue[i]);
      }
      return true;
    }
  }

  // ---- Playing voices ----

  /** What voice `v` in state `s` does when it reads `input` from its multipass bin: its next
      state and what it sends. A voice that is not multipass is handed silence. */
  type Play<!S> = (Handle, S, Samples) -> (S, Sends)

  function HeardBy(d: Device, v: Handle, m: Mix): Samples
    requires d.Valid()
  {
    if d.voices[v].multipass then m[d.voices[v].mpBin] else Silence()
  }

  /** The mix after voice `v`: a paused voice leaves it alone, a multipass voice first takes
      its bin and may clear it. */
  function VoiceMix<S>(d: Device, play: Play<S>, v: Handle, s: S, m: Mix): Mix
    requires d.Valid()
  {
    var r := d.voices[v];
    if r.paused then m
    else
      var base := if r.multipass && r.clearMix then m[r.mpBin := Silence()] else m;
      Plus(base, Spread(SendsTo(d, v), play(v, s, HeardBy(d, v, m)).1))
  }

  function VoiceState<S>(d: Device, play: Play<S>, v: Handle, s: S, m: Mix): S
    requires d.Valid()
  {
    if d.voices[v].paused then s else play(v, s, HeardBy(d, v, m)).0
  }

  /** Where block `n` of a voice goes: the first four blocks of a 3D voice to the HRTF submixes,
      every other block to the bin of its own send. */
  predicate GoesTo(d: Device, v: Handle, n: nat, bin: Bin)
    requires d.Valid() && n < SENDS_PER_VOICE
  {
    bin == if v < 64 && n < 4 then d.hrtfSubmix[n] else d.voices[v].bins[n]
  }

  /** The bins the scheduler counts as written are those some block goes to. */
  lemma {:induction false} DestinationsIff(d: Device, v: Handle, bin: Bin)
    requires d.Valid()
    ensures bin in DestinationBins(d, v) <==> exists n: nat {:trigger GoesTo(d, v, n, bin)} :: n < SENDS_PER_VOICE && GoesTo(d, v, n, bin)
  {
    var bins := SendsTo(d, v);
    BinsOfIff(bins, SENDS_PER_VOICE, bin);
    assert bins[..SENDS_PER_VOICE] == bins;
    assert forall n: nat {:trigger GoesTo(d, v, n, bin)} :: n < SENDS_PER_VOICE ==> (GoesTo(d, v, n, bin) <==> bins[n] == bin);
    hide SendsTo;
    if bin in bins {
      var n: nat :| n < |bins| && bins[n] == bin;
      assert GoesTo(d, v, n, bin);
    }
  }

  /** What the first `n` blocks bring to sample `i` of a bin. */
  function SentTo(d: Device, v: Handle, sends: Sends, bin: Bin, i: nat, n: nat): real
    requires d.Valid() && n <= SENDS_PER_VOICE && i < NUM_SAMPLES_PER_FRAME
  {
    if n == 0 then 0.0
    else SentTo(d, v, sends, bin, i, n - 1) + (if GoesTo(d, v, n - 1, bin) then sends[n - 1][i] else 0.0)
  }

  lemma {:induction false} SentToIsBrought(d: Device, v: Handle, sends: Sends, bin: Bin, i: nat, n: nat)
    requires d.Valid() && n <= SENDS_PER_VOICE && i < NUM_SAMPLES_PER_FRAME
    ensures SentTo(d, v, sends, bin, i, n) == Brought(SendsTo(d, v), sends, bin, i, n)
  {
    if n > 0 { SentToIsBrought(d, v, sends, bin, i, n - 1); }
  }

  /** Sample by sample, what a voice that is not paused leaves in the bins: what was there, but
      for the bin it takes and clears, and on top of it each of its eight blocks in the bin the
      block goes to. A multipass voice plays what its bin held, any other voice silence. */
  lemma {:induction false} VoiceMixAt<S>(d: Device, play: Play<S>, v: Handle, s: S, m: Mix, bin: Bin, i: nat)
    requires d.Valid() && i < NUM_SAMPLES_PER_FRAME && !d.voices[v].paused
    ensures var r := d.voices[v];
      var (next, sends) := play(v, s, if r.multipass then m[r.mpBin] else Silence());
      && VoiceState(d, play, v, s, m) == next
      && VoiceMix(d, play, v, s, m)[bin][i]
        == (if r.multipass && r.clearMix && bin == r.mpBin then 0.0 else m[bin][i]) + SentTo(d, v, sends, bin, i, SENDS_PER_VOICE)
  {
    var sends := play(v, s, HeardBy(d, v, m)).1;
    SpreadBrings(SendsTo(d, v), sends, bin, i, SENDS_PER_VOICE);
    SentToIsBrought(d, v, sends, bin, i, SENDS_PER_VOICE);
    hide SendsTo, SentTo, SpreadFirst, Brought;
  }

  datatype Sound<S> = Sound(voices: seq<S>, mix: Mix)

  /** One thread playing the first `i` voices of the queue in order on one mix. */
  function InOrder<S>(d: Device, play: Play<S>, start: seq<S>, queue: seq<Handle>, i: nat): (r: Sound<S>)
    requires d.Valid() && |start| == MCPX_HW_MAX_VOICES && i <= |queue|
    ensures |r.voices| == MCPX_HW_MAX_VOICES
  {
    if i == 0 then Sound(start, EmptyMix())
    else
      var before, v := InOrder(d, play, start, queue, i - 1), queue[i - 1];
      Sound(before.voices[v := VoiceState(d, play, v, before.voices[v], before.mix)],
            VoiceMix(d, play, v, before.voices[v], before.mix))
  }

  /** The workers at some point of a run: the shared voices, a mix each, and how many
      voices of its queue each has played. */
  datatype Workers<S> = Workers(voices: seq<S>, mixes: seq<Mix>, done: seq<nat>) {
    ghost predicate Valid(plan: seq<seq<Handle>>) {
      && |voices| == MCPX_HW_MAX_VOICES && |mixes| == |done| == |plan|
      && forall w :: 0 <= w < |plan| ==> done[w] <= |plan[w]|
    }

    ghost predicate Drained(plan: seq<seq<Handle>>)
      requires Valid(plan)
    {
      forall w :: 0 <= w < |plan| ==> done[w] == |plan[w]|
    }
  }

  /** Worker `w` plays its next voice; a worker with none left does nothing. */
  ghost function Step<S>(d: Device, play: Play<S>, plan: seq<seq<Handle>>, ws: Workers<S>, w: nat): (r: Workers<S>)
    requires d.Valid() && ws.Valid(plan)
    ensures r.Valid(plan)
  {
    if w >= |plan| || ws.done[w] == |plan[w]| then ws
    else
      var v := plan[w][ws.done[w]];
      Workers(ws.voices[v := VoiceState(d, play, v, ws.voices[v], ws.mixes[w])],
              ws.mixes[w := VoiceMix(d, play, v, ws.voices[v], ws.mixes[w])],
              ws.done[w := ws.done[w] + 1])
  }

  /** The workers after the first `i` steps of `trace`, from cleared mixes. */
  ghost function Run<S>(d: Device, play: Play<S>, plan: seq<seq<Handle>>, start: seq<S>, trace: seq<nat>,
        i: nat): (r: Workers<S>)
    requires d.Valid() && |start| == MCPX_HW_MAX_VOICES && i <= |trace|
    ensures r.Valid(plan)
  {
    if i == 0 then Workers(start, Repeat(|plan|, EmptyMix()), Repeat(|plan|, 0))
    else Step(d, play, plan, Run(d, play, plan, start, trace, i - 1), trace[i - 1])
  }

  /** The run of all of `trace`. */
  ghost function RunAll<S>(d: Device, play: Play<S>, plan: seq<seq<Handle>>, start: seq<S>,
        trace: seq<nat>): (r: Workers<S>)
    requires d.Valid() && |start| == MCPX_HW_MAX_VOICES
    ensures r.Valid(plan)
  {
    Run(d, play, plan, start, trace, |trace|)
  }

  // ---- What is asked of a queue beyond the scheduler's own assertions ----

  /** A voice that takes what is in its multipass bin: a paused one returns before it does. */
  predicate Takes(d: Device, v: Handle)
    requires d.Valid()
  {
    d.voices[v].multipass && !d.voices[v].paused
  }

  /** A voice that puts something into the multipass bin. */
  predicate Feeds(d: Device, v: Handle)
    requires d.Valid()
  {
    !d.voices[v].paused && MULTIPASS_BIN in DestinationBins(d, v)
  }

  /** What voice `i` put into the multipass bin is still there when voice `k` comes: no voice
      between them takes it. */
  predicate Held(d: Device, queue: seq<Handle>, i: nat, k: nat)
    requires d.Valid() && k <= |queue|
  {
    i < k && Feeds(d, queue[i]) && forall m {:trigger queue[m]} :: i < m < k ==> !Takes(d, queue[m])
  }

  /** Every voice that takes the multipass bin is dealt to the workers of those that fed it. */
  predicate Aligned(d: Device, workers: nat, queue: seq<Handle>)
    requires d.Valid() && workers > 0
  {
    forall i: nat, k: nat {:trigger Held(d, queue, i, k)} :: i < k < |queue| && Held(d, queue, i, k) && Takes(d, queue[k]) ==>
      PlaceOf(d, workers, queue, i) == PlaceOf(d, workers, queue, k)
  }

  /** A simpler condition that is enough: a multipass voice is not paused and does not itself
      send to the multipass bin. */
  predicate MultipassDrains(d: Device, queue: seq<Handle>)
    requires d.Valid()
  {
    forall i :: 0 <= i < |queue| && d.voices[queue[i]].multipass ==>
      !d.voices[queue[i]].paused && MULTIPASS_BIN !in DestinationBins(d, queue[i])
  }

  /** While a group is open, and only then, the multipass bin is dirty. */
  lemma {:induction false} GroupIffDirty(d: Device, workers: nat, queue: seq<Handle>, n: nat)
    requires d.Valid() && workers > 0 && n <= |queue|
    requires Accepts(d, workers, queue) && MultipassDrains(d, queue)
    ensures var cur := CursorAt(d, workers, queue, n); cur.group <==> MULTIPASS_BIN in cur.dirty
  {
    if n > 0 {
      GroupIffDirty(d, workers, queue, n - 1);
      VoiceAdmitted(d, workers, queue, n - 1);
      hide SendsTo, BinsOf;
    }
  }

  /** And all of a group goes to one worker. */
  lemma {:induction false} GroupStays(d: Device, workers: nat, queue: seq<Handle>, i: nat, n: nat)
    requires d.Valid() && workers > 0 && i < n <= |queue|
    requires Accepts(d, workers, queue) && MultipassDrains(d, queue) && Held(d, queue, i, n)
    ensures CursorAt(d, workers, queue, n).group && CursorAt(d, workers, queue, n).next == PlaceOf(d, workers, queue, i)
    decreases n
  {
    GroupIffDirty(d, workers, queue, n - 1);
    VoiceAdmitted(d, workers, queue, n - 1);
    if i < n - 1 {
      assert !Takes(d, queue[n - 1]) && Held(d, queue, i, n - 1);
      GroupStays(d, workers, queue, i, n - 1);
    }
    assert CursorAt(d, workers, queue, n) == Advance(d, workers, CursorAt(d, workers, queue, n - 1), queue[n - 1]);
    hide SendsTo, BinsOf, CursorAt, Accepts;
  }

  lemma {:induction false} DrainedIsAligned(d: Device, workers: nat, queue: seq<Handle>)
    requires d.Valid() && workers > 0
    requires Accepts(d, workers, queue) && MultipassDrains(d, queue)
    ensures Aligned(d, workers, queue)
  {
    forall i: nat, k: nat {:trigger Held(d, queue, i, k)} | i < k < |queue| && Held(d, queue, i, k) && Takes(d, queue[k])
      ensures PlaceOf(d, workers, queue, i) == PlaceOf(d, workers, queue, k)
    {
      GroupStays(d, workers, queue, i, k);
    }
  }

  /** What the assertions say of a multipass voice. */
  ghost predicate Regular(d: Device, v: Handle)
    requires d.Valid()
  {
    d.voices[v].multipass ==> d.voices[v].mpBin == MULTIPASS_BIN && d.voices[v].clearMix
  }

  lemma {:induction false} VoiceAdmitted(d: Device, workers: nat, queue: seq<Handle>, i: nat)
    requires d.Valid() && workers > 0 && i < |queue| && Accepts(d, workers, queue)
    ensures Regular(d, queue[i])
  {
    var v := queue[i];
    AcceptsEach(d, workers, queue, |queue|, i);
    if d.voices[v].multipass {
      assert d.voices[v].mpBin in SourceBins(d, v);
      assert MULTIPASS_BIN in ClearedBins(d, v);
    }
  }

  // ---- Every voice is dealt once ----

  /** The voices dealt so far start what a worker is dealt in all. */
  lemma {:induction false} DealtGrows(d: Device, workers: nat, queue: seq<Handle>, w: nat, i: nat, j: nat)
    requires d.Valid() && workers > 0 && i <= j <= |queue|
    ensures Dealt(d, workers, queue, w, i) <= Dealt(d, workers, queue, w, j)
    decreases j
  {
    if i < j { DealtGrows(d, workers, queue, w, i, j - 1); }
  }

  /** `owner` says of each planned voice which worker holds it, and where: no voice is in two
      places of the plan. */
  ghost predicate Owned(plan: seq<seq<Handle>>, owner: map<Handle, (nat, nat)>) {
    && (forall w, j {:trigger plan[w][j]} :: 0 <= w < |plan| && 0 <= j < |plan[w]| ==>
         plan[w][j] in owner && owner[plan[w][j]] == (w, j))
    && (forall v {:trigger owner[v]} :: v in owner ==>
         owner[v].0 < |plan| && owner[v].1 < |plan[owner[v].0]| && plan[owner[v].0][owner[v].1] == v)
  }

  lemma {:induction false} OwnedAfterDeal(plan: seq<seq<Handle>>, owner: map<Handle, (nat, nat)>, w: nat, v: Handle)
    requires Owned(plan, owner) && w < |plan| && v !in owner
    ensures Owned(plan[w := plan[w] + [v]], owner[v := (w, |plan[w]|)])
  {
  }

  lemma {:induction false} OwnersOfDealt(d: Device, workers: nat, queue: seq<Handle>,
        i: nat) returns (owner: map<Handle, (nat, nat)>)
    requires d.Valid() && workers > 0 && i <= |queue| && Distinct(queue)
    ensures Owned(DealtAll(d, workers, queue, i), owner)
    ensures forall v :: v in owner ==> v in queue[..i]
  {
    if i == 0 {
      owner := map[];
    } else {
      var before := OwnersOfDealt(d, workers, queue, i - 1);
      var v, w := queue[i - 1], PlaceOf(d, workers, queue, i - 1);
      var plan := DealtAll(d, workers, queue, i - 1);
      assert v !in before;
      DealtAllNext(d, workers, queue, i - 1);
      OwnedAfterDeal(plan, before, w, v);
      owner := before[v := (w, |plan[w]|)];
    }
  }

  lemma {:induction false} PlanOwners(d: Device, workers: nat,
        queue: seq<Handle>) returns (owner: map<Handle, (nat, nat)>)
    requires d.Valid() && workers > 0 && Distinct(queue)
    ensures Owned(Plan(d, workers, queue), owner)
  {
    owner := OwnersOfDealt(d, workers, queue, |queue|);
  }

  /** Every queued voice is dealt, and the pending bits are just the workers dealt something. */
  lemma {:induction false} BusyIffDealt(d: Device, workers: nat, queue: seq<Handle>, w: nat, i: nat)
    requires d.Valid() && workers > 0 && i <= |queue|
    ensures w in Busy(d, workers, queue, i) <==> Dealt(d, workers, queue, w, i) != []
    ensures w in Busy(d, workers, queue, i) ==> w < workers
  {
    if i > 0 {
      BusyIffDealt(d, workers, queue, w, i - 1);
    }
  }

  // ---- A run's result does not depend on its interleaving ----

  /** Worker `w` alone: its mix after the first `n` of the voices `mine`, each in its
      starting state. */
  ghost function Solo<S>(d: Device, play: Play<S>, start: seq<S>, mine: seq<Handle>, n: nat): Mix
    requires d.Valid() && |start| == MCPX_HW_MAX_VOICES && n <= |mine|
  {
    if n == 0 then EmptyMix()
    else VoiceMix(d, play, mine[n - 1], start[mine[n - 1]], Solo(d, play, start, mine, n - 1))
  }

  /** Voice `j` of `mine` after it has been played alone in its turn. */
  ghost function SoloState<S>(d: Device, play: Play<S>, start: seq<S>, mine: seq<Handle>, j: nat): S
    requires d.Valid() && |start| == MCPX_HW_MAX_VOICES && j < |mine|
  {
    VoiceState(d, play, mine[j], start[mine[j]], Solo(d, play, start, mine, j))
  }

  /** Each worker is where it would be alone, and each voice has been played by the one
      worker that holds it, or not yet. */
  ghost predicate Separate<S(!new)>(d: Device, play: Play<S>, plan: seq<seq<Handle>>, owner: map<Handle, (nat, nat)>,
        start: seq<S>, ws: Workers<S>)
    requires d.Valid() && |start| == MCPX_HW_MAX_VOICES && ws.Valid(plan) && Owned(plan, owner)
  {
    && (forall w {:trigger ws.mixes[w]} :: 0 <= w < |plan| ==> ws.mixes[w] == Solo(d, play, start, plan[w], ws.done[w]))
    && (forall v: Handle {:trigger ws.voices[v]} :: ws.voices[v] ==
         if v in owner && owner[v].1 < ws.done[owner[v].0]
         then SoloState(d, play, start, plan[owner[v].0], owner[v].1)
         else start[v])
  }

  lemma {:induction false} StepSeparate<S(!new)>(d: Device, play: Play<S>, plan: seq<seq<Handle>>,
        owner: map<Handle, (nat, nat)>, start: seq<S>, ws: Workers<S>, w: nat)
    requires d.Valid() && |start| == MCPX_HW_MAX_VOICES && ws.Valid(plan) && Owned(plan, owner)
    requires Separate(d, play, plan, owner, start, ws)
    ensures Separate(d, play, plan, owner, start, Step(d, play, plan, ws, w))
  {
    if w < |plan| && ws.done[w] < |plan[w]| {
      var n := ws.done[w];
      var v := plan[w][n];
      assert owner[v] == (w, n);
      assert ws.mixes[w] == Solo(d, play, start, plan[w], n);
      assert VoiceState(d, play, v, ws.voices[v], ws.mixes[w]) == SoloState(d, play, start, plan[w], n);
      assert VoiceMix(d, play, v, ws.voices[v], ws.mixes[w]) == Solo(d, play, start, plan[w], n + 1);
    }
  }

  lemma {:induction false} RunSeparate<S(!new)>(d: Device, play: Play<S>, plan: seq<seq<Handle>>,
        owner: map<Handle, (nat, nat)>, start: seq<S>, trace: seq<nat>, i: nat)
    requires d.Valid() && |start| == MCPX_HW_MAX_VOICES && Owned(plan, owner) && i <= |trace|
    ensures Separate(d, play, plan, owner, start, Run(d, play, plan, start, trace, i))
  {
    if i > 0 {
      RunSeparate(d, play, plan, owner, start, trace, i - 1);
      StepSeparate(d, play, plan, owner, start, Run(d, play, plan, start, trace, i - 1), trace[i - 1]);
    }
  }

  /** Any two runs that play every voice end the same, whatever their interleaving. */
  lemma {:induction false} RunsAgree<S(!new)>(d: Device, play: Play<S>, plan: seq<seq<Handle>>,
        owner: map<Handle, (nat, nat)>, start: seq<S>, one: seq<nat>, two: seq<nat>)
    requires d.Valid() && |start| == MCPX_HW_MAX_VOICES && Owned(plan, owner)
    requires RunAll(d, play, plan, start, one).Drained(plan)
    requires RunAll(d, play, plan, start, two).Drained(plan)
    ensures RunAll(d, play, plan, start, one) == RunAll(d, play, plan, start, two)
  {
    var a, b := RunAll(d, play, plan, start, one), RunAll(d, play, plan, start, two);
    RunSeparate(d, play, plan, owner, start, one, |one|);
    RunSeparate(d, play, plan, owner, start, two, |two|);
    assert a.done == b.done;
    assert a.mixes == b.mixes;
    assert a.voices == b.voices;
  }

  // ---- The run in queue order, beside one thread ----

  /** Worker `w` was dealt a voice whose send is still in the multipass bin before voice `n`. */
  ghost predicate HeldBy(d: Device, workers: nat, queue: seq<Handle>, n: nat, w: nat)
    requires d.Valid() && workers > 0 && n <= |queue|
  {
    exists i: nat {:trigger Held(d, queue, i, n)} :: Held(d, queue, i, n) && PlaceOf(d, workers, queue, i) == w
  }

  /** The workers beside one thread: the same voice states, the same mix in total, and only a
      worker that fed the multipass bin holds anything in it. */
  ghost predicate Level<S(!new)>(d: Device, workers: nat, queue: seq<Handle>, n: nat, ws: Workers<S>, one: Sound<S>)
    requires d.Valid() && workers > 0 && n <= |queue|
  {
    && ws.voices == one.voices
    && Total(ws.mixes) == one.mix
    && (forall w {:trigger ws.mixes[w]} :: 0 <= w < |ws.mixes| && ws.mixes[w][MULTIPASS_BIN] != Silence() ==>
         HeldBy(d, workers, queue, n, w))
  }

  /** One voice on worker `w` beside the same voice on the one mix. */
  lemma {:induction false} VoiceAbreast<S>(d: Device, play: Play<S>, mixes: seq<Mix>, w: nat, v: Handle, s: S)
    requires d.Valid() && w < |mixes| && Regular(d, v)
    requires Takes(d, v) ==> forall u :: 0 <= u < |mixes| && u != w ==> mixes[u][MULTIPASS_BIN] == Silence()
    ensures VoiceState(d, play, v, s, mixes[w]) == VoiceState(d, play, v, s, Total(mixes))
    ensures Total(mixes[w := VoiceMix(d, play, v, s, mixes[w])]) == VoiceMix(d, play, v, s, Total(mixes))
  {
    var r := d.voices[v];
    if r.paused {
      assert mixes[w := mixes[w]] == mixes;
    } else if r.multipass {
      TotalOfOne(mixes, w, MULTIPASS_BIN);
      TotalAfterClear(mixes, w, MULTIPASS_BIN);
      var cleared := mixes[w := mixes[w][MULTIPASS_BIN := Silence()]];
      var add := Spread(SendsTo(d, v), play(v, s, mixes[w][MULTIPASS_BIN]).1);
      TotalAfterAdd(cleared, w, add);
      assert cleared[w := Plus(cleared[w], add)] == mixes[w := Plus(cleared[w], add)];
    } else {
      TotalAfterAdd(mixes, w, Spread(SendsTo(d, v), play(v, s, Silence()).1));
    }
  }

  /** What a voice that does not feed the multipass bin leaves in it. */
  lemma {:induction false} BinAfterVoice<S>(d: Device, play: Play<S>, v: Handle, s: S, m: Mix)
    requires d.Valid() && !Feeds(d, v) && Regular(d, v)
    requires m[MULTIPASS_BIN] == Silence() || Takes(d, v)
    ensures VoiceMix(d, play, v, s, m)[MULTIPASS_BIN] == Silence()
  {
    if !d.voices[v].paused {
      BinsOfIff(SendsTo(d, v), SENDS_PER_VOICE, MULTIPASS_BIN);
      assert SendsTo(d, v)[..SENDS_PER_VOICE] == SendsTo(d, v);
      SpreadMisses(SendsTo(d, v), play(v, s, HeardBy(d, v, m)).1, SENDS_PER_VOICE, MULTIPASS_BIN);
      AddSamplesLaws(Silence(), Silence(), Silence());
    }
  }

  /** What is held stays held until a voice takes it, and what a voice feeds is held. */
  lemma {:induction false} HeldNext(d: Device, workers: nat, queue: seq<Handle>, n: nat, w: nat)
    requires d.Valid() && workers > 0 && n < |queue|
    requires (HeldBy(d, workers, queue, n, w) && !Takes(d, queue[n]))
      || (Feeds(d, queue[n]) && PlaceOf(d, workers, queue, n) == w)
    ensures HeldBy(d, workers, queue, n + 1, w)
  {
    if Feeds(d, queue[n]) && PlaceOf(d, workers, queue, n) == w {
      assert Held(d, queue, n, n + 1);
    } else {
      var i: nat :| Held(d, queue, i, n) && PlaceOf(d, workers, queue, i) == w;
      assert Held(d, queue, i, n + 1);
    }
  }

  lemma {:induction false} OnlyTakerHolds(d: Device, workers: nat, queue: seq<Handle>, n: nat)
    requires d.Valid() && workers > 0 && n < |queue| && Aligned(d, workers, queue) && Takes(d, queue[n])
    ensures forall w: nat {:trigger HeldBy(d, workers, queue, n, w)} :: HeldBy(d, workers, queue, n, w) ==>
      w == PlaceOf(d, workers, queue, n)
  {
  }

  lemma {:induction false} StepLevel<S(!new)>(d: Device, play: Play<S>, workers: nat, queue: seq<Handle>, n: nat,
        plan: seq<seq<Handle>>, ws: Workers<S>, one: Sound<S>)
    requires d.Valid() && |plan| == workers > 0 && n < |queue| && ws.Valid(plan)
    requires var w := PlaceOf(d, workers, queue, n);
      ws.done[w] < |plan[w]| && plan[w][ws.done[w]] == queue[n]
    requires Aligned(d, workers, queue) && Regular(d, queue[n]) && Level(d, workers, queue, n, ws, one)
    ensures var v := queue[n];
      Level(d, workers, queue, n + 1, Step(d, play, plan, ws, PlaceOf(d, workers, queue, n)),
            Sound(one.voices[v := VoiceState(d, play, v, one.voices[v], one.mix)],
                  VoiceMix(d, play, v, one.voices[v], one.mix)))
  {
    var v, w := queue[n], PlaceOf(d, workers, queue, n);
    hide CursorAt, Aligned, HeldBy, Held;
    if Takes(d, v) { OnlyTakerHolds(d, workers, queue, n); }
    VoiceAbreast(d, play, ws.mixes, w, v, ws.voices[v]);
    var after := Step(d, play, plan, ws, w);
    assert after.mixes == ws.mixes[w := VoiceMix(d, play, v, ws.voices[v], ws.mixes[w])];
    forall u {:trigger after.mixes[u]} | 0 <= u < workers && after.mixes[u][MULTIPASS_BIN] != Silence()
      ensures HeldBy(d, workers, queue, n + 1, u)
    {
      if u == w && !Feeds(d, v) && (ws.mixes[w][MULTIPASS_BIN] == Silence() || Takes(d, v)) {
        BinAfterVoice(d, play, v, ws.voices[v], ws.mixes[w]);
      } else {
        HeldNext(d, workers, queue, n, u);
      }
    }
  }

  /** The run that plays each voice as it is dealt: one step per voice, in queue order. */
  ghost function InQueueOrder(d: Device, workers: nat, queue: seq<Handle>): (trace: seq<nat>)
    requires d.Valid() && workers > 0
    ensures |trace| == |queue|
    ensures forall i :: 0 <= i < |queue| ==> trace[i] == PlaceOf(d, workers, queue, i)
  {
    seq(|queue|, i requires 0 <= i < |queue| => PlaceOf(d, workers, queue, i))
  }

  /** It has played, on each worker, just the voices dealt so far. */
  lemma {:induction false} RunCounts<S>(d: Device, play: Play<S>, workers: nat, queue: seq<Handle>, start: seq<S>,
        i: nat)
    requires d.Valid() && |start| == MCPX_HW_MAX_VOICES && workers > 0 && i <= |queue|
    ensures var ws := Run(d, play, Plan(d, workers, queue), start, InQueueOrder(d, workers, queue), i);
      forall w :: 0 <= w < workers ==> ws.done[w] == |Dealt(d, workers, queue, w, i)|
  {
    if i > 0 {
      RunCounts(d, play, workers, queue, start, i - 1);
      DealtGrows(d, workers, queue, PlaceOf(d, workers, queue, i - 1), i, |queue|);
    }
  }

  /** So its next step plays the next voice of the queue. */
  lemma {:induction false} NextInQueueOrder<S>(d: Device, play: Play<S>, workers: nat, queue: seq<Handle>,
        start: seq<S>, i: nat)
    requires d.Valid() && |start| == MCPX_HW_MAX_VOICES && workers > 0 && i < |queue|
    ensures var plan, w := Plan(d, workers, queue), PlaceOf(d, workers, queue, i);
      var n := Run(d, play, plan, start, InQueueOrder(d, workers, queue), i).done[w];
      n < |plan[w]| && plan[w][n] == queue[i]
  {
    hide Run, CursorAt, Device.Valid;
    RunCounts(d, play, workers, queue, start, i);
    DealtGrows(d, workers, queue, PlaceOf(d, workers, queue, i), i + 1, |queue|);
  }

  lemma {:induction false} StartAbreast<S(!new)>(d: Device, play: Play<S>, workers: nat, queue: seq<Handle>,
        plan: seq<seq<Handle>>, trace: seq<nat>, start: seq<S>)
    requires d.Valid() && |start| == MCPX_HW_MAX_VOICES && |plan| == workers > 0
    ensures Level(d, workers, queue, 0, Run(d, play, plan, start, trace, 0), InOrder(d, play, start, queue, 0))
  {
    assert Repeat(workers, EmptyMix()) == seq(workers, w => EmptyMix());
    TotalOfEmpty(workers);
  }

  lemma {:induction false} NextAbreast<S(!new)>(d: Device, play: Play<S>, workers: nat, queue: seq<Handle>,
        plan: seq<seq<Handle>>, trace: seq<nat>, start: seq<S>, i: nat)
    requires d.Valid() && |start| == MCPX_HW_MAX_VOICES && |plan| == workers > 0 && 0 < i <= |queue| == |trace|
    requires trace[i - 1] == PlaceOf(d, workers, queue, i - 1)
    requires var n := Run(d, play, plan, start, trace, i - 1).done[trace[i - 1]];
      n < |plan[trace[i - 1]]| && plan[trace[i - 1]][n] == queue[i - 1]
    requires Aligned(d, workers, queue) && Regular(d, queue[i - 1])
    requires Level(d, workers, queue, i - 1, Run(d, play, plan, start, trace, i - 1), InOrder(d, play, start, queue, i - 1))
    ensures Level(d, workers, queue, i, Run(d, play, plan, start, trace, i), InOrder(d, play, start, queue, i))
  {
    hide Aligned, Regular, Level, CursorAt;
    StepLevel(d, play, workers, queue, i - 1, plan, Run(d, play, plan, start, trace, i - 1),
              InOrder(d, play, start, queue, i - 1));
  }

  lemma {:induction false} RunAbreast<S(!new)>(d: Device, play: Play<S>, workers: nat, queue: seq<Handle>,
        start: seq<S>, i: nat)
    requires d.Valid() && |start| == MCPX_HW_MAX_VOICES && workers > 0 && i <= |queue|
    requires Accepts(d, workers, queue) && Aligned(d, workers, queue)
    ensures Level(d, workers, queue, i,
                  Run(d, play, Plan(d, workers, queue), start, InQueueOrder(d, workers, queue), i),
                  InOrder(d, play, start, queue, i))
  {
    hide *;
    var plan, trace := Plan(d, workers, queue), InQueueOrder(d, workers, queue);
    if i == 0 {
      StartAbreast(d, play, workers, queue, plan, trace, start);
    } else {
      RunAbreast(d, play, workers, queue, start, i - 1);
      NextInQueueOrder(d, play, workers, queue, start, i - 1);
      VoiceAdmitted(d, workers, queue, i - 1);
      NextAbreast(d, play, workers, queue, plan, trace, start, i);
    }
  }

  lemma {:induction false} InQueueOrderDrains<S>(d: Device, play: Play<S>, workers: nat, queue: seq<Handle>,
        start: seq<S>)
    requires d.Valid() && |start| == MCPX_HW_MAX_VOICES && workers > 0
    ensures RunAll(d, play, Plan(d, workers, queue), start, InQueueOrder(d, workers, queue)).Drained(Plan(d, workers, queue))
  {
    RunCounts(d, play, workers, queue, start, |queue|);
  }

  lemma {:induction false} InQueueOrderMatches<S(!new)>(d: Device, play: Play<S>, workers: nat, queue: seq<Handle>,
        start: seq<S>)
    requires d.Valid() && |start| == MCPX_HW_MAX_VOICES && workers > 0
    requires Accepts(d, workers, queue) && Aligned(d, workers, queue)
    ensures var ws := RunAll(d, play, Plan(d, workers, queue), start, InQueueOrder(d, workers, queue));
      Sound(ws.voices, Total(ws.mixes)) == InOrder(d, play, start, queue, |queue|)
  {
    RunAbreast(d, play, workers, queue, start, |queue|);
  }

  /** Any number of workers, any interleaving that plays every dealt voice of an aligned queue:
      the voices end in the same states and the worker mixes add up to the same mix as one
      thread playing the queue in order. */
  lemma {:induction false} ParallelMixIsInOrder<S(!new)>(d: Device, play: Play<S>, workers: nat, queue: seq<Handle>,
        start: seq<S>, trace: seq<nat>)
    requires d.Valid() && |start| == MCPX_HW_MAX_VOICES && workers > 0
    requires Accepts(d, workers, queue) && Distinct(queue) && Aligned(d, workers, queue)
    requires RunAll(d, play, Plan(d, workers, queue), start, trace).Drained(Plan(d, workers, queue))
    ensures var ws := RunAll(d, play, Plan(d, workers, queue), start, trace);
      Sound(ws.voices, Total(ws.mixes)) == InOrder(d, play, start, queue, |queue|)
  {
    InQueueOrderDrains(d, play, workers, queue, start);
    var owner := PlanOwners(d, workers, queue);
    RunsAgree(d, play, Plan(d, workers, queue), owner, start, trace, InQueueOrder(d, workers, queue));
    InQueueOrderMatches(d, play, workers, queue, start);
  }

  // ---- Adding the finished mixes ----

  ghost predicate AreWorkers(order: seq<nat>, workers: nat) {
    forall j {:trigger order[j]} :: 0 <= j < |order| ==> order[j] < workers
  }

  /** The dispatch's mix after the first `i` workers of `order` have added theirs. */
  ghost function Accumulated(mixes: seq<Mix>, order: seq<nat>, i: nat): Mix
    requires i <= |order| && AreWorkers(order, |mixes|)
  {
    if i == 0 then EmptyMix() else Plus(Accumulated(mixes, order, i - 1), mixes[order[i - 1]])
  }

  /** `mixes` with every worker silenced but the first `i` of `order`. */
  ghost function Counted(mixes: seq<Mix>, order: seq<nat>, i: nat): (r: seq<Mix>)
    requires i <= |order| && AreWorkers(order, |mixes|)
    ensures |r| == |mixes|
  {
    if i == 0 then seq(|mixes|, w => EmptyMix())
    else Counted(mixes, order, i - 1)[order[i - 1] := mixes[order[i - 1]]]
  }

  lemma {:induction false} CountedAt(mixes: seq<Mix>, order: seq<nat>, i: nat, w: nat)
    requires i <= |order| && AreWorkers(order, |mixes|) && w < |mixes|
    ensures Counted(mixes, order, i)[w] == if w in order[..i] then mixes[w] else EmptyMix()
  {
    if i > 0 {
      CountedAt(mixes, order, i - 1, w);
      assert order[..i] == order[..i - 1] + [order[i - 1]];
    }
  }

  /** Adding up the workers one by one, in any order without repeats, gives their total. */
  lemma {:induction false} AccumulatedIsTotal(mixes: seq<Mix>, order: seq<nat>, i: nat)
    requires i <= |order| && AreWorkers(order, |mixes|) && Distinct(order)
    ensures Accumulated(mixes, order, i) == Total(Counted(mixes, order, i))
  {
    if i == 0 {
      TotalOfEmpty(|mixes|);
    } else {
      var w, before := order[i - 1], Counted(mixes, order, i - 1);
      assert w !in order[..i - 1];
      CountedAt(mixes, order, i - 1, w);
      AccumulatedIsTotal(mixes, order, i - 1);
      TotalAfterAdd(before, w, mixes[w]);
      PlusComm(EmptyMix(), mixes[w]);
      PlusZero(mixes[w]);
    }
  }

  lemma {:induction false} AccumulatedAll(mixes: seq<Mix>, order: seq<nat>)
    requires AreWorkers(order, |mixes|) && Distinct(order)
    requires forall w {:trigger mixes[w]} :: 0 <= w < |mixes| && w !in order ==> mixes[w] == EmptyMix()
    ensures Accumulated(mixes, order, |order|) == Total(mixes)
  {
    AccumulatedIsTotal(mixes, order, |order|);
    assert order[..|order|] == order;
    forall w {:trigger mixes[w]} | 0 <= w < |mixes| ensures Counted(mixes, order, |order|)[w] == mixes[w] {
      CountedAt(mixes, order, |order|, w);
    }
    assert Counted(mixes, order, |order|) == mixes;
  }

  /** A worker that was dealt nothing has nothing to add. */
  lemma {:induction false} IdleWorkerIsSilent<S(!new)>(d: Device, play: Play<S>, workers: nat, queue: seq<Handle>,
        start: seq<S>, trace: seq<nat>, w: nat)
    requires d.Valid() && |start| == MCPX_HW_MAX_VOICES && Distinct(queue)
    requires w < workers && w !in Busy(d, workers, queue, |queue|)
    ensures RunAll(d, play, Plan(d, workers, queue), start, trace).mixes[w] == EmptyMix()
  {
    var plan := Plan(d, workers, queue);
    var owner := PlanOwners(d, workers, queue);
    RunSeparate(d, play, plan, owner, start, trace, |trace|);
    var ws := RunAll(d, play, plan, start, trace);
    BusyIffDealt(d, workers, queue, w, |queue|);
    assert ws.mixes[w] == Solo(d, play, start, plan[w], ws.done[w]);
  }

  /** The dispatch's mix, once every worker that was dealt a voice has added its own exactly
      once: the in-order mix, whatever order they finish in. */
  lemma {:induction false} DispatchMixIsInOrder<S(!new)>(d: Device, play: Play<S>, workers: nat, queue: seq<Handle>,
        start: seq<S>, trace: seq<nat>, order: seq<nat>)
    requires d.Valid() && |start| == MCPX_HW_MAX_VOICES && workers > 0
    requires Accepts(d, workers, queue) && Distinct(queue) && Aligned(d, workers, queue)
    requires RunAll(d, play, Plan(d, workers, queue), start, trace).Drained(Plan(d, workers, queue))
    requires Distinct(order) && AreWorkers(order, workers)
    requires forall w :: w in Busy(d, workers, queue, |queue|) ==> w in order
    ensures Accumulated(RunAll(d, play, Plan(d, workers, queue), start, trace).mixes, order, |order|)
         == InOrder(d, play, start, queue, |queue|).mix
  {
    ParallelMixIsInOrder(d, play, workers, queue, start, trace);
    var mixes := RunAll(d, play, Plan(d, workers, queue), start, trace).mixes;
    forall w {:trigger mixes[w]} | 0 <= w < workers && w !in order ensures mixes[w] == EmptyMix() {
      IdleWorkerIsSilent(d, play, workers, queue, start, trace, w);
    }
    AccumulatedAll(mixes, order);
  }
}
