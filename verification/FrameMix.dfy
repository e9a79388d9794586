/** One frame end to end: the schedule, the workers' interleaved playing, the handshake and
    the order in which mixes are added, put together. */
module FrameMix {
  import opened Common
  import opened Mcpx
  import opened MixBins
  import opened FrameSchedule
  import opened MultipassLimits
  import B = FrameBarrier

  /** How many voices each worker is dealt. */
  ghost function Lengths(plan: seq<seq<Handle>>): (r: seq<nat>)
    ensures |r| == |plan| && forall w {:trigger r[w]} :: 0 <= w < |plan| ==> r[w] == |plan[w]|
  {
    seq(|plan|, w requires 0 <= w < |plan| => |plan[w]|)
  }

  /** In a run, a worker has played as many of its voices as it has taken steps. */
  lemma {:induction false} RunDone<S>(d: Device, play: Play<S>, plan: seq<seq<Handle>>, start: seq<S>,
        trace: seq<nat>, i: nat, w: nat)
    requires d.Valid() && |start| == MCPX_HW_MAX_VOICES && i <= |trace| && w < |plan|
    ensures var c := B.Count(trace, w, i);
      Run(d, play, plan, start, trace, i).done[w] == if c <= |plan[w]| then c else |plan[w]|
  {
    if i > 0 {
      RunDone(d, play, plan, start, trace, i - 1, w);
    }
  }

  /** A queue that is not empty gives the dispatcher something to wait for. */
  lemma {:induction false} SomethingDealt(d: Device, workers: nat, queue: seq<Handle>)
    requires d.Valid() && workers > 0 && queue != []
    ensures exists w :: 0 <= w < workers && Lengths(Plan(d, workers, queue))[w] > 0
  {
    var w := PlaceOf(d, workers, queue, |queue| - 1);
    assert w in Busy(d, workers, queue, |queue|);
    BusyIffDealt(d, workers, queue, w, |queue|);
    assert Lengths(Plan(d, workers, queue))[w] > 0;
  }

  /** When the dispatcher is back, the workers have played all they were dealt. */
  lemma {:induction false} FrameDrains<S>(d: Device, play: Play<S>, workers: nat, queue: seq<Handle>, start: seq<S>,
        events: seq<B.Event>, s: B.Barrier)
    requires d.Valid() && |start| == MCPX_HW_MAX_VOICES && 0 < workers <= MAX_VOICE_WORKERS
    requires B.Reaches(B.Init(workers), events, s)
    requires s.dispatcher == B.Returned && s.shares == Lengths(Plan(d, workers, queue))
    ensures RunAll(d, play, Plan(d, workers, queue), start, s.played).Drained(Plan(d, workers, queue))
  {
    var plan := Plan(d, workers, queue);
    B.ReturnsWhenDone(workers, events, s);
    forall w | 0 <= w < workers ensures RunAll(d, play, plan, start, s.played).done[w] == |plan[w]| {
      RunDone(d, play, plan, start, s.played, |s.played|, w);
      assert s.left[w] == 0 && s.shares[w] == |plan[w]|;
    }
  }

  /** Whatever interleaving of mutex hand-overs, wake-ups, late wake-ups of idle workers and
      playing of voices led there: when the dispatcher is back from waiting for a frame
      whose queue it dealt, the mix it finds is that of one thread playing the queue in
      order, and every voice is in the state that thread would leave it in. */
  lemma {:induction false} FrameMixIsInOrder<S(!new)>(d: Device, play: Play<S>, workers: nat, queue: seq<Handle>,
        start: seq<S>, events: seq<B.Event>, s: B.Barrier)
    requires d.Valid() && |start| == MCPX_HW_MAX_VOICES && 0 < workers <= MAX_VOICE_WORKERS
    requires Accepts(d, workers, queue) && Distinct(queue) && Aligned(d, workers, queue)
    requires B.Reaches(B.Init(workers), events, s)
    requires s.dispatcher == B.Returned && s.shares == Lengths(Plan(d, workers, queue))
    ensures forall i :: 0 <= i < |s.order| ==> s.order[i] < workers
    ensures var ws := RunAll(d, play, Plan(d, workers, queue), start, s.played);
      Sound(ws.voices, Accumulated(ws.mixes, s.order, |s.order|)) == InOrder(d, play, start, queue, |queue|)
  {
    var plan := Plan(d, workers, queue);
    B.ReturnsWhenDone(workers, events, s);
    FrameDrains(d, play, workers, queue, start, events, s);
    forall w | w in Busy(d, workers, queue, |queue|) ensures w in s.order {
      BusyIffDealt(d, workers, queue, w, |queue|);
      assert s.shares[w] == |plan[w]|;
    }
    ParallelMixIsInOrder(d, play, workers, queue, start, s.played);
    DispatchMixIsInOrder(d, play, workers, queue, start, s.played, s.order);
  }

  /** A dispatcher that is idle can deal any queue that is not empty, and come back from waiting
      for it: there is a run in which it does. */
  lemma {:induction false} FrameCanRun(d: Device, workers: nat, queue: seq<Handle>, events: seq<B.Event>, s: B.Barrier)
      returns (all: seq<B.Event>, end: B.Barrier)
    requires d.Valid() && 0 < workers <= MAX_VOICE_WORKERS && queue != []
    requires B.Reaches(B.Init(workers), events, s) && s.dispatcher == B.Idle && s.lock == B.Free
    ensures B.Enabled(s, B.Dispatch(Lengths(Plan(d, workers, queue))))
    ensures events + [B.Dispatch(Lengths(Plan(d, workers, queue)))] <= all && B.Reaches(B.Init(workers), all, end)
    ensures end.dispatcher == B.Returned && end.shares == Lengths(Plan(d, workers, queue))
  {
    B.RunKeepsWorkers(B.Init(workers), events, |events|);
    SomethingDealt(d, workers, queue);
    var deal := B.Dispatch(Lengths(Plan(d, workers, queue)));
    B.ReachesNext(B.Init(workers), events, s, deal);
    all, end := B.WaitCanEnd(workers, events + [deal], B.Step(s, deal));
  }

  /** The dispatcher gets that far. */
  lemma {:induction false} DispatcherGetsIdle(workers: nat) returns (events: seq<B.Event>, s: B.Barrier)
    requires 0 < workers <= MAX_VOICE_WORKERS
    ensures B.Reaches(B.Init(workers), events, s) && s.dispatcher == B.Idle && s.lock == B.Free
  {
    assert B.Reaches(B.Init(workers), [], B.Init(workers));
    var started, up := B.WaitCanEnd(workers, [], B.Init(workers));
    B.ReachesNext(B.Init(workers), started, up, B.Leave);
    return started + [B.Leave], B.Step(up, B.Leave);
  }

  /** The voices and the mix the dispatcher is back with are those of one thread. */
  ghost predicate FrameInOrder<S(!new)>(d: Device, workers: nat, queue: seq<Handle>, play: Play<S>, start: seq<S>,
        s: B.Barrier)
    requires d.Valid() && workers > 0 && |start| == MCPX_HW_MAX_VOICES
  {
    var ws := RunAll(d, play, Plan(d, workers, queue), start, s.played);
    && AreWorkers(s.order, workers)
    && Sound(ws.voices, Accumulated(ws.mixes, s.order, |s.order|)) == InOrder(d, play, start, queue, |queue|)
  }

  /** Every frame of the queue gives the voices and the mix of one thread, however the voices
      sound and whatever the interleaving. */
  ghost predicate FramesInOrder(d: Device, workers: nat, queue: seq<Handle>)
    requires d.Valid() && workers > 0
  {
    forall play: Play<Samples>, start: seq<Samples>, events: seq<B.Event>, s: B.Barrier
      {:trigger B.Reaches(B.Init(workers), events, s), FrameInOrder(d, workers, queue, play, start, s)} ::
      |start| == MCPX_HW_MAX_VOICES && B.Reaches(B.Init(workers), events, s)
      && s.dispatcher == B.Returned && s.shares == Lengths(Plan(d, workers, queue)) ==>
        FrameInOrder(d, workers, queue, play, start, s)
  }

  /** That holds exactly for the aligned queues. */
  lemma {:induction false} FramesInOrderIffAligned(d: Device, workers: nat, queue: seq<Handle>)
    requires d.Valid() && 0 < workers <= MAX_VOICE_WORKERS && Accepts(d, workers, queue) && Distinct(queue)
    ensures FramesInOrder(d, workers, queue) <==> Aligned(d, workers, queue)
  {
    if Aligned(d, workers, queue) {
      AlignedFrames(d, workers, queue);
    } else {
      MisalignedFrame(d, workers, queue);
    }
  }

  lemma {:induction false} AlignedFrames(d: Device, workers: nat, queue: seq<Handle>)
    requires d.Valid() && 0 < workers <= MAX_VOICE_WORKERS && Accepts(d, workers, queue) && Distinct(queue)
    requires Aligned(d, workers, queue)
    ensures FramesInOrder(d, workers, queue)
  {
    hide Aligned, Accepts, Plan, RunAll, InOrder, Accumulated, Lengths, B.Reaches, B.Init;
    forall play: Play<Samples>, start: seq<Samples>, events: seq<B.Event>, s: B.Barrier |
      |start| == MCPX_HW_MAX_VOICES && B.Reaches(B.Init(workers), events, s)
      && s.dispatcher == B.Returned && s.shares == Lengths(Plan(d, workers, queue))
      ensures FrameInOrder(d, workers, queue, play, start, s)
    {
      FrameMixIsInOrder(d, play, workers, queue, start, events, s);
    }
  }

  lemma {:induction false} MisalignedFrame(d: Device, workers: nat, queue: seq<Handle>)
    requires d.Valid() && 0 < workers <= MAX_VOICE_WORKERS && Accepts(d, workers, queue) && Distinct(queue)
    requires !Aligned(d, workers, queue)
    ensures !FramesInOrder(d, workers, queue)
  {
    var i: nat, k: nat :| i < k < |queue| && Held(d, queue, i, k) && Takes(d, queue[k])
      && PlaceOf(d, workers, queue, i) != PlaceOf(d, workers, queue, k);
    var events, idle := DispatcherGetsIdle(workers);
    var all, end := FrameCanRun(d, workers, queue, events, idle);
    var play, start := OneLoud(queue[i]), HeardNothing();
    hide *;
    FrameDrains(d, play, workers, queue, start, all, end);
    MisalignedPair(d, workers, queue, i, k, end.played);
    NotEveryFrame(d, workers, queue, play, start, all, end);
  }

  lemma {:induction false} NotEveryFrame(d: Device, workers: nat, queue: seq<Handle>, play: Play<Samples>,
        start: seq<Samples>, events: seq<B.Event>, s: B.Barrier)
    requires d.Valid() && workers > 0 && |start| == MCPX_HW_MAX_VOICES && B.Reaches(B.Init(workers), events, s)
    requires s.dispatcher == B.Returned && s.shares == Lengths(Plan(d, workers, queue))
    requires RunAll(d, play, Plan(d, workers, queue), start, s.played).voices
      != InOrder(d, play, start, queue, |queue|).voices
    ensures !FramesInOrder(d, workers, queue)
  {
    hide Plan, RunAll, InOrder, Accumulated, Lengths, B.Reaches, B.Init;
    assert !FrameInOrder(d, workers, queue, play, start, s);
  }
}
