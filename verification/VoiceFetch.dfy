/** Fetching a voice's samples: which frames of its buffer or of its stream's segments are
    handed to the resampler, in what order, and when the resampler's callback returns. */
module VoiceFetch {
  import opened Common

  const NUM_SAMPLES_PER_FRAME: nat := 32
  const RELEASE: nat := 6

  /** The registers of a voice that the fetch only reads. A stream plays the segments of list
      A (0) and list B (1); `counts` says how many each has and `length` how long they are. */
  datatype Voice = Voice(paused: bool, stream: bool, loop: bool, persist: bool, phase: nat,
                         ebo: nat, lbo: nat, counts: seq<nat>, length: (nat, nat) -> nat) {
    /** What the program asserts of a stream. */
    ghost predicate Valid() {
      |counts| == 2 && (stream ==> !loop && forall l, g {:trigger length(l, g)} :: length(l, g) > 0)
    }
  }

  /** Where a voice is: whether it is on, its position in samples, and for a stream its list
      and the segment in it. */
  datatype Place = Place(active: bool, cbo: nat, list: nat, segment: nat) {
    ghost predicate Valid() { list < 2 }
  }

  /** A frame handed to the resampler, by where it was read. */
  datatype Frame = Silent | InBuffer(i: nat) | InSegment(list: nat, segment: nat, i: nat)

  /** The last sample of the buffer, or of the segment the stream is in. */
  function Last(v: Voice, p: Place): nat
    requires v.Valid()
  {
    if v.stream then v.length(p.list, p.segment) - 1 else v.ebo
  }

  function FrameAt(v: Voice, p: Place, i: nat): Frame {
    if v.stream then InSegment(p.list, p.segment, i) else InBuffer(i)
  }

  function Next(v: Voice, list: nat, segment: nat): (nat, nat)
    requires v.Valid() && list < 2
  {
    if segment + 1 < v.counts[list] then (list, segment + 1) else (1 - list, 0)
  }

  /** A voice that has nothing to give: it is paused, or its stream may not or cannot go on. */
  predicate Ends(v: Voice, p: Place)
    requires v.Valid() && p.Valid()
  {
    v.paused || (v.stream && ((!v.persist && v.phase < RELEASE) || v.counts[p.list] == 0))
  }

  function Ended(v: Voice, p: Place): (r: Place)
    requires v.Valid() && p.Valid() && Ends(v, p)
    ensures r.Valid()
  {
    if v.paused then p
    else if !v.persist && v.phase < RELEASE then p.(active := false)
    else if !v.persist then Place(false, 0, 0, 0)
    else p.(cbo := 0, segment := 0)
  }

  /** How many samples there are to take. */
  function Taken(v: Voice, p: Place, requested: nat): nat
    requires v.Valid()
  {
    if p.cbo > Last(v, p) then 0
    else if requested <= Last(v, p) + 1 - p.cbo then requested else Last(v, p) + 1 - p.cbo
  }

  /** The voice after `n` samples: from the last sample on, the segment or the buffer is done. */
  function Advanced(v: Voice, p: Place, n: nat): (r: Place)
    requires v.Valid() && p.Valid()
    ensures r.Valid()
  {
    var cbo := p.cbo + n;
    if cbo < Last(v, p) then p.(cbo := cbo)
    else if v.stream then
      var (list, segment) := Next(v, p.list, p.segment);
      p.(cbo := 0, list := list, segment := segment)
    else if v.loop then p.(cbo := v.lbo)
    else p.(cbo := v.ebo, active := false)
  }

  function Frames(v: Voice, p: Place, n: nat): (r: seq<Frame>)
    ensures |r| == n && forall k {:trigger r[k]} :: 0 <= k < n ==> r[k] == FrameAt(v, p, p.cbo + k)
  {
    if n == 0 then [] else Frames(v, p, n - 1) + [FrameAt(v, p, p.cbo + n - 1)]
  }

  // ---- The order frames are read in ----

  /** `b` is read right after `a`: the next sample, or the start of what comes after a segment
      or a pass of the loop. Only the very last sample of a segment or pass can be left out. */
  predicate Follows(v: Voice, a: Frame, b: Frame)
    requires v.Valid()
  {
    match (a, b)
    case (InBuffer(i), InBuffer(j)) => (j == i + 1 <= v.ebo) || (v.loop && j == v.lbo && i + 1 >= v.ebo)
    case (InSegment(l, g, i), InSegment(m, h, j)) =>
      (m == l && h == g && j == i + 1 < v.length(l, g))
      || (l < 2 && (m, h) == Next(v, l, g) && j == 0 && i + 1 >= v.length(l, g) - 1)
    case _ => false
  }

  /** No sample above the last one of its segment or buffer. */
  predicate InRange(v: Voice, f: Frame)
    requires v.Valid()
  {
    match f
    case Silent => true
    case InBuffer(i) => i <= v.ebo
    case InSegment(l, g, i) => i < v.length(l, g)
  }

  ghost predicate Orderly(v: Voice, frames: seq<Frame>)
    requires v.Valid()
  {
    && (forall k {:trigger frames[k]} :: 0 <= k < |frames| ==> !frames[k].Silent? && InRange(v, frames[k]))
    && (forall k {:trigger After(frames, k)} :: 0 <= k < |frames| - 1 ==> Follows(v, frames[k], After(frames, k)))
  }

  function After(frames: seq<Frame>, k: nat): Frame
    requires k + 1 < |frames|
  {
    frames[k + 1]
  }

  /** The next frame the voice would read comes after all of these. */
  ghost predicate Leads(v: Voice, frames: seq<Frame>, p: Place)
    requires v.Valid() && p.Valid()
  {
    frames != [] && p.active && !Ends(v, p) && p.cbo <= Last(v, p) ==> Follows(v, frames[|frames| - 1], FrameAt(v, p, p.cbo))
  }

  lemma {:induction false} FramesOrderly(v: Voice, p: Place, n: nat)
    requires v.Valid() && p.Valid() && n <= Taken(v, p, n)
    ensures Orderly(v, Frames(v, p, n))
    ensures n > 0 ==> Leads(v, Frames(v, p, n), Advanced(v, p, n))
  {
    var f := Frames(v, p, n);
    forall k {:trigger After(f, k)} | 0 <= k < n - 1 ensures Follows(v, f[k], After(f, k)) {
      assert f[k] == FrameAt(v, p, p.cbo + k) && After(f, k) == FrameAt(v, p, p.cbo + k + 1);
    }
    if n > 0 { assert f[n - 1] == FrameAt(v, p, p.cbo + n - 1); }
  }

  lemma {:induction false} OrderlyJoin(v: Voice, a: seq<Frame>, b: seq<Frame>)
    requires v.Valid() && Orderly(v, a) && Orderly(v, b)
    requires a != [] && b != [] ==> Follows(v, a[|a| - 1], b[0])
    ensures Orderly(v, a + b)
  {
    var f := a + b;
    forall k {:trigger After(f, k)} | 0 <= k < |f| - 1 ensures Follows(v, f[k], After(f, k)) {
      if k < |a| - 1 {
        assert f[k] == a[k] && After(f, k) == After(a, k);
      } else if k >= |a| {
        assert f[k] == b[k - |a|] && After(f, k) == After(b, k - |a|);
      }
    }
  }

  // ---- The callback ----

  /** The callback as calls of the fetch, `fuel` at most: the frames it gets and the voice
      afterwards, or nothing if it is still calling. */
  function Fetched(v: Voice, p: Place, got: seq<Frame>, fuel: nat): Option<(seq<Frame>, Place)>
    requires v.Valid() && p.Valid() && |got| <= NUM_SAMPLES_PER_FRAME
    decreases fuel
  {
    if |got| == NUM_SAMPLES_PER_FRAME || !p.active then Some((got, p))
    else if fuel == 0 then None
    else if Ends(v, p) then Some((got, Ended(v, p)))
    else
      var n := Taken(v, p, NUM_SAMPLES_PER_FRAME - |got|);
      Fetched(v, Advanced(v, p, n), got + Frames(v, p, n), fuel - 1)
  }

  ghost predicate Returns(v: Voice, p: Place)
    requires v.Valid() && p.Valid()
  {
    exists fuel: nat {:trigger Fetched(v, p, [], fuel)} :: Fetched(v, p, [], fuel).Some?
  }

  /** The one way to call for ever: a buffer whose loop starts past its end, with less than a
      frame's worth of samples left before it. */
  predicate Runaway(v: Voice, p: Place)
    requires v.Valid() && p.Valid()
  {
    p.active && !v.paused && !v.stream && v.loop && v.lbo > v.ebo && p.cbo + NUM_SAMPLES_PER_FRAME > v.ebo + 1
  }

  /** Calls still needed, at most. */
  function Rank(v: Voice, p: Place, got: seq<Frame>): nat
    requires v.Valid() && |got| <= NUM_SAMPLES_PER_FRAME
  {
    2 * (NUM_SAMPLES_PER_FRAME - |got|) + (if p.cbo > Last(v, p) then 1 else 0)
  }

  predicate Sound(v: Voice, p: Place, got: seq<Frame>)
    requires v.Valid() && p.Valid() && |got| <= NUM_SAMPLES_PER_FRAME
  {
    p.active && !v.paused && !v.stream && v.loop ==>
      v.lbo <= v.ebo || p.cbo + (NUM_SAMPLES_PER_FRAME - |got|) <= v.ebo + 1
  }

  /** Each call brings a sample, or puts the voice where the next call will, or is the last. */
  lemma {:induction false} CallGetsOn(v: Voice, p: Place, got: seq<Frame>)
    requires v.Valid() && p.Valid() && |got| < NUM_SAMPLES_PER_FRAME && p.active && !Ends(v, p) && Sound(v, p, got)
    ensures var n := Taken(v, p, NUM_SAMPLES_PER_FRAME - |got|);
      var p', got' := Advanced(v, p, n), got + Frames(v, p, n);
      && |got'| <= NUM_SAMPLES_PER_FRAME
      && (|got'| == NUM_SAMPLES_PER_FRAME || !p'.active || (Sound(v, p', got') && Rank(v, p', got') < Rank(v, p, got)))
  {
  }

  lemma {:induction false} FetchedReturns(v: Voice, p: Place, got: seq<Frame>, fuel: nat)
    requires v.Valid() && p.Valid() && |got| <= NUM_SAMPLES_PER_FRAME && Sound(v, p, got)
    requires fuel >= Rank(v, p, got)
    ensures Fetched(v, p, got, fuel).Some?
    decreases fuel
  {
    if |got| < NUM_SAMPLES_PER_FRAME && p.active && !Ends(v, p) {
      CallGetsOn(v, p, got);
      var n := Taken(v, p, NUM_SAMPLES_PER_FRAME - |got|);
      var p', got' := Advanced(v, p, n), got + Frames(v, p, n);
      if |got'| < NUM_SAMPLES_PER_FRAME && p'.active {
        FetchedReturns(v, p', got', fuel - 1);
      }
    }
  }

  lemma {:induction false} RunsAway(v: Voice, p: Place, got: seq<Frame>, fuel: nat)
    requires v.Valid() && p.Valid() && |got| < NUM_SAMPLES_PER_FRAME
    requires p.active && !v.paused && !v.stream && v.loop && v.lbo > v.ebo
    requires p.cbo + (NUM_SAMPLES_PER_FRAME - |got|) > v.ebo + 1
    ensures Fetched(v, p, got, fuel).None?
    decreases fuel
  {
    if fuel > 0 {
      var n := Taken(v, p, NUM_SAMPLES_PER_FRAME - |got|);
      RunsAway(v, Advanced(v, p, n), got + Frames(v, p, n), fuel - 1);
    }
  }

  /** The callback returns if and only if the voice is not of that one kind. */
  lemma {:induction false} ReturnsIffNotRunaway(v: Voice, p: Place)
    requires v.Valid() && p.Valid()
    ensures Returns(v, p) <==> !Runaway(v, p)
  {
    if Runaway(v, p) {
      forall fuel: nat ensures Fetched(v, p, [], fuel).None? {
        RunsAway(v, p, [], fuel);
      }
    } else {
      FetchedReturns(v, p, [], Rank(v, p, []));
      assert Fetched(v, p, [], Rank(v, p, [])).Some?;
    }
  }

  /** A call that brings nothing is the first: it only leaves a segment or a buffer that was
      already past its end. */
  ghost predicate Started(v: Voice, p: Place, got: seq<Frame>)
    requires v.Valid() && p.Valid()
  {
    got != [] && p.active ==> p.cbo <= Last(v, p) || (!v.stream && v.loop && v.lbo > v.ebo)
  }

  lemma {:induction false} LeadsOn(v: Voice, p: Place, got: seq<Frame>, n: nat)
    requires v.Valid() && p.Valid() && p.active && !Ends(v, p) && Leads(v, got, p)
    requires n == Taken(v, p, n) && (n > 0 || got == [])
    ensures Leads(v, got + Frames(v, p, n), Advanced(v, p, n))
    ensures got != [] && n > 0 ==> Follows(v, got[|got| - 1], Frames(v, p, n)[0])
  {
    FramesOrderly(v, p, n);
  }

  lemma {:induction false} StartedOn(v: Voice, p: Place, got: seq<Frame>, n: nat)
    requires v.Valid() && p.Valid() && p.active && Started(v, p, got)
    requires n == Taken(v, p, n)
    ensures Started(v, Advanced(v, p, n), got + Frames(v, p, n))
  {
  }

  /** What it has got is in order: no sample past the end of its buffer or segment, samples of
      a segment one after the other with at most its last left out, list A's segments in turn
      and then list B's, and so on. */
  lemma {:induction false} FetchedOrderly(v: Voice, p: Place, got: seq<Frame>, fuel: nat)
    requires v.Valid() && p.Valid() && |got| <= NUM_SAMPLES_PER_FRAME && Fetched(v, p, got, fuel).Some?
    requires Orderly(v, got) && Leads(v, got, p) && Started(v, p, got)
    ensures var r := Fetched(v, p, got, fuel).value;
      r.1.Valid() && |r.0| <= NUM_SAMPLES_PER_FRAME && Orderly(v, r.0) && Leads(v, r.0, r.1)
    decreases fuel
  {
    if |got| < NUM_SAMPLES_PER_FRAME && p.active && !Ends(v, p) {
      var n := Taken(v, p, NUM_SAMPLES_PER_FRAME - |got|);
      var p', more := Advanced(v, p, n), Frames(v, p, n);
      if got != [] && p.cbo > Last(v, p) {
        RunsAway(v, p, got, fuel);
      } else {
        FramesOrderly(v, p, n);
        LeadsOn(v, p, got, n);
        StartedOn(v, p, got, n);
        OrderlyJoin(v, got, more);
        FetchedOrderly(v, p', got + more, fuel - 1);
      }
    }
  }

  /** So what one callback plays is in order, and the next callback goes on where it stopped. */
  lemma {:induction false} CallbackInOrder(v: Voice, p: Place)
    requires v.Valid() && p.Valid() && !Runaway(v, p)
    ensures var r := Fetched(v, p, [], Rank(v, p, []));
      && r.Some? && r.value.1.Valid() && |r.value.0| <= NUM_SAMPLES_PER_FRAME
      && Orderly(v, r.value.0) && Leads(v, r.value.0, r.value.1)
  {
    FetchedReturns(v, p, [], Rank(v, p, []));
    FetchedOrderly(v, p, [], Rank(v, p, []));
  }

  /** The one sample that can be left out: a chunk that ends just before the last sample of a
      segment or a buffer counts it as done. A stream goes on with the next segment, a loop with
      its start, and any other voice is switched off and fetches no more. */
  lemma {:induction false} LastSampleSkippedIff(v: Voice, p: Place, requested: nat)
    requires v.Valid() && p.Valid() && p.cbo <= Last(v, p)
    ensures var n := Taken(v, p, requested);
      FrameAt(v, p, Last(v, p)) !in Frames(v, p, n) && p.cbo + n >= Last(v, p) <==> p.cbo + requested == Last(v, p)
    ensures p.cbo + requested == Last(v, p) ==>
      var r := Advanced(v, p, Taken(v, p, requested));
      && (v.stream ==> (r.list, r.segment) == Next(v, p.list, p.segment) && r.cbo == 0 && r.active == p.active)
      && (!v.stream && v.loop ==> r == p.(cbo := v.lbo))
      && (!v.stream && !v.loop ==> forall got, fuel: nat {:trigger Fetched(v, r, got, fuel)} ::
           |got| <= NUM_SAMPLES_PER_FRAME ==> Fetched(v, r, got, fuel) == Some((got, p.(cbo := v.ebo, active := false))))
  {
    var n := Taken(v, p, requested);
    if p.cbo + n == Last(v, p) + 1 {
      assert Frames(v, p, n)[n - 1] == FrameAt(v, p, Last(v, p));
    }
  }

  /** The segment `k` after one. */
  function SegmentAfter(v: Voice, list: nat, segment: nat, k: nat): (r: (nat, nat))
    requires v.Valid() && list < 2
    ensures r.0 < 2
  {
    if k == 0 then (list, segment)
    else
      var (l, g) := SegmentAfter(v, list, segment, k - 1);
      Next(v, l, g)
  }

  lemma {:induction false} ListInTurn(v: Voice, list: nat, k: nat)
    requires v.Valid() && list < 2 && k < v.counts[list]
    ensures SegmentAfter(v, list, 0, k) == (list, k)
  {
    if k > 0 { ListInTurn(v, list, k - 1); }
  }

  /** A stream plays all segments of a list from the first to the last, then the other list from its
      first, and then the first list again. */
  lemma {:induction false} ListsInTurn(v: Voice, list: nat, k: nat)
    requires v.Valid() && list < 2 && v.counts[0] > 0 && v.counts[1] > 0
    ensures k < v.counts[list] ==> SegmentAfter(v, list, 0, k) == (list, k)
    ensures k < v.counts[1 - list] ==> SegmentAfter(v, list, 0, v.counts[list] + k) == (1 - list, k)
    ensures SegmentAfter(v, list, 0, v.counts[0] + v.counts[1]) == (list, 0)
  {
    if k < v.counts[list] { ListInTurn(v, list, k); }
    SecondList(v, list, v.counts[1 - list] - 1);
    if k < v.counts[1 - list] { SecondList(v, list, k); }
  }

  lemma {:induction false} SecondList(v: Voice, list: nat, k: nat)
    requires v.Valid() && list < 2 && v.counts[list] > 0 && k < v.counts[1 - list]
    ensures SegmentAfter(v, list, 0, v.counts[list] + k) == (1 - list, k)
  {
    if k == 0 {
      ListInTurn(v, list, v.counts[list] - 1);
    } else {
      SecondList(v, list, k - 1);
      assert v.counts[list] + k - 1 == v.counts[list] + (k - 1);
    }
  }

  /** A stream is ended at once before its release, phases 0 to 5, unless it may run dry; from then
      on, or if it may, it ends just when its list has no segments. */
  lemma {:induction false} StreamEnds(v: Voice, p: Place)
    requires v.Valid() && p.Valid() && v.stream && !v.paused
    ensures !v.persist && v.phase <= 5 ==> Ends(v, p) && Ended(v, p) == p.(active := false)
    ensures v.persist || v.phase >= 6 ==>
      && (Ends(v, p) <==> v.counts[p.list] == 0)
      && (Ends(v, p) ==> Ended(v, p) == if v.persist then p.(cbo := 0, segment := 0) else Place(false, 0, 0, 0))
  {
  }

  /** A stream that may run dry waits: once its list has segments again it goes on with the first
      sample of the first. One that may not is off. */
  lemma {:induction false} DryStreamResumes(v: Voice, p: Place, more: nat, requested: nat)
    requires v.Valid() && p.Valid() && p.active && !v.paused && v.stream && v.counts[p.list] == 0 && more > 0 && requested > 0
    ensures Ends(v, p) && (!v.persist ==> !Ended(v, p).active)
    ensures v.persist ==>
      var w, r := v.(counts := v.counts[p.list := more]), Ended(v, p);
      && w.Valid() && r.active && !Ends(w, r) && Taken(w, r, requested) > 0
      && Frames(w, r, Taken(w, r, requested))[0] == InSegment(p.list, 0, 0)
  {
  }

  // ---- The same, as the program does it ----

  function Padded(got: seq<Frame>): (r: seq<Frame>)
    requires |got| <= NUM_SAMPLES_PER_FRAME
    ensures |r| == NUM_SAMPLES_PER_FRAME
  {
    got + Repeat(NUM_SAMPLES_PER_FRAME - |got|, Silent)
  }

  /** The callback's loop, one call at a time. */
  lemma {:induction false} FetchedCall(v: Voice, p: Place, got: seq<Frame>, fuel: nat)
    requires v.Valid() && p.Valid() && |got| <= NUM_SAMPLES_PER_FRAME && Fetched(v, p, got, fuel).Some?
    ensures |got| == NUM_SAMPLES_PER_FRAME || !p.active ==> Fetched(v, p, got, fuel) == Some((got, p))
    ensures |got| < NUM_SAMPLES_PER_FRAME && p.active ==> fuel > 0
    ensures |got| < NUM_SAMPLES_PER_FRAME && p.active && Ends(v, p) ==> Fetched(v, p, got, fuel) == Some((got, Ended(v, p)))
    ensures |got| < NUM_SAMPLES_PER_FRAME && p.active && !Ends(v, p) ==>
      var n := Taken(v, p, NUM_SAMPLES_PER_FRAME - |got|);
      Fetched(v, p, got, fuel) == Fetched(v, Advanced(v, p, n), got + Frames(v, p, n), fuel - 1)
  {
  }

  class VoiceFilter {
    var active: bool
    var cbo: nat
    var sslIndex: nat
    var sslSegment: nat
    const resampleBuf: array<Frame>

    ghost predicate Valid()
      reads this
    {
      sslIndex < 2 && resampleBuf.Length == NUM_SAMPLES_PER_FRAME
    }

    ghost function Now(): (p: Place)
      reads this
    {
      Place(active, cbo, sslIndex, sslSegment)
    }

    method CopySamples(v: Voice, at: nat, requested: nat, ebo: nat) returns (count: nat)
      requires Valid() && v.Valid() && at + requested <= NUM_SAMPLES_PER_FRAME && ebo == Last(v, Now())
      modifies this`cbo, resampleBuf
      ensures count == Taken(v, old(Now()), requested) && cbo == old(cbo) + count
      ensures resampleBuf[..at] == old(resampleBuf[..at])
      ensures resampleBuf[at..at + count] == Frames(v, old(Now()), count)
    {
      ghost var p := Now();
      count := 0;
      while count < requested && cbo <= ebo
        invariant 0 <= count <= Taken(v, p, requested)
        invariant cbo == p.cbo + count
        invariant resampleBuf[..at] == old(resampleBuf[..at])
        invariant resampleBuf[at..at + count] == Frames(v, p, count)
        decreases requested - count
      {
        resampleBuf[at + count] := if v.stream then InSegment(sslIndex, sslSegment, cbo) else InBuffer(cbo);
        assert resampleBuf[at..at + count + 1] == resampleBuf[at..at + count] + [resampleBuf[at + count]];
        count := count + 1;
        cbo := cbo + 1;
      }
    }

    method VoiceGetSamples(v: Voice, at: nat, requested: nat) returns (count: int)
      requires Valid() && v.Valid() && at + requested <= NUM_SAMPLES_PER_FRAME
      modifies this, resampleBuf
      ensures Valid()
      ensures Ends(v, old(Now())) ==> count == -1 && Now() == Ended(v, old(Now())) && resampleBuf[..] == old(resampleBuf[..])
      ensures !Ends(v, old(Now())) ==>
        && count == Taken(v, old(Now()), requested) && Now() == Advanced(v, old(Now()), count)
        && resampleBuf[..at] == old(resampleBuf[..at])
        && resampleBuf[at..at + count] == Frames(v, old(Now()), count)
    {
      if v.paused {
        return -1;
      }
      if v.stream {
        if !v.persist && v.phase < RELEASE {
          active := false;
          return -1;
        }
        if v.counts[sslIndex] == 0 {
          cbo := 0;
          sslSegment := 0;
          if !v.persist {
            sslIndex := 0;
            active := false;
          }
          return -1;
        }
      }
      var ebo := if v.stream then v.length(sslIndex, sslSegment) - 1 else v.ebo;
      count := CopySamples(v, at, requested, ebo);
      if cbo >= ebo {
        if v.stream {
          sslSegment := sslSegment + 1;
          cbo := 0;
          if sslSegment >= v.counts[sslIndex] {
            sslIndex := (sslIndex + 1) % 2;
            sslSegment := 0;
          }
        } else if v.loop {
          cbo := v.lbo;
        } else {
          cbo := ebo;
          active := false;
        }
      }
    }

    /** The callback's loop of fetches. */
    method FetchSamples(v: Voice, ghost fuel: nat) returns (count: nat)
      requires Valid() && v.Valid() && Fetched(v, Now(), [], fuel).Some?
      modifies this, resampleBuf
      ensures Valid() && count <= NUM_SAMPLES_PER_FRAME
      ensures Fetched(v, old(Now()), [], fuel) == Some((resampleBuf[..count], Now()))
    {
      hide Fetched, Ends, Advanced, Ended, Voice.Valid;
      ghost var r, left := Fetched(v, Now(), [], fuel), fuel;
      count := 0;
      while count < NUM_SAMPLES_PER_FRAME
        invariant Valid() && 0 <= count <= NUM_SAMPLES_PER_FRAME
        invariant r == Fetched(v, Now(), resampleBuf[..count], left)
        decreases left
      {
        ghost var p, got := Now(), resampleBuf[..count];
        FetchedCall(v, p, got, left);
        if !active {
          return;
        }
        var n := VoiceGetSamples(v, count, NUM_SAMPLES_PER_FRAME - count);
        if n < 0 {
          return;
        }
        assert resampleBuf[..count + n] == got + Frames(v, p, n);
        count := count + n;
        left := left - 1;
      }
      FetchedCall(v, Now(), resampleBuf[..count], left);
    }

    /** The resampler's callback: always 32 frames, what was fetched and then silence. */
    method VoiceResampleCallback(v: Voice) returns (count: nat)
      requires Valid() && v.Valid() && !Runaway(v, Now())
      modifies this, resampleBuf
      ensures Valid() && count == NUM_SAMPLES_PER_FRAME
      ensures var r := Fetched(v, old(Now()), [], Rank(v, old(Now()), []));
        r.Some? && |r.value.0| <= NUM_SAMPLES_PER_FRAME && Now() == r.value.1 && resampleBuf[..] == Padded(r.value.0)
    {
      FetchedReturns(v, Now(), [], Rank(v, Now(), []));
      count := FetchSamples(v, Rank(v, Now(), []));
      PadWithSilence(count);
      count := NUM_SAMPLES_PER_FRAME;
    }

    method PadWithSilence(got: nat)
      requires Valid() && got <= NUM_SAMPLES_PER_FRAME
      modifies resampleBuf
      ensures resampleBuf[..] == Padded(old(resampleBuf[..got]))
    {
      for i := got to NUM_SAMPLES_PER_FRAME
        invariant resampleBuf[..got] == old(resampleBuf[..got])
        invariant forall k :: got <= k < i ==> resampleBuf[k] == Silent
      {
        resampleBuf[i] := Silent;
      }
    }
  }
}
