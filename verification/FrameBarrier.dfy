/** The start-up and the per-frame handshake between the dispatcher and the voice workers:
    one mutex, a condition on which workers sleep and one on which the dispatcher waits.

    Every step a thread can take is an event; a run is any sequence of enabled events. A
    worker asleep may be woken at any time without a broadcast; the dispatcher, whose wait
    is not in a loop, is woken only by a signal. Waiting on a condition and releasing the
    mutex is one event. */
module FrameBarrier {
  import opened Common

  /** A worker thread, by where it stands. It has a number once it has passed its first lock. */
  datatype Worker =
    | Starting
    | AtTop(id: nat)       // holds the mutex, about to look at its queue
    | Processing(id: nat)  // plays its queue outside the mutex
    | Rejoining(id: nat)   // its queue is played; wants the mutex
    | Adding(id: nat)      // holds the mutex, about to add its mix
    | Clearing(id: nat)    // holds the mutex, about to clear its pending bit
    | Asleep(id: nat)      // waits for work
    | Waking(id: nat)      // has been woken; wants the mutex
  {
    predicate Holding() { AtTop? || Adding? || Clearing? }
    predicate Wanting() { Starting? || Rejoining? || Waking? }
    predicate Playing() { Processing? || Rejoining? || Adding? }
  }

  /** The dispatcher: waiting for the work to finish, signalled but without the mutex, back
      from its wait with the mutex, or outside a dispatch. */
  datatype Dispatcher = Waiting | Signalled | Returned | Idle

  datatype Lock = Free | ByWorker(thread: nat) | ByDispatcher

  /** `pending` holds the bits of the pending mask and `queued` the workers whose queue is not
      empty. `threads` is the thread that has each number given out so far. `shares` says how
      many voices each was dealt in this frame and `left` how many it has yet to play; `played`
      and `order` record who played a voice and who added its mix, in order. */
  datatype Barrier = Barrier(
    workers: seq<Worker>, threads: seq<nat>, dispatcher: Dispatcher, lock: Lock,
    pending: set<nat>, queued: set<nat>, shares: seq<nat>, left: seq<nat>, played: seq<nat>, order: seq<nat>)

  datatype Event =
    | Acquire(thread: nat)
    | Advance(thread: nat)
    | Play(thread: nat)
    | SpuriousWake(thread: nat)
    | Return
    | Leave
    | Dispatch(dealt: seq<nat>)

  function Numbers(n: nat): (s: set<nat>)
    ensures forall i: nat {:trigger i in s} :: i in s <==> i < n
  {
    if n == 0 then {} else Numbers(n - 1) + {n - 1}
  }

  /** Start-up with `n` workers: all bits pending, no queue, the creator waiting. */
  ghost function Init(n: nat): (s: Barrier)
    ensures |s.workers| == |s.shares| == |s.left| == n
  {
    var none := seq(n, w => 0);
    Barrier(seq(n, t => Starting), [], Waiting, Free, Numbers(n), {}, none, none, [], [])
  }

  /** The lowest set bit; 64 when there is none. */
  function Lowest(bits: set<nat>, from: nat): (i: nat)
    requires from <= 64
    decreases 64 - from
    ensures i == 64 || (i in bits && from <= i < 64)
    ensures forall j {:trigger j in bits} :: j in bits && from <= j < 64 ==> i <= j
  {
    if from == 64 || from in bits then from else Lowest(bits, from + 1)
  }

  function Wake(w: Worker): Worker {
    if w.Asleep? then Waking(w.id) else w
  }

  ghost function WakeAll(ws: seq<Worker>): (r: seq<Worker>)
    ensures |r| == |ws| && forall t {:trigger r[t]} :: 0 <= t < |ws| ==> r[t] == Wake(ws[t])
  {
    seq(|ws|, t requires 0 <= t < |ws| => Wake(ws[t]))
  }

  predicate Enabled(s: Barrier, e: Event) {
    match e
    case Acquire(t) => t < |s.workers| && s.workers[t].Wanting() && s.lock == Free
    case Advance(t) => t < |s.workers| &&
      (s.workers[t].Holding() || (s.workers[t].Processing? && s.workers[t].id < |s.left| && s.left[s.workers[t].id] == 0))
    case Play(t) => t < |s.workers| && s.workers[t].Processing? && s.workers[t].id < |s.left| && s.left[s.workers[t].id] > 0
    case SpuriousWake(t) => t < |s.workers| && s.workers[t].Asleep?
    case Return => s.dispatcher == Signalled && s.lock == Free
    case Leave => s.dispatcher == Returned
    case Dispatch(dealt) => s.dispatcher == Idle && s.lock == Free && |dealt| == |s.workers| && exists w :: 0 <= w < |dealt| && dealt[w] > 0
  }

  /** A worker takes the mutex. A new one takes the lowest pending bit as its number. */
  function Acquired(s: Barrier, t: nat): Barrier
    requires Enabled(s, Acquire(t))
  {
    match s.workers[t]
    case Starting =>
      var id := Lowest(s.pending, 0);
      s.(workers := s.workers[t := AtTop(id)], threads := s.threads + [t], lock := ByWorker(t), queued := s.queued - {id})
    case Rejoining(id) => s.(workers := s.workers[t := Adding(id)], lock := ByWorker(t))
    case Waking(id) => s.(workers := s.workers[t := AtTop(id)], lock := ByWorker(t))
    case _ => s
  }

  function Advanced(s: Barrier, t: nat): Barrier
    requires Enabled(s, Advance(t))
  {
    match s.workers[t]
    case AtTop(id) =>
      if id in s.queued then s.(workers := s.workers[t := Processing(id)], lock := Free)
      else s.(workers := s.workers[t := Clearing(id)])
    case Processing(id) => s.(workers := s.workers[t := Rejoining(id)])
    case Adding(id) => s.(workers := s.workers[t := Clearing(id)], order := s.order + [id], queued := s.queued - {id})
    case Clearing(id) =>
      var pending := s.pending - {id};
      s.(workers := s.workers[t := Asleep(id)], lock := Free, pending := pending,
         dispatcher := if pending == {} && s.dispatcher == Waiting then Signalled else s.dispatcher)
    case _ => s
  }

  ghost function Step(s: Barrier, e: Event): Barrier
    requires Enabled(s, e)
  {
    match e
    case Acquire(t) => Acquired(s, t)
    case Advance(t) => Advanced(s, t)
    case Play(t) =>
      var id := s.workers[t].id;
      s.(left := s.left[id := s.left[id] - 1], played := s.played + [id])
    case SpuriousWake(t) => s.(workers := s.workers[t := Wake(s.workers[t])])
    case Return => s.(dispatcher := Returned, lock := ByDispatcher)
    case Leave => s.(dispatcher := Idle, lock := Free)
    case Dispatch(dealt) =>
      var some := set w | 0 <= w < |dealt| && dealt[w] > 0;
      s.(dispatcher := Waiting, workers := WakeAll(s.workers), pending := s.pending + some, queued := s.queued + some,
         shares := dealt, left := dealt, played := [], order := [])
  }

  // ---- What every step keeps ----

  /** How many workers have their number. */
  function Started(ws: seq<Worker>, i: nat): (k: nat)
    requires i <= |ws|
    ensures k <= i
  {
    if i == 0 then 0 else Started(ws, i - 1) + (if ws[i - 1].Starting? then 0 else 1)
  }

  /** The mutex has the holder its threads' positions say. */
  ghost predicate LockHeld(s: Barrier) {
    && (forall t {:trigger s.workers[t]} :: 0 <= t < |s.workers| ==> (s.workers[t].Holding() <==> s.lock == ByWorker(t)))
    && (s.dispatcher == Returned <==> s.lock == ByDispatcher)
    && (s.lock.ByWorker? ==> s.lock.thread < |s.workers|)
  }

  /** Numbers are given out from 0 up, each to one thread. */
  ghost predicate Numbered(s: Barrier) {
    && |s.threads| == Started(s.workers, |s.workers|)
    && (forall t {:trigger s.workers[t]} :: 0 <= t < |s.workers| && !s.workers[t].Starting? ==>
         s.workers[t].id < |s.threads| && s.threads[s.workers[t].id] == t)
    && (forall i {:trigger s.threads[i]} :: 0 <= i < |s.threads| ==>
         s.threads[i] < |s.workers| && !s.workers[s.threads[i]].Starting? && s.workers[s.threads[i]].id == i)
  }

  /** While some worker has no number yet, only such workers are pending, and the one that
      is passing through holds the mutex. */
  ghost predicate StartingUp(s: Barrier) {
    && (forall i {:trigger i in s.pending} :: |s.threads| <= i < |s.workers| ==> i in s.pending)
    && (|s.threads| < |s.workers| ==>
         && s.queued == {}
         && forall i {:trigger i in s.pending} :: 0 <= i < |s.threads| && i in s.pending ==> s.lock == ByWorker(s.threads[i]))
  }

  /** Only pending workers have a queue, and a pending one is never asleep. */
  ghost predicate Pending(s: Barrier) {
    && (forall i {:trigger i in s.pending} :: i in s.pending ==> i < |s.workers|)
    && s.queued <= s.pending
    && (forall t {:trigger s.workers[t]} :: 0 <= t < |s.workers| ==>
         && (s.workers[t].Asleep? ==> s.workers[t].id !in s.pending)
         && (s.workers[t].Playing() ==> s.workers[t].id in s.queued)
         && (s.workers[t].Clearing? ==> s.workers[t].id !in s.queued))
    && (s.dispatcher == Waiting <==> s.pending != {})
  }

  function Count(trace: seq<nat>, w: nat, i: nat): nat
    requires i <= |trace|
  {
    if i == 0 then 0 else Count(trace, w, i - 1) + (if trace[i - 1] == w then 1 else 0)
  }

  /** Who was dealt voices has them queued or has added its mix, never both; who has played
      them all, and only who has, is on its way to add it. */
  ghost predicate Accounted(s: Barrier) {
    && Distinct(s.order)
    && |s.shares| == |s.left| == |s.workers|
    && (forall w {:trigger s.shares[w]} :: 0 <= w < |s.shares| ==> (s.shares[w] > 0 <==> w in s.queued || w in s.order))
    && (forall i {:trigger s.order[i]} :: 0 <= i < |s.order| ==> s.order[i] !in s.queued && s.order[i] < |s.workers| && s.left[s.order[i]] == 0)
    && (forall w {:trigger s.left[w]} :: 0 <= w < |s.left| ==>
         s.left[w] + Count(s.played, w, |s.played|) == s.shares[w])
    && (forall t {:trigger s.workers[t]} :: 0 <= t < |s.workers| && (s.workers[t].Rejoining? || s.workers[t].Adding?) ==>
         s.workers[t].id < |s.left| && s.left[s.workers[t].id] == 0)
  }

  ghost predicate Invariant(s: Barrier) {
    |s.workers| <= 16 && LockHeld(s) && Numbered(s) && StartingUp(s) && Pending(s) && Accounted(s)
  }

  lemma {:induction false} StartedAfter(ws: seq<Worker>, t: nat, w: Worker, i: nat)
    requires t < |ws| && i <= |ws| && !w.Starting?
    ensures Started(ws[t := w], i) == Started(ws, i) + (if t < i && ws[t].Starting? then 1 else 0)
  {
    if i > 0 { StartedAfter(ws, t, w, i - 1); }
  }

  lemma {:induction false} NoneStarting(ws: seq<Worker>, i: nat)
    requires i <= |ws|
    ensures Started(ws, i) == i <==> forall t {:trigger ws[t]} :: 0 <= t < i ==> !ws[t].Starting?
  {
    if i > 0 { NoneStarting(ws, i - 1); }
  }

  lemma {:induction false} InitHolds(n: nat)
    requires 0 < n <= 16
    ensures Invariant(Init(n))
  {
    NoneStarted(Init(n).workers, n);
    assert 0 in Init(n).pending;
  }

  lemma {:induction false} NoneStarted(ws: seq<Worker>, i: nat)
    requires i <= |ws| && forall t :: 0 <= t < |ws| ==> ws[t].Starting?
    ensures Started(ws, i) == 0
  {
    if i > 0 { NoneStarted(ws, i - 1); }
  }

  /** A new worker takes the next number: the only pending bits it can see are those nobody
      has taken. */
  lemma {:induction false} NextNumber(s: Barrier, t: nat)
    requires Invariant(s) && Enabled(s, Acquire(t)) && s.workers[t].Starting?
    ensures Lowest(s.pending, 0) == Started(s.workers, |s.workers|) < |s.workers|
  {
    NoneStarting(s.workers, |s.workers|);
    assert |s.threads| in s.pending;
  }

  lemma {:induction false} StartKeeps(s: Barrier, t: nat)
    requires Invariant(s) && Enabled(s, Acquire(t)) && s.workers[t].Starting?
    ensures Invariant(Acquired(s, t))
  {
    NextNumber(s, t);
    StartedAfter(s.workers, t, Acquired(s, t).workers[t], |s.workers|);
  }

  /** A worker that moves on keeps its number. */
  lemma {:induction false} MoveKeepsNumbers(s: Barrier, t: nat, w: Worker, s': Barrier)
    requires Numbered(s) && t < |s.workers| && !s.workers[t].Starting? && !w.Starting? && w.id == s.workers[t].id
    requires s'.workers == s.workers[t := w] && s'.threads == s.threads
    ensures Numbered(s')
  {
    StartedAfter(s.workers, t, w, |s.workers|);
  }

  lemma {:induction false} AcquireKeeps(s: Barrier, t: nat)
    requires Invariant(s) && Enabled(s, Acquire(t)) && !s.workers[t].Starting?
    ensures Invariant(Acquired(s, t))
  {
    MoveKeepsNumbers(s, t, Acquired(s, t).workers[t], Acquired(s, t));
  }

  lemma {:induction false} AtTopKeeps(s: Barrier, t: nat)
    requires Invariant(s) && Enabled(s, Advance(t)) && s.workers[t].AtTop?
    ensures Invariant(Advanced(s, t))
  {
    MoveKeepsNumbers(s, t, Advanced(s, t).workers[t], Advanced(s, t));
  }

  lemma {:induction false} ProcessingKeeps(s: Barrier, t: nat)
    requires Invariant(s) && Enabled(s, Advance(t)) && s.workers[t].Processing?
    ensures Invariant(Advanced(s, t))
  {
    MoveKeepsNumbers(s, t, Advanced(s, t).workers[t], Advanced(s, t));
  }

  lemma {:induction false} DistinctAfter(order: seq<nat>, x: nat)
    requires Distinct(order) && x !in order
    ensures Distinct(order + [x])
  {
  }

  lemma {:induction false} AddingAccounts(s: Barrier, t: nat)
    requires Invariant(s) && Enabled(s, Advance(t)) && s.workers[t].Adding?
    ensures Accounted(Advanced(s, t))
  {
    hide LockHeld;
    hide StartingUp;
    DistinctAfter(s.order, s.workers[t].id);
  }

  lemma {:induction false} AddingKeeps(s: Barrier, t: nat)
    requires Invariant(s) && Enabled(s, Advance(t)) && s.workers[t].Adding?
    ensures Invariant(Advanced(s, t))
  {
    hide Accounted;
    AddingAccounts(s, t);
    MoveKeepsNumbers(s, t, Advanced(s, t).workers[t], Advanced(s, t));
  }

  lemma {:induction false} ClearingKeeps(s: Barrier, t: nat)
    requires Invariant(s) && Enabled(s, Advance(t)) && s.workers[t].Clearing?
    ensures Invariant(Advanced(s, t))
  {
    MoveKeepsNumbers(s, t, Advanced(s, t).workers[t], Advanced(s, t));
  }

  lemma {:induction false} CountPrefix(trace: seq<nat>, x: nat, w: nat, i: nat)
    requires i <= |trace|
    ensures Count(trace + [x], w, i) == Count(trace, w, i)
  {
    if i > 0 { CountPrefix(trace, x, w, i - 1); }
  }

  lemma {:induction false} PlayKeeps(s: Barrier, t: nat)
    requires Invariant(s) && Enabled(s, Play(t))
    ensures Invariant(Step(s, Play(t)))
  {
    forall w | 0 <= w < |s.left| ensures Count(s.played + [s.workers[t].id], w, |s.played|) == Count(s.played, w, |s.played|) {
      CountPrefix(s.played, s.workers[t].id, w, |s.played|);
    }
  }

  lemma {:induction false} WakeKeeps(s: Barrier, t: nat)
    requires Invariant(s) && Enabled(s, SpuriousWake(t))
    ensures Invariant(Step(s, SpuriousWake(t)))
  {
    MoveKeepsNumbers(s, t, Wake(s.workers[t]), Step(s, SpuriousWake(t)));
  }

  lemma {:induction false} StartedAwake(ws: seq<Worker>, i: nat)
    requires i <= |ws|
    ensures Started(WakeAll(ws), i) == Started(ws, i)
  {
    if i > 0 { StartedAwake(ws, i - 1); }
  }

  lemma {:induction false} DispatchKeeps(s: Barrier, dealt: seq<nat>)
    requires Invariant(s) && Enabled(s, Dispatch(dealt))
    ensures Invariant(Step(s, Dispatch(dealt)))
  {
    var w :| 0 <= w < |dealt| && dealt[w] > 0;
    assert w in Step(s, Dispatch(dealt)).pending;
    assert |s.threads| < |s.workers| ==> |s.threads| in s.pending;
    StartedAwake(s.workers, |s.workers|);
    NoneStarting(s.workers, |s.workers|);
  }

  lemma {:induction false} DispatcherKeeps(s: Barrier, e: Event)
    requires Invariant(s) && Enabled(s, e) && (e == Return || e == Leave)
    ensures Invariant(Step(s, e))
  {
  }

  lemma {:induction false} StepKeeps(s: Barrier, e: Event)
    requires Invariant(s) && Enabled(s, e)
    ensures Invariant(Step(s, e))
  {
    match e
    case Acquire(t) => if s.workers[t].Starting? { StartKeeps(s, t); } else { AcquireKeeps(s, t); }
    case Advance(t) =>
      match s.workers[t] {
        case AtTop(_) => AtTopKeeps(s, t);
        case Processing(_) => ProcessingKeeps(s, t);
        case Adding(_) => AddingKeeps(s, t);
        case _ => ClearingKeeps(s, t);
      }
    case Play(t) => PlayKeeps(s, t);
    case SpuriousWake(t) => WakeKeeps(s, t);
    case Dispatch(dealt) => DispatchKeeps(s, dealt);
    case _ => DispatcherKeeps(s, e);
  }

  // ---- Whole runs ----

  /** The state after the first `i` events, if each was enabled in its turn. */
  ghost function After(s: Barrier, events: seq<Event>, i: nat): Option<Barrier>
    requires i <= |events|
  {
    if i == 0 then Some(s)
    else
      match After(s, events, i - 1)
      case None => None
      case Some(before) => if Enabled(before, events[i - 1]) then Some(Step(before, events[i - 1])) else None
  }

  ghost predicate Reaches(s: Barrier, events: seq<Event>, s': Barrier) {
    After(s, events, |events|) == Some(s')
  }

  lemma {:induction false} RunKeeps(s: Barrier, events: seq<Event>, i: nat)
    requires Invariant(s) && i <= |events| && After(s, events, i).Some?
    ensures Invariant(After(s, events, i).value)
  {
    if i > 0 {
      RunKeeps(s, events, i - 1);
      StepKeeps(After(s, events, i - 1).value, events[i - 1]);
    }
  }

  lemma {:induction false} ReachableKeeps(n: nat, events: seq<Event>, s: Barrier)
    requires 0 < n <= 16 && Reaches(Init(n), events, s)
    ensures Invariant(s)
  {
    InitHolds(n);
    RunKeeps(Init(n), events, |events|);
  }

  lemma {:induction false} RunKeepsWorkers(s: Barrier, events: seq<Event>, i: nat)
    requires i <= |events| && After(s, events, i).Some?
    ensures |After(s, events, i).value.workers| == |s.workers|
  {
    if i > 0 { RunKeepsWorkers(s, events, i - 1); }
  }

  /** No two workers get the same number, every number is in range, and once the start-up
      wait has returned every worker has one. */
  lemma {:induction false} NumbersAreDistinct(n: nat, events: seq<Event>, s: Barrier, t: nat, u: nat)
    requires 0 < n <= 16 && Reaches(Init(n), events, s) && t < u < n
    ensures |s.workers| == n
    ensures !s.workers[t].Starting? && !s.workers[u].Starting? ==>
      s.workers[t].id < n && s.workers[u].id < n && s.workers[t].id != s.workers[u].id
    ensures s.dispatcher != Waiting ==> !s.workers[t].Starting? && !s.workers[u].Starting?
  {
    ReachableKeeps(n, events, s);
    RunKeepsWorkers(Init(n), events, |events|);
    NoneStarting(s.workers, n);
    assert |s.threads| < n ==> |s.threads| in s.pending;
  }

  /** When the dispatcher's wait returns, in any reachable state: nothing is pending or
      queued, every voice dealt has been played, and each worker that was dealt voices has
      added its mix exactly once, and no other has. */
  lemma {:induction false} ReturnsWhenDone(n: nat, events: seq<Event>, s: Barrier)
    requires 0 < n <= 16 && Reaches(Init(n), events, s)
    requires s.dispatcher == Returned
    ensures s.pending == {} && s.queued == {}
    ensures |s.workers| == |s.shares| == |s.left| == n
    ensures Distinct(s.order)
    ensures forall w {:trigger s.shares[w]} :: 0 <= w < n ==> (w in s.order <==> s.shares[w] > 0)
    ensures forall i :: 0 <= i < |s.order| ==> s.order[i] < n
    ensures forall w {:trigger s.left[w]} :: 0 <= w < n ==>
      s.left[w] == 0 && Count(s.played, w, |s.played|) == s.shares[w]
  {
    ReachableKeeps(n, events, s);
    RunKeepsWorkers(Init(n), events, |events|);
    forall w {:trigger s.left[w]} | 0 <= w < n
      ensures s.left[w] == 0 && Count(s.played, w, |s.played|) == s.shares[w]
    {
      assert s.left[w] + Count(s.played, w, |s.played|) == s.shares[w];
      if s.shares[w] > 0 {
        assert w in s.order;
        var i :| 0 <= i < |s.order| && s.order[i] == w;
        assert s.left[s.order[i]] == 0;
      }
    }
  }

  // ---- No wake-up is lost ----

  /** What a worker does by itself. */
  predicate IsWork(e: Event) {
    e.Acquire? || e.Advance? || e.Play?
  }

  /** While the dispatcher waits, some worker can move; once it has been signalled it can come
      back itself, or the worker that has the mutex can move. */
  lemma {:induction false} SomeoneCanMove(n: nat, events: seq<Event>, s: Barrier) returns (e: Event)
    requires 0 < n <= 16 && Reaches(Init(n), events, s)
    requires s.dispatcher == Waiting || s.dispatcher == Signalled
    ensures Enabled(s, e) && (IsWork(e) || e == Return)
    ensures s.dispatcher == Signalled ==>
      (s.lock == Free && e == Return) || (s.lock.ByWorker? && e == Advance(s.lock.thread))
  {
    ReachableKeeps(n, events, s);
    NoneStarting(s.workers, |s.workers|);
    if s.lock.ByWorker? {
      return Advance(s.lock.thread);
    }
    if s.dispatcher == Signalled {
      return Return;
    }
    var p :| p in s.pending;
    if p < |s.threads| {
      var t := s.threads[p];
      e := if s.workers[t].Wanting() then Acquire(t) else if s.left[p] > 0 then Play(t) else Advance(t);
    } else {
      var t :| 0 <= t < |s.workers| && s.workers[t].Starting?;
      e := Acquire(t);
    }
  }

  /** How many steps a worker can take before it sleeps, playing apart. */
  function Weight(w: Worker): nat {
    match w
    case Starting => 6
    case Waking(_) => 6
    case AtTop(_) => 5
    case Processing(_) => 4
    case Rejoining(_) => 3
    case Adding(_) => 2
    case Clearing(_) => 1
    case Asleep(_) => 0
  }

  function Weights(ws: seq<Worker>, i: nat): (r: nat)
    requires i <= |ws|
    ensures r <= 6 * i
  {
    if i == 0 then 0 else Weights(ws, i - 1) + Weight(ws[i - 1])
  }

  function Sum(xs: seq<nat>, i: nat): nat
    requires i <= |xs|
  {
    if i == 0 then 0 else Sum(xs, i - 1) + xs[i - 1]
  }

  /** A bound on the steps left in this frame. */
  function Rank(s: Barrier): nat {
    Weights(s.workers, |s.workers|) + Sum(s.left, |s.left|)
  }

  lemma {:induction false} WeightsAfter(ws: seq<Worker>, t: nat, w: Worker, i: nat)
    requires t < |ws| && i <= |ws|
    ensures Weights(ws[t := w], i) == Weights(ws, i) + (if t < i then Weight(w) - Weight(ws[t]) else 0)
  {
    if i > 0 { WeightsAfter(ws, t, w, i - 1); }
  }

  lemma {:induction false} SumAfter(xs: seq<nat>, w: nat, x: nat, i: nat)
    requires w < |xs| && i <= |xs|
    ensures Sum(xs[w := x], i) == Sum(xs, i) + (if w < i then x - xs[w] else 0)
  {
    if i > 0 { SumAfter(xs, w, x, i - 1); }
  }

  /** Each step a worker takes uses up some of the bound; a spurious wake-up adds six. */
  lemma {:induction false} WorkUsesRank(s: Barrier, e: Event)
    requires Enabled(s, e) && (IsWork(e) || e.SpuriousWake?)
    ensures Rank(Step(s, e)) <= Rank(s) + (if IsWork(e) then -1 else 6)
  {
    var s' := Step(s, e);
    match e
    case Play(t) => SumAfter(s.left, s.workers[t].id, s.left[s.workers[t].id] - 1, |s.left|);
    case Acquire(t) => WeightsAfter(s.workers, t, s'.workers[t], |s.workers|);
    case Advance(t) => WeightsAfter(s.workers, t, s'.workers[t], |s.workers|);
    case SpuriousWake(t) => WeightsAfter(s.workers, t, s'.workers[t], |s.workers|);
  }

  /** The worker steps and the spurious wake-ups among the first `i` events. */
  function Work(events: seq<Event>, i: nat): nat
    requires i <= |events|
  {
    if i == 0 then 0 else Work(events, i - 1) + (if IsWork(events[i - 1]) then 1 else 0)
  }

  function Wakes(events: seq<Event>, i: nat): nat
    requires i <= |events|
  {
    if i == 0 then 0 else Wakes(events, i - 1) + (if events[i - 1].SpuriousWake? then 1 else 0)
  }

  /** From any state, as long as the dispatcher is kept waiting, the workers can take only
      so many steps; and `SomeoneCanMove` says they are never stuck before that. */
  lemma {:induction false} WaitIsBounded(s: Barrier, events: seq<Event>, i: nat)
    requires i <= |events| && After(s, events, i).Some?
    requires forall j :: 0 <= j < i ==> After(s, events, j).Some? && After(s, events, j).value.dispatcher == Waiting
    ensures Rank(After(s, events, i).value) + Work(events, i) <= Rank(s) + 6 * Wakes(events, i)
  {
    if i > 0 {
      WaitIsBounded(s, events, i - 1);
      var before := After(s, events, i - 1).value;
      assert Enabled(before, events[i - 1]);
      WorkUsesRank(before, events[i - 1]);
    }
  }

  /** So a dispatch wakes its dispatcher within six steps a worker, one step a voice, and six
      for each spurious wake-up. */
  lemma {:induction false} DispatchIsBounded(s: Barrier, dealt: seq<nat>, events: seq<Event>, i: nat)
    requires Enabled(s, Dispatch(dealt)) && i <= |events|
    requires var s' := Step(s, Dispatch(dealt));
      forall j :: 0 <= j <= i ==> After(s', events, j).Some? && After(s', events, j).value.dispatcher == Waiting
    ensures Work(events, i) <= 6 * |s.workers| + Sum(dealt, |dealt|) + 6 * Wakes(events, i)
  {
    WaitIsBounded(Step(s, Dispatch(dealt)), events, i);
  }

  lemma {:induction false} AfterPrefix(s: Barrier, events: seq<Event>, e: Event, i: nat)
    requires i <= |events|
    ensures After(s, events + [e], i) == After(s, events, i)
  {
    if i > 0 {
      AfterPrefix(s, events, e, i - 1);
      assert (events + [e])[i - 1] == events[i - 1];
    }
  }

  /** One enabled event more. */
  lemma {:induction false} ReachesNext(s: Barrier, events: seq<Event>, s': Barrier, e: Event)
    requires Reaches(s, events, s') && Enabled(s', e)
    ensures Reaches(s, events + [e], Step(s', e))
  {
    AfterPrefix(s, events, e, |events|);
  }

  /** Every wait can come to its end: from any reachable state in which the dispatcher waits, or
      has been signalled, there are steps that bring it back, with what it dealt. */
  lemma {:induction false} WaitCanEnd(n: nat, events: seq<Event>, s: Barrier) returns (all: seq<Event>, end: Barrier)
    requires 0 < n <= 16 && Reaches(Init(n), events, s)
    requires s.dispatcher == Waiting || s.dispatcher == Signalled
    ensures events <= all && Reaches(Init(n), all, end)
    ensures end.dispatcher == Returned && end.shares == s.shares
    decreases Rank(s)
  {
    var e := SomeoneCanMove(n, events, s);
    var next := Step(s, e);
    ReachesNext(Init(n), events, s, e);
    if e == Return {
      return events + [e], next;
    }
    WorkUsesRank(s, e);
    hide Rank, Reaches, Enabled;
    all, end := WaitCanEnd(n, events + [e], next);
    assert events <= events + [e] <= all;
  }
}
