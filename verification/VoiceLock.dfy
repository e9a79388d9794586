/** The per-voice lock bits: guest threads set and clear them under the device mutex around
    the bodies of VOICE_ON and VOICE_RELEASE, and the frame thread looks at them, under the
    same mutex, before it lets the workers play. Each event is one atomic step of a thread. */
module VoiceLock {
  import opened Common
  import opened Mcpx

  datatype Mutex = Free | ByGuest(guest: nat) | ByFrame

  /** A guest thread: between methods, asking for the mutex to write the bit of `v`, holding
      it for that, or in the body of VOICE_ON or VOICE_RELEASE. `edits` says that the body
      follows the write; `before` is the set of locked voices when its method began. */
  datatype Guest =
    | Outside
    | Wanting(v: Handle, lock: bool, edits: bool, before: set<Handle>)
    | Holding(v: Handle, lock: bool, edits: bool, before: set<Handle>)
    | Editing(v: Handle, wasLocked: bool, before: set<Handle>)

  /** The frame thread: without the mutex, walking the voice lists, deciding whether to go on
      with the frame, checking the queue's lock bits one by one, asleep for a moment because
      one was set, with the workers at play, or past the dispatch. It holds the mutex in all
      but `Away` and `Waiting`. */
  datatype Frame =
    | Away
    | Collecting(queue: seq<Handle>)
    | Deciding(queue: seq<Handle>)
    | Checking(queue: seq<Handle>, next: nat)
    | Waiting(queue: seq<Handle>)
    | Dispatched(queue: seq<Handle>)
    | Resting
  {
    predicate HasMutex() { !Away? && !Waiting? }
  }

  datatype Apu = Apu(mutex: Mutex, locked: set<Handle>, guests: seq<Guest>, frame: Frame, playing: set<Handle>)

  datatype Event =
    | BeginVoiceOn(g: nat, v: Handle)
    | BeginVoiceLock(g: nat, v: Handle, lock: bool)
    | TakeMutex(g: nat)
    | WriteBit(g: nat)
    | EndBody(g: nat)
    | FrameTakes
    | Collect(v: Handle)
    | EndWalk
    | Decide(pauseRequested: bool)
    | Check
    | WorkerBegins(v: Handle)
    | WorkerEnds(v: Handle)
    | WorkersFinished
    | FrameLeaves
    | NextFrame
  {
    predicate OfGuest() { BeginVoiceOn? || BeginVoiceLock? || TakeMutex? || WriteBit? || EndBody? }
  }

  ghost function Init(guests: nat): Apu {
    Apu(Free, {}, seq(guests, g => Outside), Away, {})
  }

  predicate Enabled(s: Apu, e: Event) {
    match e
    case BeginVoiceOn(g, v) => g < |s.guests| && s.guests[g].Outside?
    case BeginVoiceLock(g, v, lock) => g < |s.guests| && s.guests[g].Outside?
    case TakeMutex(g) => g < |s.guests| && s.guests[g].Wanting? && s.mutex == Free
    case WriteBit(g) => g < |s.guests| && s.guests[g].Holding?
    case EndBody(g) => g < |s.guests| && s.guests[g].Editing?
    case FrameTakes => !s.frame.HasMutex() && s.mutex == Free
    case Collect(v) => s.frame.Collecting?
    case EndWalk => s.frame.Collecting?
    case Decide(_) => s.frame.Deciding?
    case Check => s.frame.Checking? && s.frame.next <= |s.frame.queue|
    case WorkerBegins(v) => s.frame.Dispatched? && v in s.frame.queue
    case WorkerEnds(v) => v in s.playing
    case WorkersFinished => s.frame.Dispatched? && s.playing == {}
    case FrameLeaves => s.frame.Resting?
    case NextFrame => s.frame.Resting?
  }

  function WithBit(locked: set<Handle>, v: Handle, lock: bool): set<Handle> {
    if lock then locked + {v} else locked - {v}
  }

  /** A guest's step. VOICE_ON reads the bit without the mutex; if it is set already, the
      body runs at once and the bit stays set after it. */
  function GuestStep(s: Apu, e: Event): Apu
    requires Enabled(s, e) && e.OfGuest()
  {
    var me := s.guests[e.g];
    match e
    case BeginVoiceOn(g, v) =>
      s.(guests := s.guests[g :=
        if v in s.locked then Editing(v, true, s.locked) else Wanting(v, true, true, s.locked)])
    case BeginVoiceLock(g, v, lock) => s.(guests := s.guests[g := Wanting(v, lock, false, s.locked)])
    case TakeMutex(g) =>
      s.(mutex := ByGuest(g), guests := s.guests[g := Holding(me.v, me.lock, me.edits, me.before)])
    case WriteBit(g) =>
      s.(mutex := Free, locked := WithBit(s.locked, me.v, me.lock),
         guests := s.guests[g := if me.edits then Editing(me.v, false, me.before) else Outside])
    case EndBody(g) =>
      s.(guests := s.guests[g := if me.wasLocked then Outside else Wanting(me.v, false, false, me.before)])
  }

  function FrameStep(s: Apu, e: Event): Apu
    requires Enabled(s, e) && !e.OfGuest()
  {
    match e
    case FrameTakes =>
      s.(mutex := ByFrame, frame := if s.frame.Away? then Resting else Deciding(s.frame.queue))
    case Collect(v) => s.(frame := Collecting(s.frame.queue + [v]))
    case EndWalk => s.(frame := Deciding(s.frame.queue))
    case Decide(pause) => s.(frame := if pause then Resting else Checking(s.frame.queue, 0))
    case Check =>
      var q, k := s.frame.queue, s.frame.next;
      if k == |q| then s.(frame := Dispatched(q))
      else if q[k] in s.locked then s.(frame := Waiting(q), mutex := Free)
      else s.(frame := Checking(q, k + 1))
    case WorkerBegins(v) => s.(playing := s.playing + {v})
    case WorkerEnds(v) => s.(playing := s.playing - {v})
    case WorkersFinished => s.(frame := Resting)
    case FrameLeaves => s.(frame := Away, mutex := Free)
    case NextFrame => s.(frame := Collecting([]))
    case _ => s
  }

  function Step(s: Apu, e: Event): Apu
    requires Enabled(s, e)
  {
    if e.OfGuest() then GuestStep(s, e)
    else FrameStep(s, e)
  }

  /** No voice that has been checked, and none that may be playing, is locked. */
  predicate FrameSafe(s: Apu) {
    && (s.frame.HasMutex() <==> s.mutex == ByFrame)
    && (s.frame.Checking? ==> s.frame.next <= |s.frame.queue|)
    && (s.frame.Checking? ==> forall i {:trigger s.frame.queue[i]} :: 0 <= i < s.frame.next ==> s.frame.queue[i] !in s.locked)
    && (s.frame.Dispatched? ==> forall v {:trigger v in s.frame.queue} :: v in s.frame.queue ==> v !in s.locked)
    && (forall v {:trigger v in s.playing} :: v in s.playing ==> s.frame.Dispatched? && v in s.frame.queue)
  }

  /** The guest that holds the mutex is the one about to write a bit. */
  predicate MutexHeld(s: Apu) {
    && (s.mutex.ByGuest? ==> s.mutex.guest < |s.guests|)
    && forall g {:trigger s.guests[g]} :: 0 <= g < |s.guests| ==> (s.mutex == ByGuest(g) <==> s.guests[g].Holding?)
  }

  /** No two guests are in a method on the same voice. */
  predicate Apart(s: Apu) {
    forall g, h {:trigger s.guests[g], s.guests[h]} ::
      0 <= g < |s.guests| && 0 <= h < |s.guests| && g != h && !s.guests[g].Outside? && !s.guests[h].Outside? ==>
        s.guests[g].v != s.guests[h].v
  }

  /** Where a guest stands in its method, and what it has done to the bit of its voice so far. */
  predicate GuestSafe(s: Apu, me: Guest) {
    match me
    case Outside => true
    case Wanting(v, lock, edits, before) =>
      (edits ==> lock && v !in before) && ((v in s.locked <==> v in before) || (!lock && v !in before))
    case Holding(v, lock, edits, before) =>
      (edits ==> lock && v !in before) && ((v in s.locked <==> v in before) || (!lock && v !in before))
    case Editing(v, wasLocked, before) => (wasLocked <==> v in before) && v in s.locked
  }

  predicate GuestsSafe(s: Apu) {
    forall g {:trigger s.guests[g]} :: 0 <= g < |s.guests| ==> GuestSafe(s, s.guests[g])
  }

  /** A lone guest changes no other bit. */
  predicate LoneSafe(s: Apu) {
    |s.guests| == 1 ==>
      match s.guests[0]
      case Outside => true
      case Wanting(v, lock, _, before) => s.locked == before || (!lock && v !in before && s.locked == before + {v})
      case Holding(v, lock, _, before) => s.locked == before || (!lock && v !in before && s.locked == before + {v})
      case Editing(v, _, before) => s.locked == before + {v}
  }

  predicate Invariant(s: Apu) {
    FrameSafe(s) && MutexHeld(s)
  }

  lemma {:induction false} StepKeeps(s: Apu, e: Event)
    requires Invariant(s) && Enabled(s, e)
    ensures Invariant(Step(s, e)) && |Step(s, e).guests| == |s.guests|
  {
    if e.OfGuest() {
      GuestStepKeeps(s, e);
    } else {
      FrameStepKeeps(s, e);
    }
  }

  lemma {:induction false} GuestStepKeeps(s: Apu, e: Event)
    requires Invariant(s) && Enabled(s, e)
    requires e.OfGuest()
    ensures Invariant(GuestStep(s, e))
  {
  }

  lemma {:induction false} FrameStepKeeps(s: Apu, e: Event)
    requires Invariant(s) && Enabled(s, e)
    requires !e.OfGuest()
    ensures Invariant(FrameStep(s, e))
  {
  }

  /** While the guests are on different voices, none of them undoes what another has set. */
  lemma {:induction false} StepKeepsGuests(s: Apu, e: Event)
    requires Invariant(s) && Apart(s) && GuestsSafe(s) && LoneSafe(s) && Enabled(s, e)
    ensures GuestsSafe(Step(s, e)) && LoneSafe(Step(s, e))
  {
    hide FrameSafe;
  }

  /** The state after the first `i` events, if each was enabled in its turn. */
  function After(s: Apu, events: seq<Event>, i: nat): Option<Apu>
    requires i <= |events|
  {
    if i == 0 then Some(s)
    else
      match After(s, events, i - 1)
      case None => None
      case Some(before) => if Enabled(before, events[i - 1]) then Some(Step(before, events[i - 1])) else None
  }

  lemma {:induction false} RunKeeps(n: nat, events: seq<Event>, i: nat)
    requires i <= |events| && After(Init(n), events, i).Some?
    ensures var s := After(Init(n), events, i).value; Invariant(s) && |s.guests| == n
  {
    if i > 0 {
      RunKeeps(n, events, i - 1);
      StepKeeps(After(Init(n), events, i - 1).value, events[i - 1]);
    }
  }

  /** At every moment up to `i` the guests are on different voices. */
  ghost predicate ApartUpTo(n: nat, events: seq<Event>, i: nat)
    requires i <= |events|
  {
    forall j {:trigger After(Init(n), events, j)} :: 0 <= j <= i && After(Init(n), events, j).Some? ==>
      Apart(After(Init(n), events, j).value)
  }

  lemma {:induction false} RunKeepsGuests(n: nat, events: seq<Event>, i: nat)
    requires i <= |events| && After(Init(n), events, i).Some?
    requires i > 0 ==> ApartUpTo(n, events, i - 1)
    ensures GuestsSafe(After(Init(n), events, i).value) && LoneSafe(After(Init(n), events, i).value)
  {
    if i > 0 {
      RunKeepsGuests(n, events, i - 1);
      RunKeeps(n, events, i - 1);
      StepKeepsGuests(After(Init(n), events, i - 1).value, events[i - 1]);
    }
  }

  lemma {:induction false} LoneIsApart(n: nat, events: seq<Event>, i: nat)
    requires n <= 1 && i <= |events|
    ensures ApartUpTo(n, events, i)
  {
    forall j {:trigger After(Init(n), events, j)} | 0 <= j <= i && After(Init(n), events, j).Some?
      ensures Apart(After(Init(n), events, j).value)
    {
      RunKeeps(n, events, j);
    }
  }

  /** No worker plays a locked voice. */
  predicate LocksHold(s: Apu) {
    s.playing !! s.locked
  }

  /** And none plays a voice whose VOICE_ON or VOICE_RELEASE body is running. */
  predicate BodiesHold(s: Apu) {
    forall g {:trigger s.guests[g]} :: 0 <= g < |s.guests| && s.guests[g].Editing? ==> s.guests[g].v !in s.playing
  }

  /** With any number of guest threads, at every moment of every run: no worker plays a locked
      voice, and as long as no two guests have been in a method on the same voice at once, none
      plays a voice whose VOICE_ON or VOICE_RELEASE body is running. */
  lemma {:induction false} LockedVoiceIsNotPlayed(n: nat, events: seq<Event>, i: nat)
    requires i <= |events| && After(Init(n), events, i).Some?
    ensures LocksHold(After(Init(n), events, i).value)
    ensures ApartUpTo(n, events, i) ==> BodiesHold(After(Init(n), events, i).value)
  {
    RunKeeps(n, events, i);
    if ApartUpTo(n, events, i) { RunKeepsGuests(n, events, i); }
  }

  /** And a VOICE_ON or VOICE_RELEASE then leaves the bit of its voice as it found it: with the
      bit set before, at the end of its body, and otherwise when it has cleared its own bit
      again. A lone guest leaves every bit so. */
  lemma {:induction false} VoiceOnRestoresLocks(n: nat, events: seq<Event>, i: nat, g: nat)
    requires i < |events| && After(Init(n), events, i + 1).Some? && ApartUpTo(n, events, i) && g < n
    requires events[i] == EndBody(g) || events[i] == WriteBit(g)
    ensures After(Init(n), events, i).Some? && |After(Init(n), events, i).value.guests| == n
    ensures |After(Init(n), events, i + 1).value.guests| == n
    ensures var s, s' := After(Init(n), events, i).value, After(Init(n), events, i + 1).value;
      var me := s.guests[g];
      && (if events[i].EndBody? then me.Editing? else me.Holding?)
      && ((if events[i].EndBody? then me.wasLocked else !me.lock && me.v !in me.before) ==>
           s'.guests[g].Outside? && (me.v in s'.locked <==> me.v in me.before) && (n == 1 ==> s'.locked == me.before))
  {
    RunKeeps(n, events, i);
    RunKeepsGuests(n, events, i);
    assert After(Init(n), events, i + 1) == Some(Step(After(Init(n), events, i).value, events[i]));
    RunKeeps(n, events, i + 1);
  }

  // ---- Two guests on one voice ----

  predicate At(o: Option<Apu>, n: nat, mutex: Mutex, locked: set<Handle>, one: Guest, two: Guest) {
    && o.Some? && |o.value.guests| == n >= 2
    && o.value.mutex == mutex && o.value.locked == locked && o.value.guests[0] == one && o.value.guests[1] == two
  }

  /** One enabled event more. */
  lemma {:induction false} NextEvent(s: Apu, events: seq<Event>, i: nat)
    requires i < |events| && After(s, events, i).Some? && Enabled(After(s, events, i).value, events[i])
    ensures After(s, events, i + 1) == Some(Step(After(s, events, i).value, events[i]))
  {
  }

  lemma {:induction false} SecondGuestMisled(n: nat, events: seq<Event>, v: Handle)
    requires n >= 2 && |events| >= 7
    requires events[0] == BeginVoiceOn(0, v) && events[1] == TakeMutex(0) && events[2] == WriteBit(0)
    requires events[3] == BeginVoiceOn(1, v) && events[4] == EndBody(0) && events[5] == TakeMutex(0) && events[6] == WriteBit(0)
    ensures At(After(Init(n), events, 7), n, Free, {}, Outside, Editing(v, true, {v}))
    ensures After(Init(n), events, 7).value.frame == Away && After(Init(n), events, 7).value.playing == {}
  {
    var s := Init(n);
    NextEvent(s, events, 0);
    NextEvent(s, events, 1);
    NextEvent(s, events, 2);
    NextEvent(s, events, 3);
    NextEvent(s, events, 4);
    NextEvent(s, events, 5);
    NextEvent(s, events, 6);
  }

  lemma {:induction false} FramePlaysIt(s: Apu, n: nat, events: seq<Event>, v: Handle, two: Guest)
    requires |events| == 15 && At(After(s, events, 7), n, Free, {}, Outside, two)
    requires After(s, events, 7).value.frame == Away && After(s, events, 7).value.playing == {}
    requires events[7] == FrameTakes && events[8] == NextFrame && events[9] == Collect(v) && events[10] == EndWalk
    requires events[11] == Decide(false) && events[12] == Check && events[13] == Check && events[14] == WorkerBegins(v)
    ensures var end := After(s, events, |events|);
      end.Some? && |end.value.guests| == n && end.value.guests[1] == two && v in end.value.playing
  {
    NextEvent(s, events, 7);
    NextEvent(s, events, 8);
    NextEvent(s, events, 9);
    NextEvent(s, events, 10);
    NextEvent(s, events, 11);
    NextEvent(s, events, 12);
    NextEvent(s, events, 13);
    NextEvent(s, events, 14);
  }

  /** From two guest threads on there are too many: one finds the bit another has set, takes it
      for the guest's own lock, and is still in its body when the other clears it. */
  lemma {:induction false} TwoGuestsOverlap(n: nat, v: Handle, events: seq<Event>)
    requires n >= 2
    requires events == [
      BeginVoiceOn(0, v), TakeMutex(0), WriteBit(0), BeginVoiceOn(1, v), EndBody(0), TakeMutex(0), WriteBit(0),
      FrameTakes, NextFrame, Collect(v), EndWalk, Decide(false), Check, Check, WorkerBegins(v)]
    ensures var s := After(Init(n), events, |events|);
      s.Some? && |s.value.guests| == n && s.value.guests[1].Editing? && s.value.guests[1].v == v && v in s.value.playing
  {
    SecondGuestMisled(n, events, v);
    FramePlaysIt(Init(n), n, events, v, Editing(v, true, {v}));
  }

  /** Every run keeps the workers off locked and edited voices. */
  ghost predicate AlwaysSafe(n: nat) {
    forall events: seq<Event>, i: nat {:trigger After(Init(n), events, i)} ::
      i <= |events| && After(Init(n), events, i).Some? ==>
        LocksHold(After(Init(n), events, i).value) && BodiesHold(After(Init(n), events, i).value)
  }

  /** That holds exactly for one guest thread at most. */
  lemma {:induction false} SafeIffOneGuest(n: nat)
    ensures AlwaysSafe(n) <==> n <= 1
  {
    if n <= 1 {
      forall events: seq<Event>, i: nat {:trigger After(Init(n), events, i)} |
        i <= |events| && After(Init(n), events, i).Some?
        ensures LocksHold(After(Init(n), events, i).value) && BodiesHold(After(Init(n), events, i).value)
      {
        LoneIsApart(n, events, i);
        LockedVoiceIsNotPlayed(n, events, i);
      }
    } else {
      OverlapIsUnsafe(n, [
        BeginVoiceOn(0, 0), TakeMutex(0), WriteBit(0), BeginVoiceOn(1, 0), EndBody(0), TakeMutex(0), WriteBit(0),
        FrameTakes, NextFrame, Collect(0), EndWalk, Decide(false), Check, Check, WorkerBegins(0)]);
    }
  }

  lemma {:induction false} OverlapIsUnsafe(n: nat, events: seq<Event>)
    requires n >= 2
    requires events == [
      BeginVoiceOn(0, 0), TakeMutex(0), WriteBit(0), BeginVoiceOn(1, 0), EndBody(0), TakeMutex(0), WriteBit(0),
      FrameTakes, NextFrame, Collect(0), EndWalk, Decide(false), Check, Check, WorkerBegins(0)]
    ensures !AlwaysSafe(n)
  {
    TwoGuestsOverlap(n, 0, events);
    hide After, Init;
    assert !BodiesHold(After(Init(n), events, |events|).value);
  }
}
