/** The table of shader sources already written out, shared by every thread that compiles: each
    call probes it with compare-and-swap and says whether its hash is there for the first time. */
module SeenSet {
  import opened Common

  const SLOTS: nat := 4096

  // ---- Probing ----

  /** The slot of a hash at the i-th probe. */
  function SlotAt(hash: nat, i: nat): (slot: nat)
    ensures slot < SLOTS
  {
    (hash % SLOTS + i) % SLOTS
  }

  /** The probe at which a hash comes to a slot. */
  function ProbeOf(hash: nat, slot: nat): (i: nat)
    requires slot < SLOTS
    ensures i < SLOTS && SlotAt(hash, i) == slot
  {
    (slot + SLOTS - hash % SLOTS) % SLOTS
  }

  lemma {:induction false} NextSlot(hash: nat, i: nat)
    ensures (SlotAt(hash, i) + 1) % SLOTS == SlotAt(hash, i + 1)
  {
  }

  /** The first probes of a hash found other hashes, and no empty slot. */
  ghost predicate Passed(slots: seq<nat>, hash: nat, n: nat)
    requires |slots| == SLOTS
  {
    forall i {:trigger SlotAt(hash, i)} :: 0 <= i < n ==> slots[SlotAt(hash, i)] != 0 && slots[SlotAt(hash, i)] != hash
  }

  /** Every hash in the table is reachable from its home slot: nothing before it is empty, and
      it is not there twice. */
  ghost predicate Reachable(slots: seq<nat>) {
    |slots| == SLOTS
    && forall q {:trigger slots[q]} :: 0 <= q < SLOTS && slots[q] != 0 ==>
         Passed(slots, slots[q], ProbeOf(slots[q], q))
  }

  /** No hash is in the table twice. */
  lemma {:induction false} StoredOnce(slots: seq<nat>, p: nat, q: nat)
    requires Reachable(slots) && p < SLOTS && q < SLOTS && slots[p] == slots[q] != 0
    ensures p == q
  {
    var hash := slots[p];
    var i, j := ProbeOf(hash, p), ProbeOf(hash, q);
    hide ProbeOf, SlotAt;
  }

  /** A hash whose probes so far found neither it nor an empty slot, and that now finds an empty
      one, is nowhere in the table. */
  lemma {:induction false} EmptySlotMeansAbsent(slots: seq<nat>, hash: nat, i: nat, q: nat)
    requires Reachable(slots) && hash != 0 && i < SLOTS && q < SLOTS
    requires Passed(slots, hash, i) && slots[SlotAt(hash, i)] == 0
    ensures slots[q] != hash
  {
    var k := ProbeOf(hash, q);
    hide ProbeOf, SlotAt;
  }

  /** A hash that passed every slot is in a full table. */
  lemma {:induction false} PassedAllMeansFull(slots: seq<nat>, hash: nat)
    requires |slots| == SLOTS && Passed(slots, hash, SLOTS)
    ensures 0 !in slots && hash !in slots
  {
    forall q | 0 <= q < SLOTS ensures slots[q] != 0 && slots[q] != hash {
      assert slots[SlotAt(hash, ProbeOf(hash, q))] == slots[q];
    }
  }

  lemma {:induction false} InsertKeepsReachable(slots: seq<nat>, hash: nat, i: nat)
    requires Reachable(slots) && hash != 0 && i < SLOTS
    requires Passed(slots, hash, i) && slots[SlotAt(hash, i)] == 0
    ensures Reachable(slots[SlotAt(hash, i) := hash])
  {
    var p := SlotAt(hash, i);
    var after := slots[p := hash];
    hide ProbeOf, SlotAt, Passed;
    forall q {:trigger after[q]} | 0 <= q < SLOTS && after[q] != 0
      ensures Passed(after, after[q], ProbeOf(after[q], q))
    {
    }
  }

  // ---- One thread ----

  class SeenTable {
    const slots: array<nat>

    constructor ()
      ensures slots.Length == SLOTS && Reachable(slots[..]) && forall q {:trigger slots[q]} :: 0 <= q < SLOTS ==> slots[q] == 0
      ensures fresh(slots)
    {
      slots := new nat[SLOTS](_ => 0);
    }

    /** The call, with no other thread in the way: it is the first sighting exactly when the
        hash is zero, or is not in the table and there is room for it. */
    method FirstSighting(hash: nat) returns (first: bool)
      requires slots.Length == SLOTS && Reachable(slots[..])
      modifies slots
      ensures Reachable(slots[..])
      ensures first <==> hash == 0 || (hash !in old(slots[..]) && 0 in old(slots[..]))
      ensures first && hash != 0 ==> exists q {:trigger slots[q]} :: 0 <= q < SLOTS && old(slots[q]) == 0 && slots[..] == old(slots[..])[q := hash]
      ensures !first || hash == 0 ==> slots[..] == old(slots[..])
    {
      if hash == 0 {
        return true;
      }
      ghost var before := slots[..];
      var i, slot := 0, hash % SLOTS;
      while i < SLOTS
        invariant 0 <= i <= SLOTS && slot == SlotAt(hash, i)
        invariant slots[..] == before && Passed(before, hash, i)
      {
        var have := slots[slot];
        if have == 0 {
          InsertKeepsReachable(before, hash, i);
          forall q | 0 <= q < SLOTS ensures before[q] != hash {
            EmptySlotMeansAbsent(before, hash, i, q);
          }
          slots[slot] := hash;
          assert slots[..] == before[slot := hash];
          assert before[slot] == 0;
          return true;
        }
        if have == hash {
          assert before[slot] == hash;
          return false;
        }
        NextSlot(hash, i);
        i, slot := i + 1, (slot + 1) % SLOTS;
      }
      PassedAllMeansFull(before, hash);
      return false;
    }
  }

  // ---- Any number of threads ----

  /** A call: its hash, the probe and slot it is at, and what it answered once it is done. */
  datatype Call = Call(hash: nat, i: nat, slot: nat, answer: Option<bool>)

  datatype State = State(slots: seq<nat>, calls: seq<Call>)

  /** A call starts, or one that is running makes its next compare-and-swap. */
  datatype Event = Begin(hash: nat) | Probe(call: nat)

  function Start(): State {
    State(seq(SLOTS, _ => 0), [])
  }

  predicate IsState(s: State) {
    |s.slots| == SLOTS && forall t {:trigger s.calls[t]} :: 0 <= t < |s.calls| ==> s.calls[t].slot < SLOTS
  }

  function Begun(hash: nat): Call {
    Call(hash, 0, hash % SLOTS, if hash == 0 then Some(true) else None)
  }

  /** One probe of a running call. */
  function Probed(s: State, t: nat): State
    requires IsState(s) && t < |s.calls|
  {
    var c := s.calls[t];
    if c.i == SLOTS then s.(calls := s.calls[t := c.(answer := Some(false))])
    else
      var have := s.slots[c.slot];
      if have == 0 then State(s.slots[c.slot := c.hash], s.calls[t := c.(answer := Some(true))])
      else if have == c.hash then s.(calls := s.calls[t := c.(answer := Some(false))])
      else s.(calls := s.calls[t := c.(i := c.i + 1, slot := (c.slot + 1) % SLOTS)])
  }

  function Step(s: State, e: Event): (r: State)
    requires IsState(s)
    ensures IsState(r)
  {
    match e
    case Begin(hash) => s.(calls := s.calls + [Begun(hash)])
    case Probe(t) => if t < |s.calls| && s.calls[t].answer.None? then Probed(s, t) else s
  }

  /** The state after the events, in whatever order the threads made them. */
  function Run(events: seq<Event>): (s: State)
    ensures IsState(s)
  {
    if events == [] then Start() else Step(Run(events[..|events| - 1]), events[|events| - 1])
  }

  // ---- What every interleaving keeps ----

  predicate Won(s: State, t: nat, hash: nat) {
    t < |s.calls| && s.calls[t].hash == hash && s.calls[t].answer == Some(true)
  }

  ghost predicate CallInv(slots: seq<nat>, c: Call)
    requires |slots| == SLOTS
  {
    c.i <= SLOTS && c.slot == SlotAt(c.hash, c.i)
    && (c.answer.None? ==> c.hash != 0 && Passed(slots, c.hash, c.i))
    && (c.answer == Some(true) ==> c.hash == 0 || c.hash in slots)
    && (c.answer == Some(false) ==> c.hash != 0 && (c.hash in slots || 0 !in slots))
  }

  ghost predicate OneWinner(s: State) {
    forall t, u {:trigger s.calls[t], s.calls[u]} ::
      (0 <= t < |s.calls| && 0 <= u < |s.calls| && s.calls[t].answer == Some(true) && s.calls[u].answer == Some(true)
       && s.calls[t].hash == s.calls[u].hash != 0) ==> t == u
  }

  ghost predicate StoredByWinner(s: State) {
    forall h {:trigger h in s.slots} :: h in s.slots && h != 0 ==> exists t: nat :: Won(s, t, h)
  }

  ghost predicate CallsInv(s: State) {
    |s.slots| == SLOTS && forall t {:trigger s.calls[t]} :: 0 <= t < |s.calls| ==> CallInv(s.slots, s.calls[t])
  }

  ghost predicate Inv(s: State) {
    IsState(s) && Reachable(s.slots) && CallsInv(s) && OneWinner(s) && StoredByWinner(s)
  }

  lemma {:induction false} StartInv()
    ensures Inv(Start())
  {
  }

  lemma {:induction false} BeginInv(s: State, hash: nat)
    requires Inv(s)
    ensures Inv(Step(s, Begin(hash)))
  {
    var r := Step(s, Begin(hash));
    assert CallInv(s.slots, Begun(hash));
    hide CallInv, Reachable, SlotAt;
    forall h {:trigger h in r.slots} | h in r.slots && h != 0
      ensures exists t: nat :: Won(r, t, h)
    {
      var t: nat :| Won(s, t, h);
      assert Won(r, t, h);
    }
  }

  /** A probe that stores nothing: the call goes on, or answers no. */
  lemma {:induction false} LoserInv(s: State, t: nat)
    requires Inv(s) && t < |s.calls| && s.calls[t].answer.None?
    requires s.calls[t].i == SLOTS || s.slots[s.calls[t].slot] != 0
    ensures Inv(Step(s, Probe(t)))
  {
    var c, r := s.calls[t], Step(s, Probe(t));
    if c.i == SLOTS {
      PassedAllMeansFull(s.slots, c.hash);
    } else {
      NextSlot(c.hash, c.i);
    }
    assert CallInv(s.slots, r.calls[t]);
    assert r.slots == s.slots && forall u {:trigger r.calls[u]} :: 0 <= u < |r.calls| && u != t ==> r.calls[u] == s.calls[u];
    assert r.calls[t].answer != Some(true);
    hide CallInv, Reachable, SlotAt, Probed, Step;
    forall h {:trigger h in r.slots} | h in r.slots && h != 0
      ensures exists u: nat :: Won(r, u, h)
    {
      var u: nat :| Won(s, u, h);
      assert Won(r, u, h);
    }
  }

  /** The probe that stores its hash. */
  lemma {:induction false} WinnerInv(s: State, t: nat)
    requires Inv(s) && t < |s.calls| && s.calls[t].answer.None?
    requires s.calls[t].i < SLOTS && s.slots[s.calls[t].slot] == 0
    ensures Inv(Step(s, Probe(t)))
  {
    var c, r := s.calls[t], Step(s, Probe(t));
    InsertKeepsReachable(s.slots, c.hash, c.i);
    forall q | 0 <= q < SLOTS ensures s.slots[q] != c.hash {
      EmptySlotMeansAbsent(s.slots, c.hash, c.i, q);
    }
    assert c.hash !in s.slots;
    forall u {:trigger r.calls[u]} | 0 <= u < |r.calls|
      ensures CallInv(r.slots, r.calls[u])
    {
      StoreKeepsCall(s.slots, c.slot, c.hash, s.calls[u]);
      if u == t { assert r.slots[c.slot] == c.hash; }
    }
    WinnerIsNew(s, t);
    hide CallInv, Reachable, SlotAt;
  }

  lemma {:induction false} StoreKeepsCall(slots: seq<nat>, q: nat, hash: nat, c: Call)
    requires |slots| == SLOTS && q < SLOTS && slots[q] == 0 && hash != 0
    requires CallInv(slots, c)
    ensures CallInv(slots[q := hash], c)
  {
    StoreKeepsHashes(slots, q, hash, c.hash);
    hide SlotAt, Passed;
  }

  lemma {:induction false} StoreKeepsHashes(slots: seq<nat>, q: nat, hash: nat, h: nat)
    requires q < |slots| && slots[q] == 0 && hash != 0
    ensures h != 0 && h in slots ==> h in slots[q := hash]
    ensures 0 !in slots ==> 0 !in slots[q := hash]
    ensures h in slots[q := hash] ==> h == hash || h in slots
    ensures hash in slots[q := hash]
  {
    var after := slots[q := hash];
    assert after[q] == hash;
    if h != 0 && h in slots {
      var p :| 0 <= p < |slots| && slots[p] == h;
      assert after[p] == h;
    }
  }

  /** The winner is the only one for its hash, and is there for it. */
  lemma {:induction false} WinnerIsNew(s: State, t: nat)
    requires Inv(s) && t < |s.calls| && s.calls[t].answer.None?
    requires s.calls[t].i < SLOTS && s.slots[s.calls[t].slot] == 0 && s.calls[t].hash !in s.slots
    ensures OneWinner(Step(s, Probe(t))) && StoredByWinner(Step(s, Probe(t)))
  {
    var c, r := s.calls[t], Step(s, Probe(t));
    assert c.hash != 0;
    assert forall u {:trigger s.calls[u]} :: 0 <= u < |s.calls| && s.calls[u].answer == Some(true) ==> s.calls[u].hash != c.hash;
    hide CallInv, Reachable, SlotAt;
    assert Won(r, t, c.hash);
    forall h {:trigger h in r.slots} | h in r.slots && h != 0
      ensures exists u: nat :: Won(r, u, h)
    {
      StoreKeepsHashes(s.slots, c.slot, c.hash, h);
      if h != c.hash {
        var u: nat :| Won(s, u, h);
        assert Won(r, u, h);
      }
    }
  }

  lemma {:induction false} RunInv(events: seq<Event>)
    ensures Inv(Run(events))
  {
    if events == [] {
      StartInv();
    } else {
      var before, e := events[..|events| - 1], events[|events| - 1];
      RunInv(before);
      var s := Run(before);
      match e
      case Begin(hash) => BeginInv(s, hash);
      case Probe(t) =>
        if t < |s.calls| && s.calls[t].answer.None? {
          if s.calls[t].i < SLOTS && s.slots[s.calls[t].slot] == 0 { WinnerInv(s, t); } else { LoserInv(s, t); }
        }
    }
  }

  // ---- The results ----

  /** In every interleaving at most one call answers that a non-zero hash is new. */
  lemma {:induction false} AtMostOneFirst(events: seq<Event>, t: nat, u: nat, hash: nat)
    requires hash != 0 && Won(Run(events), t, hash) && Won(Run(events), u, hash)
    ensures t == u
  {
    RunInv(events);
  }

  /** Once a call for a non-zero hash is done, exactly one has answered that it is new, unless
      the table is full. */
  lemma {:induction false} ExactlyOneFirst(events: seq<Event>, t: nat)
    requires t < |Run(events).calls| && Run(events).calls[t].answer.Some? && Run(events).calls[t].hash != 0
    requires 0 in Run(events).slots
    ensures exists u: nat :: OnlyWinner(Run(events), u, Run(events).calls[t].hash)
  {
    RunInv(events);
    var s := Run(events);
    assert CallInv(s.slots, s.calls[t]);
    var hash := s.calls[t].hash;
    match s.calls[t].answer
    case Some(first) =>
      if first { assert Won(s, t, hash); } else { assert hash in s.slots; }
      var u: nat :| Won(s, u, hash);
      assert OnlyWinner(s, u, hash);
  }

  ghost predicate OnlyWinner(s: State, t: nat, hash: nat) {
    Won(s, t, hash) && forall u: nat :: Won(s, u, hash) ==> u == t
  }

  /** A hash is stored exactly when a call has answered yes for it. */
  lemma {:induction false} StoredIffWon(events: seq<Event>, hash: nat)
    requires hash != 0
    ensures hash in Run(events).slots <==> exists t: nat :: Won(Run(events), t, hash)
  {
    RunInv(events);
    var s := Run(events);
    if t: nat :| Won(s, t, hash) { assert CallInv(s.slots, s.calls[t]); }
  }

  /** A stored hash stays where it is, reachable from its home slot. */
  lemma {:induction false} StoredStays(events: seq<Event>, e: Event, q: nat)
    requires q < SLOTS && Run(events).slots[q] != 0
    ensures Run(events + [e]).slots[q] == Run(events).slots[q]
    ensures Reachable(Run(events + [e]).slots)
  {
    assert (events + [e])[..|events|] == events;
    var s := Run(events);
    assert Run(events + [e]) == Step(s, e);
    RunInv(events + [e]);
  }

  /** So a call for a stored hash answers no when it gets there, whatever the other threads do:
      each of its probes up to that slot passes on, and it never passes the slot itself. */
  lemma {:induction false} StoredIsFound(events: seq<Event>, t: nat, q: nat)
    requires t < |Run(events).calls| && q < SLOTS && Run(events).calls[t].hash == Run(events).slots[q] != 0
    requires Run(events).calls[t].answer.None?
    ensures var c, k := Run(events).calls[t], ProbeOf(Run(events).slots[q], q);
            c.i <= k && Run(events + [Probe(t)]).calls == Run(events).calls[t :=
              if c.i == k then c.(answer := Some(false)) else c.(i := c.i + 1, slot := SlotAt(c.hash, c.i + 1))]
  {
    RunInv(events);
    var s := Run(events);
    var c, hash := s.calls[t], s.slots[q];
    var k := ProbeOf(hash, q);
    assert (events + [Probe(t)])[..|events|] == events;
    assert Run(events + [Probe(t)]) == Probed(s, t);
    NextSlot(hash, c.i);
    assert Passed(s.slots, hash, c.i) && Passed(s.slots, hash, k);
    hide Run, ProbeOf, SlotAt, Passed;
  }

  /** Every call is done after at most one probe a slot and one more. */
  function ProbesLeft(c: Call): nat
    requires c.i <= SLOTS
  {
    if c.answer.Some? then 0 else SLOTS + 1 - c.i
  }

  lemma {:induction false} EveryProbeCounts(events: seq<Event>, t: nat)
    requires t < |Run(events).calls|
    ensures Run(events).calls[t].i <= SLOTS
    ensures t < |Run(events + [Probe(t)]).calls| && Run(events + [Probe(t)]).calls[t].i <= SLOTS
    ensures Run(events).calls[t].answer.None? ==>
              ProbesLeft(Run(events + [Probe(t)]).calls[t]) < ProbesLeft(Run(events).calls[t])
  {
    RunInv(events);
    RunInv(events + [Probe(t)]);
    assert (events + [Probe(t)])[..|events|] == events;
    var s := Run(events);
    assert Run(events + [Probe(t)]) == Step(s, Probe(t));
    assert CallInv(s.slots, s.calls[t]);
  }
}
