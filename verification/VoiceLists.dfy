/** The three voice lists in guest memory: linking a voice in on VOICE_ON, and the walk of
    the lists at the start of a frame, which may run while a voice is being linked in. */
module VoiceLists {
  import opened Common
  import opened Mcpx

  /** A voice handle as a link holds it, in 16 bits. */
  type Link = x: nat | x < 0x1_0000

  const NONE: Link := 0xFFFF
  const LISTS: nat := 3

  /** The top of each list, and the next handle of each voice structure. */
  datatype Links = Links(tops: seq<Link>, next: seq<Link>) {
    ghost predicate Valid() { |tops| == LISTS && |next| == 0x1_0000 }
  }

  function LinkAt(path: seq<Handle>, i: nat): Link {
    if i < |path| then path[i] else NONE
  }

  /** The links lead along `path` and end there. */
  ghost predicate Chain(next: seq<Link>, from: Link, path: seq<Handle>)
    requires |next| == 0x1_0000
  {
    && from == LinkAt(path, 0)
    && forall i {:trigger path[i]} :: 0 <= i < |path| ==> next[path[i]] == LinkAt(path, i + 1)
  }

  function All(lists: seq<seq<Handle>>): seq<Handle>
    requires |lists| == LISTS
  {
    lists[0] + lists[1] + lists[2]
  }

  /** The three lists end, and no voice is on them twice. */
  ghost predicate Represents(s: Links, lists: seq<seq<Handle>>) {
    && s.Valid() && |lists| == LISTS
    && (forall l {:trigger lists[l]} :: 0 <= l < LISTS ==> Chain(s.next, s.tops[l], lists[l]))
    && Distinct(All(lists))
  }

  // ---- Linking a voice in ----

  /** VOICE_ON with the antecedent register: the top of list `list` if that is 1, 2 or 3, and
      after voice `antecedent` if it is 0. */
  datatype Insertion = Insertion(handle: Handle, list: nat, antecedent: Link) {
    ghost predicate Valid() { list <= LISTS && antecedent != NONE }
  }

  function FirstStore(s: Links, on: Insertion): (r: Links)
    requires s.Valid() && on.Valid()
    ensures r.Valid()
  {
    var link := if on.list != 0 then s.tops[on.list - 1] else s.next[on.antecedent];
    s.(next := s.next[on.handle := link])
  }

  function SecondStore(s: Links, on: Insertion): (r: Links)
    requires s.Valid() && on.Valid()
    ensures r.Valid()
  {
    if on.list != 0 then s.(tops := s.tops[on.list - 1 := on.handle])
    else s.(next := s.next[on.antecedent := on.handle])
  }

  function Inserted(s: Links, on: Insertion): (r: Links)
    requires s.Valid() && on.Valid()
    ensures r.Valid()
  {
    SecondStore(FirstStore(s, on), on)
  }

  /** Where the voice goes: before position `p` of list `l`. */
  predicate GoesTo(lists: seq<seq<Handle>>, on: Insertion, l: nat, p: nat)
    requires |lists| == LISTS
  {
    if on.list != 0 then l == on.list - 1 < LISTS && p == 0
    else l < LISTS && 0 < p <= |lists[l]| && lists[l][p - 1] == on.antecedent
  }

  function Insert(path: seq<Handle>, p: nat, h: Handle): seq<Handle>
    requires p <= |path|
  {
    path[..p] + [h] + path[p..]
  }

  class ListRegisters {
    const tops: array<Link>
    const next: array<Link>

    ghost predicate Valid()
      reads this
    {
      tops.Length == LISTS && next.Length == 0x1_0000 && tops != next
    }

    ghost function State(): (s: Links)
      requires Valid()
      reads this, tops, next
      ensures s.Valid()
    {
      Links(tops[..], next[..])
    }

    /** The part of VOICE_ON that links the voice in; `ok` is false where the program aborts. */
    method LinkVoice(on: Insertion) returns (ok: bool)
      requires Valid() && on.list <= LISTS
      modifies tops, next
      ensures ok <==> on.list != 0 || on.antecedent != NONE
      ensures ok && on.Valid() ==> State() == Inserted(old(State()), on)
      ensures !ok ==> State() == old(State())
    {
      if on.list != 0 {
        next[on.handle] := tops[on.list - 1];
        tops[on.list - 1] := on.handle;
      } else {
        if on.antecedent == NONE {
          return false;
        }
        next[on.handle] := next[on.antecedent];
        next[on.antecedent] := on.handle;
      }
      return true;
    }

    /** The walk of the three lists that starts a frame: active voices are queued, the others
        are reported idle. The bound on each list is there for links that run in a circle.
        `ok` is false where the program aborts: with the queue full, or at an idle voice
        while the front end does not trap idle voices. */
    method WalkLists(active: seq<bool>, trapsIdle: bool) returns (queue: seq<Link>, ok: bool)
      requires Valid() && |active| == 0x1_0000
      ensures var seen := Walked(State());
        && (ok <==> |Chosen(active, seen)| <= MCPX_HW_MAX_VOICES && (trapsIdle || |Chosen(active, seen)| == |seen|))
        && (ok ==> queue == Chosen(active, seen))
    {
      queue, ok := [], true;
      ghost var seen: seq<Link> := [];
      for list := 0 to LISTS
        invariant seen == WalkedFirst(State(), list)
        invariant queue == Chosen(active, seen) && |queue| <= MCPX_HW_MAX_VOICES
        invariant trapsIdle || |queue| == |seen|
      {
        var current := tops[list];
        var i := 0;
        ghost var before := seen;
        while current != NONE && i < MCPX_HW_MAX_VOICES
          invariant 0 <= i <= MCPX_HW_MAX_VOICES
          invariant before + Visited(next[..], tops[list], MCPX_HW_MAX_VOICES)
                 == seen + Visited(next[..], current, MCPX_HW_MAX_VOICES - i)
          invariant queue == Chosen(active, seen) && |queue| <= MCPX_HW_MAX_VOICES
          invariant trapsIdle || |queue| == |seen|
          decreases MCPX_HW_MAX_VOICES - i
        {
          ChosenNext(active, seen, current);
          ghost var rest := Visited(next[..], next[current], MCPX_HW_MAX_VOICES - i - 1);
          assert seen + ([current] + rest) == (seen + [current]) + rest;
          if (active[current] && |queue| == MCPX_HW_MAX_VOICES) || (!active[current] && !trapsIdle) {
            WalkStops(State(), active, before, list, seen + [current], rest);
            return queue, false;
          }
          if active[current] {
            queue := queue + [current];
          }
          seen := seen + [current];
          current := next[current];
          i := i + 1;
        }
      }
    }
  }

  /** The handles a walk from `from` reads, `n` at most. */
  function Visited(next: seq<Link>, from: Link, n: nat): seq<Link>
    requires |next| == 0x1_0000
    decreases n
  {
    if n == 0 || from == NONE then [] else [from] + Visited(next, next[from], n - 1)
  }

  function WalkedFirst(s: Links, lists: nat): seq<Link>
    requires s.Valid() && lists <= LISTS
  {
    if lists == 0 then [] else WalkedFirst(s, lists - 1) + Visited(s.next, s.tops[lists - 1], MCPX_HW_MAX_VOICES)
  }

  function Walked(s: Links): seq<Link>
    requires s.Valid()
  {
    WalkedFirst(s, LISTS)
  }

  function Chosen(active: seq<bool>, seen: seq<Link>): seq<Link>
    requires |active| == 0x1_0000
  {
    if seen == [] then []
    else Chosen(active, seen[..|seen| - 1]) + (if active[seen[|seen| - 1]] then [seen[|seen| - 1]] else [])
  }

  lemma {:induction false} ChosenNext(active: seq<bool>, seen: seq<Link>, x: Link)
    requires |active| == 0x1_0000
    ensures Chosen(active, seen + [x]) == Chosen(active, seen) + (if active[x] then [x] else [])
  {
    assert (seen + [x])[..|seen|] == seen;
  }

  /** What has been chosen, and what has been left out, only grows. */
  lemma {:induction false} ChosenGrows(active: seq<bool>, seen: seq<Link>, more: seq<Link>)
    requires |active| == 0x1_0000
    ensures |Chosen(active, seen)| <= |Chosen(active, seen + more)|
    ensures |seen| - |Chosen(active, seen)| <= |seen + more| - |Chosen(active, seen + more)|
    decreases |more|
  {
    if more == [] {
      assert seen + more == seen;
    } else {
      var k := |more| - 1;
      ChosenGrows(active, seen, more[..k]);
      assert (seen + more)[..|seen| + k] == seen + more[..k];
    }
  }

  lemma {:induction false} WalkedGrows(s: Links, lists: nat) returns (rest: seq<Link>)
    requires s.Valid() && lists <= LISTS
    ensures Walked(s) == WalkedFirst(s, lists) + rest
    decreases LISTS - lists
  {
    if lists == LISTS {
      rest := [];
    } else {
      var more := WalkedGrows(s, lists + 1);
      rest := Visited(s.next, s.tops[lists], MCPX_HW_MAX_VOICES) + more;
    }
  }

  lemma {:induction false} WalkStops(s: Links, active: seq<bool>, before: seq<Link>, list: nat, seen: seq<Link>,
        rest: seq<Link>)
    requires s.Valid() && |active| == 0x1_0000 && list < LISTS && before == WalkedFirst(s, list)
    requires before + Visited(s.next, s.tops[list], MCPX_HW_MAX_VOICES) == seen + rest
    ensures |Chosen(active, seen)| <= |Chosen(active, Walked(s))|
    ensures |seen| - |Chosen(active, seen)| <= |Walked(s)| - |Chosen(active, Walked(s))|
  {
    var more := WalkedGrows(s, list + 1);
    assert Walked(s) == seen + (rest + more);
    ChosenGrows(active, seen, rest + more);
  }

  lemma {:induction false} InsertKeepsDistinct(q: seq<Handle>, p: nat, h: Handle)
    requires p <= |q| && Distinct(q) && h !in q
    ensures Distinct(Insert(q, p, h))
  {
    var r := Insert(q, p, h);
    forall i, j {:trigger r[i], r[j]} | 0 <= i < j < |r| ensures r[i] != r[j] {
      assert r[i] == if i < p then q[i] else if i == p then h else q[i - 1];
      assert r[j] == if j < p then q[j] else if j == p then h else q[j - 1];
    }
  }

  /** Where list `l` starts among all. */
  function Offset(lists: seq<seq<Handle>>, l: nat): nat
    requires |lists| == LISTS && l < LISTS
  {
    if l == 0 then 0 else if l == 1 then |lists[0]| else |lists[0]| + |lists[1]|
  }

  /** No voice is in two places. */
  lemma {:induction false} OnePlace(lists: seq<seq<Handle>>, l: nat, i: nat, m: nat, j: nat)
    requires |lists| == LISTS && Distinct(All(lists))
    requires l < LISTS && i < |lists[l]| && m < LISTS && j < |lists[m]|
    requires lists[l][i] == lists[m][j]
    ensures l == m && i == j
  {
    assert All(lists)[Offset(lists, l) + i] == All(lists)[Offset(lists, m) + j];
  }

  lemma {:induction false} AllAfterInsert(lists: seq<seq<Handle>>, l: nat, p: nat, h: Handle)
    requires |lists| == LISTS && l < LISTS && p <= |lists[l]|
    ensures All(lists[l := Insert(lists[l], p, h)]) == Insert(All(lists), Offset(lists, l) + p, h)
  {
  }

  lemma {:induction false} ChainUntouched(next: seq<Link>, next': seq<Link>, from: Link, path: seq<Handle>)
    requires |next| == |next'| == 0x1_0000 && Chain(next, from, path)
    requires forall i {:trigger path[i]} :: 0 <= i < |path| ==> next'[path[i]] == next[path[i]]
    ensures Chain(next', from, path)
  {
  }

  lemma {:induction false} ChainWithHead(next: seq<Link>, next': seq<Link>, from: Link, path: seq<Handle>, h: Handle)
    requires |next| == |next'| == 0x1_0000 && Chain(next, from, path)
    requires next'[h] == LinkAt(path, 0)
    requires forall i {:trigger path[i]} :: 0 <= i < |path| ==> next'[path[i]] == next[path[i]]
    ensures Chain(next', h, Insert(path, 0, h))
  {
    var longer := Insert(path, 0, h);
    forall i {:trigger longer[i]} | 0 <= i < |longer| ensures next'[longer[i]] == LinkAt(longer, i + 1) {
      if i > 0 { assert longer[i] == path[i - 1]; }
    }
  }

  lemma {:induction false} ChainWithin(next: seq<Link>, next': seq<Link>, from: Link, path: seq<Handle>, p: nat,
        h: Handle)
    requires |next| == |next'| == 0x1_0000 && Chain(next, from, path) && 0 < p <= |path|
    requires next'[h] == LinkAt(path, p) && next'[path[p - 1]] == h
    requires forall i {:trigger path[i]} :: 0 <= i < |path| && i != p - 1 ==> next'[path[i]] == next[path[i]]
    ensures Chain(next', from, Insert(path, p, h))
  {
    var longer := Insert(path, p, h);
    forall i {:trigger longer[i]} | 0 <= i < |longer| ensures next'[longer[i]] == LinkAt(longer, i + 1) {
      if i < p {
        assert longer[i] == path[i];
      } else if i > p {
        assert longer[i] == path[i - 1];
      }
    }
  }

  lemma {:induction false} ListedElsewhere(lists: seq<seq<Handle>>, h: Handle, m: nat, i: nat)
    requires |lists| == LISTS && h !in All(lists) && m < LISTS && i < |lists[m]|
    ensures lists[m][i] != h
  {
  }

  lemma {:induction false} ChainAfterInsert(s: Links, lists: seq<seq<Handle>>, on: Insertion, l: nat, p: nat, m: nat)
    requires Represents(s, lists) && on.Valid() && on.handle !in All(lists) && GoesTo(lists, on, l, p) && m < LISTS
    ensures Chain(Inserted(s, on).next, Inserted(s, on).tops[m], lists[l := Insert(lists[l], p, on.handle)][m])
  {
    var h, path, s' := on.handle, lists[m], Inserted(s, on);
    assert s.tops[m] == LinkAt(path, 0);
    assert p > 0 && m == l ==> s.next[path[p - 1]] == LinkAt(path, p);
    hide Distinct;
    hide Insert;
    hide Chain;
    forall i {:trigger path[i]} | 0 <= i < |path| && !(on.list == 0 && m == l && i == p - 1)
      ensures s'.next[path[i]] == s.next[path[i]]
    {
      ListedElsewhere(lists, h, m, i);
      if on.list == 0 && path[i] == on.antecedent { OnePlace(lists, l, p - 1, m, i); }
    }
    if m != l {
      ChainUntouched(s.next, s'.next, s.tops[m], path);
    } else if on.list != 0 {
      ChainWithHead(s.next, s'.next, s.tops[m], path, h);
    } else {
      ListedElsewhere(lists, h, l, p - 1);
      ChainWithin(s.next, s'.next, s.tops[m], path, p, h);
    }
  }

  /** A voice on no list goes where it is told, and between the two stores the lists are as
      before. */
  lemma {:induction false} UnlistedGoesIn(s: Links, lists: seq<seq<Handle>>, on: Insertion, l: nat, p: nat)
    requires Represents(s, lists) && on.Valid() && on.handle !in All(lists) && GoesTo(lists, on, l, p)
    ensures Represents(FirstStore(s, on), lists)
    ensures Represents(Inserted(s, on), lists[l := Insert(lists[l], p, on.handle)])
  {
    hide LinkAt;
    hide Chain;
    hide Distinct;
    hide Insert;
    hide FirstStore;
    hide SecondStore;
    FirstStoreUnseen(s, lists, on);
    var after := lists[l := Insert(lists[l], p, on.handle)];
    AllAfterInsert(lists, l, p, on.handle);
    InsertKeepsDistinct(All(lists), Offset(lists, l) + p, on.handle);
    forall m | 0 <= m < LISTS ensures Chain(Inserted(s, on).next, Inserted(s, on).tops[m], after[m]) {
      ChainAfterInsert(s, lists, on, l, p, m);
    }
  }

  lemma {:induction false} FirstStoreUnseen(s: Links, lists: seq<seq<Handle>>, on: Insertion)
    requires Represents(s, lists) && on.Valid() && on.handle !in All(lists)
    ensures Represents(FirstStore(s, on), lists)
  {
    forall m | 0 <= m < LISTS ensures Chain(FirstStore(s, on).next, s.tops[m], lists[m]) {
      var path := lists[m];
      forall i {:trigger path[i]} | 0 <= i < |path| ensures path[i] != on.handle {
        ListedElsewhere(lists, on.handle, m, i);
      }
      ChainUntouched(s.next, FirstStore(s, on).next, s.tops[m], path);
    }
  }

  // ---- A voice that is already on a list ----

  /** Two chains through the same links stay together as long as the first one's links hold. */
  lemma {:induction false} Follows(next: seq<Link>, from: Link, path: seq<Handle>, k: nat, other: seq<Handle>,
        j: nat, n: nat)
    requires |next| == 0x1_0000 && Chain(next, from, path)
    requires k < |path| && j + n < |other| && path[k] == other[j]
    requires forall i {:trigger other[i]} :: j <= i < j + n ==> next[other[i]] == LinkAt(other, i + 1)
    ensures k + n < |path| && path[k + n] == other[j + n]
    decreases n
  {
    if n > 0 {
      Follows(next, from, path, k, other, j, n - 1);
      assert next[path[k + n - 1]] == LinkAt(path, k + n);
      assert next[other[j + n - 1]] == other[j + n];
    }
  }

  /** As the voice lists stand after the stores, could a walk of them still be that of three
      lists that end and share nothing, with the voice where it was meant to go? */
  ghost predicate GoesIn(s: Links, on: Insertion, after: seq<seq<Handle>>)
    requires s.Valid() && on.Valid()
  {
    Represents(Inserted(s, on), after) && (on.list == 0 ==> on.antecedent in All(after))
  }

  lemma {:induction false} PlaceIn(lists: seq<seq<Handle>>, x: Link) returns (l: nat, i: nat)
    requires |lists| == LISTS && x in All(lists)
    ensures l < LISTS && i < |lists[l]| && lists[l][i] == x
  {
    var k :| 0 <= k < |All(lists)| && All(lists)[k] == x;
    if k < |lists[0]| { l, i := 0, k; }
    else if k < |lists[0]| + |lists[1]| { l, i := 1, k - |lists[0]|; }
    else { l, i := 2, k - |lists[0]| - |lists[1]|; }
  }

  /** The links before a listed voice are as they were, but for that of the antecedent. */
  lemma {:induction false} LinksBefore(s: Links, lists: seq<seq<Handle>>, on: Insertion, m: nat, j: nat, i: nat)
    requires Represents(s, lists) && on.Valid() && m < LISTS && j < |lists[m]| && lists[m][j] == on.handle
    requires i < |lists[m]| && i != j && (on.list == 0 ==> lists[m][i] != on.antecedent)
    ensures Inserted(s, on).next[lists[m][i]] == LinkAt(lists[m], i + 1)
  {
    if lists[m][i] == on.handle { OnePlace(lists, m, i, m, j); }
  }

  lemma {:induction false} SamePrefix(next: seq<Link>, from: Link, path: seq<Handle>, other: seq<Handle>, j: nat)
    requires |next| == 0x1_0000 && Chain(next, from, path) && j < |other| && from == other[0]
    requires forall i {:trigger other[i]} :: 0 <= i < j ==> next[other[i]] == LinkAt(other, i + 1)
    ensures j < |path| && forall i {:trigger path[i]} :: 0 <= i <= j ==> path[i] == other[i]
  {
    Follows(next, from, path, 0, other, 0, j);
    forall i {:trigger path[i]} | 0 <= i <= j ensures path[i] == other[i] {
      Follows(next, from, path, 0, other, 0, i);
    }
  }

  lemma {:induction false} LinkedNext(next: seq<Link>, from: Link, path: seq<Handle>, i: nat, h: Handle)
    requires |next| == 0x1_0000 && Chain(next, from, path) && i < |path| && next[path[i]] == h
    ensures i + 1 < |path| && path[i + 1] == h
  {
    assert next[path[i]] == LinkAt(path, i + 1);
  }

  lemma {:induction false} ListedTopBreaks(s: Links, lists: seq<seq<Handle>>, on: Insertion, l: nat, m: nat, j: nat,
        after: seq<seq<Handle>>)
    requires Represents(s, lists) && on.Valid() && on.list != 0 && l == on.list - 1
    requires m < LISTS && j < |lists[m]| && lists[m][j] == on.handle
    ensures !Represents(Inserted(s, on), after)
  {
    if Represents(Inserted(s, on), after) {
      var s' := Inserted(s, on);
      forall i {:trigger lists[m][i]} | 0 <= i < j ensures s'.next[lists[m][i]] == LinkAt(lists[m], i + 1) {
        LinksBefore(s, lists, on, m, j, i);
      }
      assert after[l][0] == on.handle;
      assert m == l ==> s'.next[on.handle] == lists[m][0];
      assert m != l ==> s'.tops[m] == lists[m][0];
      hide Distinct;
      hide FirstStore;
      hide SecondStore;
      if m == l {
        LinkedNext(s'.next, s'.tops[l], after[l], 0, lists[m][0]);
        hide Chain;
        Follows(s'.next, s'.tops[l], after[l], 1, lists[m], 0, j);
        OnePlace(after, l, 0, l, j + 1);
      } else {
        hide Chain;
        SamePrefix(s'.next, s'.tops[m], after[m], lists[m], j);
        OnePlace(after, l, 0, m, j);
      }
    }
  }

  /** What the stores leave of a list that has the antecedent before the voice. */
  lemma {:induction false} CircleLinks(s: Links, lists: seq<seq<Handle>>, on: Insertion, q: nat, m: nat, j: nat)
    requires Represents(s, lists) && on.Valid() && on.list == 0 && m < LISTS && q < j < |lists[m]|
    requires lists[m][q] == on.antecedent && lists[m][j] == on.handle
    ensures var s' := Inserted(s, on);
      && (forall i {:trigger lists[m][i]} :: 0 <= i < j && i != q ==> s'.next[lists[m][i]] == LinkAt(lists[m], i + 1))
      && s'.next[on.antecedent] == on.handle && s'.next[on.handle] == lists[m][q + 1]
      && s'.tops[m] == lists[m][0]
  {
    forall i {:trigger lists[m][i]} | 0 <= i < j && i != q
      ensures Inserted(s, on).next[lists[m][i]] == LinkAt(lists[m], i + 1)
    {
      if lists[m][i] == on.antecedent { OnePlace(lists, m, i, m, q); }
      LinksBefore(s, lists, on, m, j, i);
    }
    if on.antecedent == on.handle { OnePlace(lists, m, q, m, j); }
  }

  lemma {:induction false} Circle(next: seq<Link>, from: Link, path: seq<Handle>, other: seq<Handle>, q: nat, j: nat)
    requires |next| == 0x1_0000 && Chain(next, from, path) && q < j < |other| && from == other[0]
    requires forall i {:trigger other[i]} :: 0 <= i < j && i != q ==> next[other[i]] == LinkAt(other, i + 1)
    requires next[other[q]] == other[j] && next[other[j]] == other[q + 1]
    ensures j + 1 < |path| && path[q + 1] == path[j + 1] == other[j]
  {
    Follows(next, from, path, 0, other, 0, q);
    assert next[path[q]] == LinkAt(path, q + 1);
    assert next[path[q + 1]] == LinkAt(path, q + 2);
    Follows(next, from, path, q + 2, other, q + 1, j - (q + 1));
  }

  /** The antecedent is before the voice on its list: the list now runs in a circle. */
  lemma {:induction false} AntecedentBefore(s: Links, lists: seq<seq<Handle>>, on: Insertion, q: nat, m: nat, j: nat,
        after: seq<seq<Handle>>)
    requires Represents(s, lists) && on.Valid() && on.list == 0 && m < LISTS && q < j < |lists[m]|
    requires lists[m][q] == on.antecedent && lists[m][j] == on.handle
    ensures !Represents(Inserted(s, on), after)
  {
    hide LinkAt;
    if Represents(Inserted(s, on), after) {
      CircleLinks(s, lists, on, q, m, j);
      hide Distinct;
      hide FirstStore;
      hide SecondStore;
      hide Chain;
      var s' := Inserted(s, on);
      Circle(s'.next, s'.tops[m], after[m], lists[m], q, j);
      OnePlace(after, m, q + 1, m, j + 1);
    }
  }

  lemma {:induction false} LinksUpTo(s: Links, lists: seq<seq<Handle>>, on: Insertion, l: nat, q: nat, m: nat, j: nat)
    requires Represents(s, lists) && on.Valid() && on.list == 0
    requires l < LISTS && q < |lists[l]| && lists[l][q] == on.antecedent
    requires m < LISTS && j < |lists[m]| && lists[m][j] == on.handle && (l == m ==> j <= q)
    ensures var s' := Inserted(s, on);
      && (forall i {:trigger lists[m][i]} :: 0 <= i < j ==> s'.next[lists[m][i]] == LinkAt(lists[m], i + 1))
      && s'.next[on.antecedent] == on.handle && s'.tops[m] == lists[m][0]
  {
    forall i {:trigger lists[m][i]} | 0 <= i < j
      ensures Inserted(s, on).next[lists[m][i]] == LinkAt(lists[m], i + 1)
    {
      if lists[m][i] == on.antecedent { OnePlace(lists, m, i, l, q); }
      LinksBefore(s, lists, on, m, j, i);
    }
  }

  /** The antecedent is after the voice, or on another list, or the voice itself: what led to
      the voice still does, so the antecedent cannot be listed as well. */
  lemma {:induction false} AntecedentLost(s: Links, lists: seq<seq<Handle>>, on: Insertion, l: nat, q: nat, m: nat,
        j: nat, after: seq<seq<Handle>>)
    requires Represents(s, lists) && on.Valid() && on.list == 0
    requires l < LISTS && q < |lists[l]| && lists[l][q] == on.antecedent
    requires m < LISTS && j < |lists[m]| && lists[m][j] == on.handle && (l == m ==> j <= q)
    ensures !GoesIn(s, on, after)
  {
    hide LinkAt;
    if GoesIn(s, on, after) {
      LinksUpTo(s, lists, on, l, q, m, j);
      var l', q' := PlaceIn(after, on.antecedent);
      hide Distinct;
      hide FirstStore;
      hide SecondStore;
      hide Chain;
      var s' := Inserted(s, on);
      SamePrefix(s'.next, s'.tops[m], after[m], lists[m], j);
      LinkedNext(s'.next, s'.tops[l'], after[l'], q', on.handle);
      OnePlace(after, l', q' + 1, m, j);
      OnePlace(lists, m, q', l, q);
    }
  }

  /** VOICE_ON keeps the three lists in order exactly when the voice was on none of them. */
  lemma {:induction false} GoesInIffUnlisted(s: Links, lists: seq<seq<Handle>>, on: Insertion, l: nat, p: nat)
    requires Represents(s, lists) && on.Valid() && GoesTo(lists, on, l, p)
    ensures (exists after :: GoesIn(s, on, after)) <==> on.handle !in All(lists)
  {
    hide LinkAt;
    if on.handle !in All(lists) {
      UnlistedGoesIn(s, lists, on, l, p);
      var after := lists[l := Insert(lists[l], p, on.handle)];
      if on.list == 0 {
        assert after[l][p - 1] == on.antecedent;
      }
      assert GoesIn(s, on, after);
    } else {
      var m, j := PlaceIn(lists, on.handle);
      forall after ensures !GoesIn(s, on, after) {
        if on.list != 0 {
          ListedTopBreaks(s, lists, on, l, m, j, after);
        } else if l == m && p - 1 < j {
          AntecedentBefore(s, lists, on, p - 1, m, j, after);
        } else {
          AntecedentLost(s, lists, on, l, p - 1, m, j, after);
        }
      }
    }
  }

  // ---- The walk at the start of a frame ----

  lemma {:induction false} VisitedPath(next: seq<Link>, from: Link, path: seq<Handle>, i: nat, n: nat)
    requires |next| == 0x1_0000 && Chain(next, from, path) && i <= |path| && |path| - i <= n
    ensures Visited(next, LinkAt(path, i), n) == path[i..]
    decreases |path| - i
  {
    if i < |path| {
      VisitedPath(next, from, path, i + 1, n - 1);
      assert next[path[i]] == LinkAt(path, i + 1);
      assert path[i..] == [path[i]] + path[i + 1..];
    }
  }

  function Below(n: nat): (r: set<nat>)
    ensures |r| == n && forall x: nat {:trigger x in r} :: x in r <==> x < n
  {
    if n == 0 then {} else Below(n - 1) + {n - 1}
  }

  function Elements(q: seq<Handle>, n: nat): (r: set<nat>)
    requires n <= |q| && Distinct(q)
    ensures |r| == n && forall x {:trigger x in r} :: x in r <==> x in q[..n]
  {
    if n == 0 then {}
    else
      assert q[..n] == q[..n - 1] + [q[n - 1]];
      assert q[n - 1] !in q[..n - 1];
      Elements(q, n - 1) + {q[n - 1]}
  }

  lemma {:induction false} SmallerSet(a: set<nat>, b: set<nat>)
    requires a <= b
    ensures |a| <= |b|
  {
    if a != {} {
      var x :| x in a;
      SmallerSet(a - {x}, b - {x});
    }
  }

  /** There are only so many voices. */
  lemma {:induction false} FewVoices(q: seq<Handle>)
    requires Distinct(q)
    ensures |q| <= MCPX_HW_MAX_VOICES
  {
    SmallerSet(Elements(q, |q|), Below(MCPX_HW_MAX_VOICES));
  }

  /** On lists in order the walk sees each listed voice once, in list order, and never meets
      its bound. */
  lemma {:induction false} WalkSeesLists(s: Links, lists: seq<seq<Handle>>)
    requires Represents(s, lists)
    ensures Walked(s) == All(lists) && |All(lists)| <= MCPX_HW_MAX_VOICES
  {
    FewVoices(All(lists));
    forall l | 0 <= l < LISTS ensures Visited(s.next, s.tops[l], MCPX_HW_MAX_VOICES) == lists[l] {
      VisitedPath(s.next, s.tops[l], lists[l], 0, MCPX_HW_MAX_VOICES);
    }
    WalkedOfThree(s);
  }

  lemma {:induction false} WalkedOfThree(s: Links)
    requires s.Valid()
    ensures Walked(s) == Visited(s.next, s.tops[0], MCPX_HW_MAX_VOICES) + Visited(s.next, s.tops[1], MCPX_HW_MAX_VOICES)
                       + Visited(s.next, s.tops[2], MCPX_HW_MAX_VOICES)
  {
    hide Visited;
    var one: nat := 1;
    assert WalkedFirst(s, one) == WalkedFirst(s, one - 1) + Visited(s.next, s.tops[0], MCPX_HW_MAX_VOICES);
    assert WalkedFirst(s, one + 1) == WalkedFirst(s, one) + Visited(s.next, s.tops[1], MCPX_HW_MAX_VOICES);
    assert WalkedFirst(s, one + 2) == WalkedFirst(s, one + 1) + Visited(s.next, s.tops[2], MCPX_HW_MAX_VOICES);
  }

  lemma {:induction false} ChosenMembers(active: seq<bool>, seen: seq<Link>, v: Link)
    requires |active| == 0x1_0000
    ensures v in Chosen(active, seen) <==> v in seen && active[v]
    ensures |Chosen(active, seen)| <= |seen|
  {
    if seen != [] {
      var k := |seen| - 1;
      ChosenMembers(active, seen[..k], v);
      assert seen == seen[..k] + [seen[k]];
    }
  }

  lemma {:induction false} ChosenDistinct(active: seq<bool>, seen: seq<Link>)
    requires |active| == 0x1_0000 && Distinct(seen)
    ensures Distinct(Chosen(active, seen))
  {
    if seen != [] {
      var k := |seen| - 1;
      ChosenDistinct(active, seen[..k]);
      ChosenMembers(active, seen[..k], seen[k]);
      assert seen[k] !in seen[..k];
    }
  }

  /** So a frame's queue, on lists in order, holds each active listed voice exactly once and
      nothing else; it fits, and the walk aborts only at an idle voice that is not trapped. */
  lemma {:induction false} FrameQueue(s: Links, lists: seq<seq<Handle>>, active: seq<bool>)
    requires Represents(s, lists) && |active| == 0x1_0000
    ensures var queue := Chosen(active, Walked(s));
      && Distinct(queue) && |queue| <= MCPX_HW_MAX_VOICES
      && forall v: Link {:trigger v in queue} :: v in queue <==> v in All(lists) && active[v]
  {
    WalkSeesLists(s, lists);
    ChosenDistinct(active, Walked(s));
    forall v: Link ensures v in Chosen(active, Walked(s)) <==> v in All(lists) && active[v] {
      ChosenMembers(active, Walked(s), v);
    }
    ChosenMembers(active, Walked(s), 0);
  }

  // ---- A walk while a voice is being linked in ----

  ghost predicate AllValid(stages: seq<Links>) {
    |stages| == 3 && stages[0].Valid() && stages[1].Valid() && stages[2].Valid()
  }

  /** The memory before, between and after the two stores. */
  ghost function Stages(s: Links, on: Insertion): (r: seq<Links>)
    requires s.Valid() && on.Valid()
    ensures AllValid(r)
  {
    [s, FirstStore(s, on), Inserted(s, on)]
  }

  predicate Timed(phase: seq<nat>) {
    (forall r {:trigger phase[r]} :: 0 <= r < |phase| ==> phase[r] < 3)
    && (forall r, t {:trigger phase[r], phase[t]} :: 0 <= r <= t < |phase| ==> phase[r] <= phase[t])
  }

  /** The `r`th handle a walk of list `m` reads, when its `r`th read falls in stage
      `phase[r]`. */
  ghost function Seen(stages: seq<Links>, phase: seq<nat>, m: nat, r: nat): Link
    requires AllValid(stages)
    requires Timed(phase) && m < LISTS && r < |phase|
  {
    var s := stages[phase[r]];
    assert s.Valid();
    if r == 0 then s.tops[m] else s.next[Seen(stages, phase, m, r - 1)]
  }

  ghost predicate SeesPath(stages: seq<Links>, phase: seq<nat>, m: nat, path: seq<Handle>)
    requires AllValid(stages)
    requires Timed(phase) && m < LISTS
  {
    forall r {:trigger Seen(stages, phase, m, r)} :: 0 <= r < |phase| && r <= |path| ==>
      Seen(stages, phase, m, r) == LinkAt(path, r)
  }

  /** What read `r` finds in stage `k`, for a walk that is still on `path`. */
  ghost predicate Leads(s: Links, m: nat, path: seq<Handle>, r: nat)
    requires s.Valid() && m < LISTS && r <= |path|
  {
    (if r == 0 then s.tops[m] else s.next[path[r - 1]]) == LinkAt(path, r)
  }

  lemma {:induction false} SeesWhatLeads(stages: seq<Links>, phase: seq<nat>, m: nat, path: seq<Handle>, r: nat)
    requires AllValid(stages)
    requires Timed(phase) && m < LISTS && r < |phase| && r <= |path|
    requires forall t {:trigger phase[t]} :: 0 <= t <= r ==> Leads(stages[phase[t]], m, path, t)
    ensures Seen(stages, phase, m, r) == LinkAt(path, r)
  {
    if r > 0 { SeesWhatLeads(stages, phase, m, path, r - 1); }
  }

  lemma {:induction false} ChainLeads(s: Links, lists: seq<seq<Handle>>, m: nat, r: nat)
    requires Represents(s, lists) && m < LISTS && r <= |lists[m]|
    ensures Leads(s, m, lists[m], r)
  {
    if r > 0 { assert s.next[lists[m][r - 1]] == LinkAt(lists[m], r); }
  }

  lemma {:induction false} InsertAt(path: seq<Handle>, p: nat, h: Handle, r: nat)
    requires p <= |path|
    ensures LinkAt(Insert(path, p, h), r) == if r < p then LinkAt(path, r) else if r == p then h else LinkAt(path, r - 1)
  {
  }

  /** After both stores, every read but the one at the new voice finds what it did before. */
  lemma {:induction false} LastStageLeads(s: Links, lists: seq<seq<Handle>>, l: nat, p: nat, h: Handle, r: nat)
    requires |lists| == LISTS && l < LISTS && p <= |lists[l]|
    requires Represents(s, lists[l := Insert(lists[l], p, h)]) && r <= |lists[l]| && r != p
    ensures Leads(s, l, lists[l], r)
  {
    var after := lists[l := Insert(lists[l], p, h)];
    var r' := if r < p then r else r + 1;
    ChainLeads(s, after, l, r');
    InsertAt(lists[l], p, h, r');
    if r > 0 { InsertAt(lists[l], p, h, r' - 1); }
  }

  lemma {:induction false} SeesIfLed(stages: seq<Links>, phase: seq<nat>, m: nat, path: seq<Handle>)
    requires AllValid(stages) && Timed(phase) && m < LISTS
    requires forall t {:trigger phase[t]} :: 0 <= t < |phase| && t <= |path| ==> Leads(stages[phase[t]], m, path, t)
    ensures SeesPath(stages, phase, m, path)
  {
    hide Leads;
    forall r {:trigger Seen(stages, phase, m, r)} | 0 <= r < |phase| && r <= |path|
      ensures Seen(stages, phase, m, r) == LinkAt(path, r)
    {
      SeesWhatLeads(stages, phase, m, path, r);
    }
  }

  lemma {:induction false} OldListLeads(s: Links, lists: seq<seq<Handle>>, on: Insertion, l: nat, p: nat, m: nat,
        phase: seq<nat>, t: nat)
    requires Represents(s, lists) && on.Valid() && on.handle !in All(lists) && GoesTo(lists, on, l, p)
    requires Timed(phase) && m < LISTS && t < |phase| && t <= |lists[m]|
    requires m == l && p < |phase| ==> phase[p] < 2
    ensures Leads(Stages(s, on)[phase[t]], m, lists[m], t)
  {
    UnlistedGoesIn(s, lists, on, l, p);
    var after := lists[l := Insert(lists[l], p, on.handle)];
    if phase[t] < 2 {
      ChainLeads(Stages(s, on)[phase[t]], lists, m, t);
    } else if m == l {
      LastStageLeads(Inserted(s, on), lists, l, p, on.handle, t);
    } else {
      ChainLeads(Inserted(s, on), after, m, t);
    }
  }

  lemma {:induction false} NewListLeads(s: Links, lists: seq<seq<Handle>>, on: Insertion, l: nat, p: nat,
        phase: seq<nat>, t: nat)
    requires Represents(s, lists) && on.Valid() && on.handle !in All(lists) && GoesTo(lists, on, l, p)
    requires Timed(phase) && t < |phase| && p < |phase| && phase[p] == 2 && t <= |lists[l]| + 1
    ensures Leads(Stages(s, on)[phase[t]], l, Insert(lists[l], p, on.handle), t)
  {
    UnlistedGoesIn(s, lists, on, l, p);
    var after := lists[l := Insert(lists[l], p, on.handle)];
    if phase[t] == 2 {
      ChainLeads(Inserted(s, on), after, l, t);
    } else {
      assert t < p;
      ChainLeads(Stages(s, on)[phase[t]], lists, l, t);
      InsertAt(lists[l], p, on.handle, t);
      if t > 0 { InsertAt(lists[l], p, on.handle, t - 1); }
    }
  }

  lemma {:induction false} SeesNewList(s: Links, lists: seq<seq<Handle>>, on: Insertion, l: nat, p: nat,
        phase: seq<nat>)
    requires Represents(s, lists) && on.Valid() && on.handle !in All(lists) && GoesTo(lists, on, l, p)
    requires Timed(phase) && p < |phase| && phase[p] == 2
    ensures SeesPath(Stages(s, on), phase, l, Insert(lists[l], p, on.handle))
  {
    hide Leads;
    hide Chain;
    hide Distinct;
    hide SeesPath;
    hide Stages;
    var path := Insert(lists[l], p, on.handle);
    assert |path| == |lists[l]| + 1;
    hide Insert;
    forall t {:trigger phase[t]} | 0 <= t < |phase| && t <= |path| ensures Leads(Stages(s, on)[phase[t]], l, path, t) {
      NewListLeads(s, lists, on, l, p, phase, t);
    }
    SeesIfLed(Stages(s, on), phase, l, path);
  }

  lemma {:induction false} SeesOldList(s: Links, lists: seq<seq<Handle>>, on: Insertion, l: nat, p: nat, m: nat,
        phase: seq<nat>)
    requires Represents(s, lists) && on.Valid() && on.handle !in All(lists) && GoesTo(lists, on, l, p)
    requires Timed(phase) && m < LISTS && (m == l && p < |phase| ==> phase[p] < 2)
    ensures SeesPath(Stages(s, on), phase, m, lists[m])
  {
    hide Leads;
    hide Chain;
    hide Distinct;
    hide SeesPath;
    hide Stages;
    forall t {:trigger phase[t]} | 0 <= t < |phase| && t <= |lists[m]| ensures Leads(Stages(s, on)[phase[t]], m, lists[m], t) {
      OldListLeads(s, lists, on, l, p, m, phase, t);
    }
    SeesIfLed(Stages(s, on), phase, m, lists[m]);
  }

  /** A walk that runs across the stores sees the list it walks as it was before, or as it is
      after, never a mixture. */
  lemma {:induction false} WalkAcrossStores(s: Links, lists: seq<seq<Handle>>, on: Insertion, l: nat, p: nat, m: nat,
        phase: seq<nat>)
    requires Represents(s, lists) && on.Valid() && on.handle !in All(lists) && GoesTo(lists, on, l, p)
    requires Timed(phase) && m < LISTS
    ensures SeesPath(Stages(s, on), phase, m, lists[m])
         || SeesPath(Stages(s, on), phase, m, lists[l := Insert(lists[l], p, on.handle)][m])
  {
    hide SeesPath;
    hide Stages;
    if m == l && p < |phase| && phase[p] == 2 {
      SeesNewList(s, lists, on, l, p, phase);
    } else {
      SeesOldList(s, lists, on, l, p, m, phase);
    }
  }
}
