/** The cache of combiner shaders: an open-addressing table of 128 entries with any hash, least
    recently used eviction, and in front of it one remembered shader for each alpha-test
    variant of the current state. */
module ShaderCache {
  import opened Common

  const COMBINER_CACHE_SIZE: nat := 128
  const UINT32_MAX: nat := 0xFFFF_FFFF

  /** What decides a shader: what was parsed from the pixel shader's words, which stages
      compare shadows, and the alpha-test variant. */
  datatype Key<B> = Key(parsed: B, shadow: seq<bool>, alphaTest: bool)

  /** A shader is known by a number; an entry whose shader is gone has none. */
  datatype Entry<B> = Entry(inUse: bool, key: Key<B>, shader: Option<nat>, lastUsed: nat)

  /** When a slot's shader was last looked up, and last drawn with: how many draws had been made
      before. The program does not keep this. */
  datatype Use = Use(lookedUp: nat, drawn: nat)

  /** Equal but for the alpha test. */
  predicate SameState<B(==)>(a: Key<B>, b: Key<B>) {
    a.parsed == b.parsed && a.shadow == b.shadow
  }

  predicate HasShader<B>(e: Entry<B>) {
    e.inUse && e.shader.Some?
  }

  /** What a 32-bit counter shows. */
  function Wrapped(n: nat): (w: nat)
    ensures w <= UINT32_MAX && (n <= UINT32_MAX ==> w == n)
  {
    n % 0x1_0000_0000
  }

  /** The slot `p` places after `home`. */
  function Slot(home: nat, p: nat): (s: nat)
    requires home < COMBINER_CACHE_SIZE && p < COMBINER_CACHE_SIZE
    ensures s < COMBINER_CACHE_SIZE
  {
    if home + p < COMBINER_CACHE_SIZE then home + p else home + p - COMBINER_CACHE_SIZE
  }

  /** How far slot `i` is from `home`. */
  function Distance(home: nat, i: nat): (p: nat)
    requires home < COMBINER_CACHE_SIZE && i < COMBINER_CACHE_SIZE
    ensures p < COMBINER_CACHE_SIZE && Slot(home, p) == i
  {
    if home <= i then i - home else i + COMBINER_CACHE_SIZE - home
  }

  function Home<B>(hash: Key<B> -> nat, key: Key<B>): (h: nat)
    ensures h < COMBINER_CACHE_SIZE
  {
    hash(key) % 128
  }

  /** No key is in the table twice. */
  ghost predicate KeysDistinct<B(!new)>(t: seq<Entry<B>>) {
    forall i, j {:trigger t[i], t[j]} :: 0 <= i < j < |t| && t[i].inUse && t[j].inUse ==> t[i].key != t[j].key
  }

  /** Every slot a probe for the key of slot `i` passes before it is in use. */
  ghost predicate Reached<B>(t: seq<Entry<B>>, hash: Key<B> -> nat, i: nat)
    requires |t| == COMBINER_CACHE_SIZE && i < |t|
  {
    forall p {:trigger Slot(Home(hash, t[i].key), p)} :: 0 <= p < Distance(Home(hash, t[i].key), i) ==>
      t[Slot(Home(hash, t[i].key), p)].inUse
  }

  ghost predicate Reachable<B(!new)>(t: seq<Entry<B>>, hash: Key<B> -> nat)
    requires |t| == COMBINER_CACHE_SIZE
  {
    forall i {:trigger t[i]} :: 0 <= i < |t| && t[i].inUse ==> Reached(t, hash, i)
  }

  /** The shaders of the table are just the live ones, each held by one entry and generated
      from that entry's key. `made` gives the key each live shader was generated from. */
  ghost predicate ShadersMatch<B(!new)>(t: seq<Entry<B>>, made: map<nat, Key<B>>) {
    && (forall i {:trigger t[i]} :: 0 <= i < |t| && t[i].inUse && t[i].shader.Some? ==>
         t[i].shader.value in made && made[t[i].shader.value] == t[i].key)
    && (forall x {:trigger x in made} :: x in made ==>
         exists i {:trigger t[i]} :: 0 <= i < |t| && t[i].inUse && t[i].shader == Some(x))
  }

  ghost predicate TableValid<B(!new)>(t: seq<Entry<B>>, hash: Key<B> -> nat, made: map<nat, Key<B>>) {
    |t| == COMBINER_CACHE_SIZE && KeysDistinct(t) && Reachable(t, hash) && ShadersMatch(t, made)
  }

  ghost predicate Has<B(!new)>(t: seq<Entry<B>>, key: Key<B>) {
    exists i {:trigger t[i]} :: 0 <= i < |t| && t[i].inUse && t[i].key == key
  }

  /** A probe passes every entry of its key before it comes to a free slot. */
  lemma {:induction false} PresentIsPassed<B(!new)>(t: seq<Entry<B>>, hash: Key<B> -> nat, made: map<nat, Key<B>>,
        i: nat, n: nat)
    requires TableValid(t, hash, made) && i < |t| && t[i].inUse && n <= COMBINER_CACHE_SIZE
    requires n < COMBINER_CACHE_SIZE ==> !t[Slot(Home(hash, t[i].key), n)].inUse
    ensures var p := Distance(Home(hash, t[i].key), i);
      p < n && Slot(Home(hash, t[i].key), p) == i
  {
    assert Reached(t, hash, i);
  }

  /** So one that has seen only other keys, up to a free slot or all around, shows that its key
      is not there. */
  lemma {:induction false} NotPresent<B(!new)>(t: seq<Entry<B>>, hash: Key<B> -> nat, made: map<nat, Key<B>>,
        key: Key<B>, n: nat)
    requires TableValid(t, hash, made) && n <= COMBINER_CACHE_SIZE
    requires forall p {:trigger Slot(Home(hash, key), p)} :: 0 <= p < n ==> t[Slot(Home(hash, key), p)].key != key
    requires n < COMBINER_CACHE_SIZE ==> !t[Slot(Home(hash, key), n)].inUse
    ensures !Has(t, key)
  {
    forall i {:trigger t[i]} | 0 <= i < |t| && t[i].inUse ensures t[i].key != key {
      if t[i].key == key { PresentIsPassed(t, hash, made, i, n); }
    }
  }

  /** A new entry at the free slot its probe stopped at. */
  lemma {:induction false} InsertKeeps<B(!new)>(t: seq<Entry<B>>, hash: Key<B> -> nat, made: map<nat, Key<B>>,
        key: Key<B>, n: nat, x: nat, now: nat)
    requires TableValid(t, hash, made) && n < COMBINER_CACHE_SIZE && !Has(t, key) && x !in made
    requires forall p {:trigger Slot(Home(hash, key), p)} :: 0 <= p < n ==> t[Slot(Home(hash, key), p)].inUse
    requires !t[Slot(Home(hash, key), n)].inUse
    ensures TableValid(t[Slot(Home(hash, key), n) := Entry(true, key, Some(x), now)], hash, made[x := key])
  {
    var s := Slot(Home(hash, key), n);
    var t' := t[s := Entry(true, key, Some(x), now)];
    InsertShaders(t, made, s, key, x, now);
    forall i {:trigger t'[i]} | 0 <= i < |t'| && t'[i].inUse ensures Reached(t', hash, i) {
      if i == s {
        assert Distance(Home(hash, key), s) == n;
      } else {
        assert Reached(t, hash, i);
      }
    }
    forall i, j {:trigger t'[i], t'[j]} | 0 <= i < j < |t'| && t'[i].inUse && t'[j].inUse ensures t'[i].key != t'[j].key {
      assert i != s ==> t[i].inUse;
      assert j != s ==> t[j].inUse;
    }
  }

  lemma {:induction false} InsertShaders<B(!new)>(t: seq<Entry<B>>, made: map<nat, Key<B>>, s: nat, key: Key<B>,
        x: nat, now: nat)
    requires ShadersMatch(t, made) && s < |t| && !t[s].inUse && x !in made
    ensures ShadersMatch(t[s := Entry(true, key, Some(x), now)], made[x := key])
  {
    var t', made' := t[s := Entry(true, key, Some(x), now)], made[x := key];
    assert t'[s].shader == Some(x);
    forall y {:trigger y in made'} | y in made'
      ensures exists i {:trigger t'[i]} :: 0 <= i < |t'| && t'[i].inUse && t'[i].shader == Some(y)
    {
      if y != x {
        var i :| 0 <= i < |t| && t[i].inUse && t[i].shader == Some(y);
        assert t'[i] == t[i];
      }
    }
  }

  /** The state of the cache once the shader of slot `s` has been destroyed. */
  function Without<B>(t: seq<Entry<B>>, made: map<nat, Key<B>>, s: nat): map<nat, Key<B>>
    requires s < |t|
  {
    if t[s].shader.Some? then made - {t[s].shader.value} else made
  }

  lemma {:induction false} DestroyKeeps<B(!new)>(t: seq<Entry<B>>, hash: Key<B> -> nat, made: map<nat, Key<B>>,
        s: nat)
    requires TableValid(t, hash, made) && s < |t| && t[s].inUse
    ensures TableValid(t[s := t[s].(shader := None)], hash, Without(t, made, s))
  {
    var t', made' := t[s := t[s].(shader := None)], Without(t, made, s);
    forall i {:trigger t'[i]} | 0 <= i < |t'| && t'[i].inUse ensures Reached(t', hash, i) {
      assert Reached(t, hash, i);
    }
    forall i {:trigger t'[i]} | 0 <= i < |t'| && t'[i].inUse && t'[i].shader.Some?
      ensures t'[i].shader.value in made' && made'[t'[i].shader.value] == t'[i].key
    {
      assert t'[i] == t[i];
    }
    forall y {:trigger y in made'} | y in made'
      ensures exists i {:trigger t'[i]} :: 0 <= i < |t'| && t'[i].inUse && t'[i].shader == Some(y)
    {
      var i :| 0 <= i < |t| && t[i].inUse && t[i].shader == Some(y);
      assert t'[i] == t[i];
    }
  }

  /** A full table takes a new key in place of any of its entries. */
  lemma {:induction false} ReplaceKeeps<B(!new)>(t: seq<Entry<B>>, hash: Key<B> -> nat, made: map<nat, Key<B>>,
        s: nat, key: Key<B>, x: nat, now: nat)
    requires TableValid(t, hash, made) && s < |t| && t[s].shader.None? && !Has(t, key) && x !in made
    requires forall i {:trigger t[i]} :: 0 <= i < |t| ==> t[i].inUse
    ensures TableValid(t[s := Entry(true, key, Some(x), now)], hash, made[x := key])
  {
    var t', made' := t[s := Entry(true, key, Some(x), now)], made[x := key];
    assert t'[s].shader == Some(x);
    forall i {:trigger t'[i]} | 0 <= i < |t'| ensures t'[i].inUse && Reached(t', hash, i) {
      assert i != s ==> t[i].inUse;
    }
    forall i, j {:trigger t'[i], t'[j]} | 0 <= i < j < |t'| ensures t'[i].key != t'[j].key {
      assert t[i].inUse && t[j].inUse;
    }
    forall y {:trigger y in made'} | y in made'
      ensures exists i {:trigger t'[i]} :: 0 <= i < |t'| && t'[i].inUse && t'[i].shader == Some(y)
    {
      if y != x {
        var i :| 0 <= i < |t| && t[i].inUse && t[i].shader == Some(y);
        assert t'[i] == t[i];
      }
    }
  }

  lemma {:induction false} TouchKeeps<B(!new)>(t: seq<Entry<B>>, hash: Key<B> -> nat, made: map<nat, Key<B>>, s: nat,
        now: nat)
    requires TableValid(t, hash, made) && s < |t|
    ensures TableValid(t[s := t[s].(lastUsed := now)], hash, made)
  {
    var t' := t[s := t[s].(lastUsed := now)];
    assert forall i {:trigger t'[i]} :: 0 <= i < |t| ==>
      t'[i].inUse == t[i].inUse && t'[i].key == t[i].key && t'[i].shader == t[i].shader;
    forall i {:trigger t'[i]} | 0 <= i < |t'| && t'[i].inUse ensures Reached(t', hash, i) {
      assert Reached(t, hash, i);
    }
    forall y {:trigger y in made} | y in made
      ensures exists i {:trigger t'[i]} :: 0 <= i < |t'| && t'[i].inUse && t'[i].shader == Some(y)
    {
      var i :| 0 <= i < |t| && t[i].inUse && t[i].shader == Some(y);
      assert t'[i].shader == Some(y);
    }
  }

  /** A probe that went all the way around has seen every slot. */
  lemma {:induction false} AllInUse<B>(t: seq<Entry<B>>, hash: Key<B> -> nat, key: Key<B>)
    requires |t| == COMBINER_CACHE_SIZE
    requires forall p {:trigger Slot(Home(hash, key), p)} :: 0 <= p < COMBINER_CACHE_SIZE ==> t[Slot(Home(hash, key), p)].inUse
    ensures forall i {:trigger t[i]} :: 0 <= i < |t| ==> t[i].inUse
  {
    forall i {:trigger t[i]} | 0 <= i < |t| ensures t[i].inUse {
      assert Slot(Home(hash, key), Distance(Home(hash, key), i)) == i;
    }
  }

  // ---- Lookups and draws ----

  /** Before draw `now`: the frame of an entry is that of its last lookup, and a lookup that
      gave a shader was followed by a draw with it. */
  ghost predicate Dated<B>(t: seq<Entry<B>>, uses: seq<Use>, now: nat) {
    && |uses| == |t|
    && forall i {:trigger t[i]} :: 0 <= i < |t| && t[i].inUse ==>
         && t[i].lastUsed == Wrapped(uses[i].lookedUp) && uses[i].lookedUp <= now && uses[i].drawn < now
         && (t[i].shader.Some? ==> uses[i].lookedUp < now)
  }

  /** Slots are drawn with in the order they were looked up, but for the two variants of one
      state: a draw from the memo is no lookup. */
  ghost predicate InOrder<B(!new)>(t: seq<Entry<B>>, uses: seq<Use>) {
    && |uses| == |t|
    && forall i, j {:trigger t[i], t[j]} :: 0 <= i < |t| && 0 <= j < |t| && t[i].inUse && HasShader(t[j]) ==>
         uses[i].lookedUp <= uses[j].lookedUp ==> uses[i].drawn <= uses[j].drawn || SameState(t[i].key, t[j].key)
  }

  /** Since the lookup of `key` only that state was looked up. */
  ghost predicate Latest<B(!new)>(t: seq<Entry<B>>, uses: seq<Use>, key: Key<B>) {
    && |uses| == |t|
    && forall i, j {:trigger t[i], t[j]} :: 0 <= i < |t| && 0 <= j < |t| && HasShader(t[i]) && HasShader(t[j]) && t[i].key == key ==>
         uses[i].lookedUp <= uses[j].lookedUp ==> SameState(key, t[j].key)
  }

  lemma {:induction false} OnlyOneAt<B(!new)>(t: seq<Entry<B>>, key: Key<B>, i: nat, s: nat)
    requires KeysDistinct(t) && i < |t| && s < |t| && t[i].inUse && t[s].inUse && t[i].key == key == t[s].key
    ensures i == s
  {
  }

  /** A lookup that gives a shader. */
  lemma {:induction false} LookupKeepsOrder<B(!new)>(t: seq<Entry<B>>, uses: seq<Use>, now: nat, s: nat, e: Entry<B>)
    requires Dated(t, uses, now) && InOrder(t, uses) && s < |t| && HasShader(e) && e.lastUsed == Wrapped(now)
    requires KeysDistinct(t[s := e])
    ensures Dated(t[s := e], uses[s := Use(now, now)], now + 1) && InOrder(t[s := e], uses[s := Use(now, now)])
    ensures Latest(t[s := e], uses[s := Use(now, now)], e.key)
    ensures forall k {:trigger Latest(t, uses, k)} :: Latest(t, uses, k) && SameState(k, e.key) ==>
      Latest(t[s := e], uses[s := Use(now, now)], k)
  {
    hide Wrapped;
    var t', u := t[s := e], uses[s := Use(now, now)];
    assert forall i {:trigger t'[i]} :: 0 <= i < |t'| && i != s ==> t'[i] == t[i] && u[i] == uses[i];
    assert forall i {:trigger t'[i]} :: 0 <= i < |t'| && t'[i].inUse ==> (i == s || t[i].inUse) && u[i].drawn <= now;
    assert forall i {:trigger t'[i]} :: 0 <= i < |t'| && HasShader(t'[i]) && now <= u[i].lookedUp ==> i == s;
    forall i {:trigger t'[i]} | 0 <= i < |t'| && t'[i].key == e.key && HasShader(t'[i]) ensures i == s {
      OnlyOneAt(t', e.key, i, s);
    }
  }

  /** A lookup that finds an entry without a shader, which is drawn with no more. */
  lemma {:induction false} EmptyLookupKeepsOrder<B(!new)>(t: seq<Entry<B>>, uses: seq<Use>, now: nat, s: nat)
    requires Dated(t, uses, now) && InOrder(t, uses) && s < |t| && t[s].inUse && t[s].shader.None?
    ensures var t', u := t[s := t[s].(lastUsed := Wrapped(now))], uses[s := uses[s].(lookedUp := now)];
      Dated(t', u, now) && InOrder(t', u) && forall k {:trigger Latest(t, uses, k)} :: Latest(t, uses, k) ==> Latest(t', u, k)
  {
    hide Wrapped;
    var t', u := t[s := t[s].(lastUsed := Wrapped(now))], uses[s := uses[s].(lookedUp := now)];
    assert forall i {:trigger t'[i]} :: 0 <= i < |t'| && i != s ==> t'[i] == t[i] && u[i] == uses[i];
    assert forall i {:trigger t'[i]} :: 0 <= i < |t'| ==>
      t'[i].inUse == t[i].inUse && t'[i].key == t[i].key && t'[i].shader == t[i].shader;
  }

  /** An entry that loses its shader. */
  lemma {:induction false} EmptiedKeepsOrder<B(!new)>(t: seq<Entry<B>>, uses: seq<Use>, now: nat, s: nat)
    requires Dated(t, uses, now) && InOrder(t, uses) && s < |t|
    ensures var t' := t[s := t[s].(shader := None)];
      Dated(t', uses, now) && InOrder(t', uses) && forall k {:trigger Latest(t, uses, k)} :: Latest(t, uses, k) ==> Latest(t', uses, k)
  {
    var t' := t[s := t[s].(shader := None)];
    assert forall i {:trigger t'[i]} :: 0 <= i < |t'| ==>
      t'[i].inUse == t[i].inUse && t'[i].key == t[i].key && t'[i].lastUsed == t[i].lastUsed && (HasShader(t'[i]) ==> HasShader(t[i]));
  }

  /** A draw from the memo. */
  lemma {:induction false} DrawKeepsOrder<B(!new)>(t: seq<Entry<B>>, uses: seq<Use>, now: nat, s: nat)
    requires Dated(t, uses, now) && InOrder(t, uses) && s < |t| && HasShader(t[s]) && Latest(t, uses, t[s].key)
    ensures var u := uses[s := uses[s].(drawn := now)];
      Dated(t, u, now + 1) && InOrder(t, u) && forall k {:trigger Latest(t, uses, k)} :: Latest(t, uses, k) ==> Latest(t, u, k)
  {
    hide Wrapped;
    var u := uses[s := uses[s].(drawn := now)];
    assert forall i {:trigger t[i]} :: 0 <= i < |t| ==> u[i].lookedUp == uses[i].lookedUp && (i != s ==> u[i] == uses[i]);
  }

  /** No slot was looked up before slot `s`. */
  ghost predicate LeastLookedUp<B>(t: seq<Entry<B>>, uses: seq<Use>, s: nat)
    requires |uses| == |t| && s < |t|
  {
    forall i {:trigger t[i]} :: 0 <= i < |t| && t[i].inUse ==> uses[s].lookedUp <= uses[i].lookedUp
  }

  /** No shader was last drawn with before that of slot `s`. */
  ghost predicate LeastDrawn<B>(t: seq<Entry<B>>, uses: seq<Use>, s: nat)
    requires |uses| == |t| && s < |t|
  {
    forall i {:trigger t[i]} :: 0 <= i < |t| && HasShader(t[i]) ==> uses[s].drawn <= uses[i].drawn
  }

  /** The slot looked up least recently is the one drawn with least recently, if and only if the
      other variant of its own state was not drawn with before it. */
  lemma {:induction false} LeastDrawnIff<B(!new)>(t: seq<Entry<B>>, uses: seq<Use>, s: nat)
    requires InOrder(t, uses) && s < |t| && t[s].inUse && LeastLookedUp(t, uses, s)
    ensures LeastDrawn(t, uses, s) <==>
      forall i {:trigger t[i]} :: 0 <= i < |t| && HasShader(t[i]) && SameState(t[s].key, t[i].key) ==> uses[s].drawn <= uses[i].drawn
  {
    hide SameState;
    assert forall i {:trigger t[i]} :: 0 <= i < |t| && HasShader(t[i]) ==> uses[s].lookedUp <= uses[i].lookedUp;
  }

  /** Frames order the slots as their lookups do until the counter wraps. */
  lemma {:induction false} LeastFrame<B>(t: seq<Entry<B>>, uses: seq<Use>, now: nat, s: nat)
    requires Dated(t, uses, now) && Full(t) && s < |t| && now <= UINT32_MAX
    requires forall i {:trigger t[i]} :: 0 <= i < |t| ==> t[s].lastUsed <= t[i].lastUsed
    ensures LeastLookedUp(t, uses, s)
  {
    hide Wrapped;
  }

  lemma {:induction false} NextWrapped(n: nat)
    ensures Wrapped(n + 1) == if Wrapped(n) == UINT32_MAX then 0 else Wrapped(n) + 1
  {
  }

  // ---- The cache ----

  predicate Full<B>(t: seq<Entry<B>>) {
    forall i {:trigger t[i]} :: 0 <= i < |t| ==> t[i].inUse
  }

  /** The table after a lookup of `key` that ends at slot `s`: a present key is found; an absent
      one gets the slot with its new shader; if the compiler refuses that, a full table has
      already given up the slot's old one. */
  ghost function LookedUp<B(!new)>(t: seq<Entry<B>>, key: Key<B>, ok: bool, shader: Option<nat>, s: nat,
        frame: nat): (r: seq<Entry<B>>)
    requires s < |t|
    ensures |r| == |t|
  {
    if Has(t, key) then t[s := t[s].(lastUsed := frame)]
    else if ok then t[s := Entry(true, key, shader, frame)]
    else if Full(t) then t[s := t[s].(shader := None)]
    else t
  }

  /** Where a lookup ends. */
  ghost predicate EndsAt<B(!new)>(t: seq<Entry<B>>, uses: seq<Use>, key: Key<B>, now: nat, s: nat)
    requires |uses| == |t| && s < |t|
  {
    if Has(t, key) then t[s].inUse && t[s].key == key
    else if Full(t) then now <= UINT32_MAX ==> LeastLookedUp(t, uses, s)
    else !t[s].inUse
  }

  function UsesAfter(uses: seq<Use>, found: bool, shader: Option<nat>, now: nat, s: nat): (r: seq<Use>)
    requires s < |uses|
    ensures |r| == |uses|
  {
    if shader.Some? then uses[s := Use(now, now)]
    else if found then uses[s := uses[s].(lookedUp := now)]
    else uses
  }

  /** A lookup of `key` that ends at slot `s` with `shader` takes the table and the uses to `t'`
      and `uses'`. */
  ghost predicate IsLookup<B(!new)>(t: seq<Entry<B>>, uses: seq<Use>, t': seq<Entry<B>>, uses': seq<Use>, key: Key<B>,
        ok: bool, shader: Option<nat>, now: nat, s: nat)
  {
    && |t| == |t'| == |uses| == |uses'| == COMBINER_CACHE_SIZE && s < COMBINER_CACHE_SIZE && EndsAt(t, uses, key, now, s)
    && t' == LookedUp(t, key, ok, shader, s, Wrapped(now)) && uses' == UsesAfter(uses, Has(t, key), shader, now, s)
    && (Has(t, key) ==> shader == t[s].shader) && (!Has(t, key) ==> (shader.Some? <==> ok))
  }

  /** No entry has lost its shader. */
  ghost predicate Complete<B>(t: seq<Entry<B>>) {
    forall i {:trigger t[i]} :: 0 <= i < |t| && t[i].inUse ==> t[i].shader.Some?
  }

  /** A complete table stays so unless a lookup evicts for a shader that is then refused. */
  lemma {:induction false} CompleteIff<B(!new)>(t: seq<Entry<B>>, uses: seq<Use>, t': seq<Entry<B>>, uses': seq<Use>,
        key: Key<B>, ok: bool, shader: Option<nat>, now: nat, s: nat)
    requires IsLookup(t, uses, t', uses', key, ok, shader, now, s)
    ensures Complete(t) ==> (Complete(t') <==> ok || Has(t, key) || !Full(t))
    ensures Complete(t) ==> (shader.Some? <==> ok || Has(t, key))
  {
    assert forall i {:trigger t'[i]} :: 0 <= i < |t| && i != s ==> t'[i] == t[i];
    assert !ok && !Has(t, key) && !Full(t) ==> t' == t;
    if !ok && !Has(t, key) && Full(t) {
      assert t'[s].inUse && t'[s].shader.None?;
    }
  }

  /** A shader refused in a full table costs the state that was evicted its own: the next lookup
      of that state finds its entry, and nothing in it, whatever the compiler would have said. */
  lemma {:induction false} RefusedShaderLosesOld<B(!new)>(t: seq<Entry<B>>, u: seq<Use>, t': seq<Entry<B>>, u': seq<Use>,
        key: Key<B>, shader: Option<nat>, now: nat, s: nat, t'': seq<Entry<B>>, u'': seq<Use>, ok: bool,
        shader': Option<nat>, now': nat, s': nat)
    requires KeysDistinct(t) && Full(t) && !Has(t, key) && IsLookup(t, u, t', u', key, false, shader, now, s)
    requires IsLookup(t', u', t'', u'', t[s].key, ok, shader', now', s')
    ensures s' == s && shader' == None
  {
    assert t[s].inUse && t'[s].inUse && t'[s].key == t[s].key;
    assert Has(t', t[s].key);
    assert forall i {:trigger t'[i]} :: 0 <= i < |t| && i != s ==> t'[i] == t[i];
    OnlyOneAt(t, t[s].key, s', s);
  }

  lemma {:induction false} LookupTimed<B(!new)>(t: seq<Entry<B>>, uses: seq<Use>, t': seq<Entry<B>>, uses': seq<Use>,
        key: Key<B>, ok: bool, shader: Option<nat>, now: nat, s: nat)
    requires Dated(t, uses, now) && InOrder(t, uses) && IsLookup(t, uses, t', uses', key, ok, shader, now, s) && KeysDistinct(t')
    ensures Dated(t', uses', if shader.Some? then now + 1 else now) && InOrder(t', uses')
    ensures shader.Some? ==> t'[s].inUse && t'[s].key == key && t'[s].shader == shader && Latest(t', uses', key)
    ensures forall k {:trigger Latest(t, uses, k)} :: Latest(t, uses, k) && SameState(k, key) ==> Latest(t', uses', k)
  {
    if shader.Some? {
      assert t' == t[s := t'[s]];
      LookupKeepsOrder(t, uses, now, s, t'[s]);
    } else if Has(t, key) {
      EmptyLookupKeepsOrder(t, uses, now, s);
    } else if Full(t) {
      EmptiedKeepsOrder(t, uses, now, s);
    }
  }

  class Cache<B(==,!new)> {
    const hash: Key<B> -> nat
    const entries: array<Entry<B>>
    /** The shader remembered for each alpha-test variant. */
    var lastShader: (Option<nat>, Option<nat>)
    /** The state as last parsed, with this draw's shadow stages and alpha-test variant. */
    var current: Key<B>
    var dirty: bool
    var frame: nat
    /** The live shaders, and the key each was generated from. */
    var made: map<nat, Key<B>>
    var nextShader: nat
    /** How many draws were made, and when each slot was used. */
    ghost var draws: nat
    ghost var uses: seq<Use>

    ghost predicate Valid()
      reads this, entries
    {
      Sound() && Timed(draws) && (!dirty ==> MemoLatest())
    }

    ghost predicate Sound()
      reads `lastShader, `current, `dirty, `frame, `made, `nextShader, entries
    {
      && TableValid(entries[..], hash, made)
      && (forall x {:trigger x in made} :: x in made ==> x < nextShader)
      && |current.shadow| == 4 && frame <= UINT32_MAX
      && (forall i {:trigger entries[i]} :: 0 <= i < entries.Length ==> entries[i].lastUsed <= UINT32_MAX)
      && (!dirty ==> Remembers(false, lastShader.0) && Remembers(true, lastShader.1))
    }

    /** A remembered shader is live and was generated from the current state's variant. */
    ghost predicate Remembers(variant: bool, shader: Option<nat>)
      reads `current, `made
    {
      shader.Some? ==> shader.value in made && made[shader.value] == current.(alphaTest := variant)
    }

    /** The slots were used in order, up to draw `now`. */
    ghost predicate Timed(now: nat)
      reads `frame, `draws, `uses, entries
    {
      frame == Wrapped(draws) && Dated(entries[..], uses, now) && InOrder(entries[..], uses)
    }

    /** The same, and of the memo, of a table that is being changed. */
    ghost predicate Recorded(t: seq<Entry<B>>)
      reads `lastShader, `current, `frame, `draws, `uses
    {
      && frame == Wrapped(draws) && Dated(t, uses, draws) && InOrder(t, uses)
      && (lastShader.0.Some? ==> Latest(t, uses, current.(alphaTest := false)))
      && (lastShader.1.Some? ==> Latest(t, uses, current.(alphaTest := true)))
    }

    /** Only the current state was looked up since a remembered shader was. */
    ghost predicate MemoLatest()
      reads `lastShader, `current, `uses, entries
    {
      && (lastShader.0.Some? ==> Latest(entries[..], uses, current.(alphaTest := false)))
      && (lastShader.1.Some? ==> Latest(entries[..], uses, current.(alphaTest := true)))
    }

    constructor (hash: Key<B> -> nat, start: Key<B>)
      requires |start.shadow| == 4
      ensures Valid() && dirty && fresh(entries) && this.hash == hash && frame == 0 && draws == 0
      ensures forall i {:trigger entries[i]} :: 0 <= i < entries.Length ==> !entries[i].inUse
    {
      this.hash := hash;
      entries := new Entry<B>[COMBINER_CACHE_SIZE](i => Entry(false, start, None, 0));
      lastShader := (None, None);
      current := start;
      dirty := true;
      frame := 0;
      made := map[];
      nextShader := 0;
      draws := 0;
      uses := seq(COMBINER_CACHE_SIZE, i => Use(0, 0));
    }

    /** Generates and compiles; `ok` is whether the host compiler accepts the shader. */
    method CompileShader(key: Key<B>, ok: bool) returns (shader: Option<nat>)
      requires forall x {:trigger x in made} :: x in made ==> x < nextShader
      modifies `made, `nextShader
      ensures ok <==> shader.Some?
      ensures ok ==> shader.value !in old(made) && made == old(made)[shader.value := key]
      ensures !ok ==> made == old(made)
      ensures forall x {:trigger x in made} :: x in made ==> x < nextShader
    {
      if !ok {
        return None;
      }
      made := made[nextShader := key];
      shader := Some(nextShader);
      nextShader := nextShader + 1;
    }

    method ForgetLastShaders()
      modifies `lastShader
      ensures lastShader == (None, None)
    {
      lastShader := (None, None);
    }

    /** Where the probe for `key` ends: at its entry, at a free slot, or back at the start. */
    method Probe(key: Key<B>) returns (n: nat, found: bool)
      requires Sound()
      ensures n <= COMBINER_CACHE_SIZE
      ensures found ==>
        n < COMBINER_CACHE_SIZE && entries[Slot(Home(hash, key), n)].inUse && entries[Slot(Home(hash, key), n)].key == key
      ensures forall p {:trigger Slot(Home(hash, key), p)} :: 0 <= p < n ==> entries[Slot(Home(hash, key), p)].inUse
      ensures !found ==> !Has(entries[..], key) && (n < COMBINER_CACHE_SIZE ==> !entries[Slot(Home(hash, key), n)].inUse)
    {
      var home := Home(hash, key);
      n := 0;
      while n < COMBINER_CACHE_SIZE
        invariant 0 <= n <= COMBINER_CACHE_SIZE
        invariant forall p {:trigger Slot(home, p)} :: 0 <= p < n ==> entries[Slot(home, p)].inUse && entries[Slot(home, p)].key != key
      {
        var slot := Slot(home, n);
        if !entries[slot].inUse {
          NotPresent(entries[..], hash, made, key, n);
          return n, false;
        }
        if entries[slot].key == key {
          return n, true;
        }
        n := n + 1;
      }
      NotPresent(entries[..], hash, made, key, n);
      return n, false;
    }

    /** The first entry with the smallest frame; `home` if no frame is below the largest. */
    method LeastRecentlyUsed(home: nat) returns (slot: nat)
      requires entries.Length == COMBINER_CACHE_SIZE && home < COMBINER_CACHE_SIZE
      requires forall i :: 0 <= i < entries.Length ==> entries[i].lastUsed <= UINT32_MAX
      ensures slot < COMBINER_CACHE_SIZE
      ensures forall i :: 0 <= i < entries.Length ==> entries[slot].lastUsed <= entries[i].lastUsed
    {
      slot := home;
      var lruFrame := UINT32_MAX;
      for probe := 0 to COMBINER_CACHE_SIZE
        invariant slot < COMBINER_CACHE_SIZE && lruFrame <= UINT32_MAX
        invariant lruFrame == UINT32_MAX || entries[slot].lastUsed == lruFrame
        invariant forall i :: 0 <= i < probe ==> lruFrame <= entries[i].lastUsed
      {
        if entries[probe].lastUsed < lruFrame {
          lruFrame := entries[probe].lastUsed;
          slot := probe;
        }
      }
    }

    /** A shader for `key`: the table's if it has one, else a new one, in a free slot or in
        place of the one least recently looked up. */
    method LookUp(key: Key<B>, ok: bool) returns (shader: Option<nat>, ghost slot: nat)
      requires Valid() && !dirty
      modifies `made, `nextShader, `lastShader, entries
      ensures Recorded(old(entries[..])) && Sound() && KeysDistinct(entries[..]) && entries.Length == COMBINER_CACHE_SIZE
      ensures shader.Some? ==> shader.value in made && made[shader.value] == key
      ensures slot < COMBINER_CACHE_SIZE && EndsAt(old(entries[..]), uses, key, draws, slot)
      ensures entries[..] == LookedUp(old(entries[..]), key, ok, shader, slot, frame)
      ensures old(Has(entries[..], key)) ==> shader == old(entries[slot].shader) && made == old(made)
      ensures !old(Has(entries[..], key)) ==> (shader.Some? <==> ok)
      ensures old(Has(entries[..], key)) || !old(Full(entries[..])) ==> lastShader == old(lastShader)
      ensures lastShader.0 in {None, old(lastShader.0)} && lastShader.1 in {None, old(lastShader.1)}
    {
      ghost var before := entries[..];
      assert |before| == COMBINER_CACHE_SIZE == |uses|;
      var n, found := Probe(key);
      hide TableValid, Dated, InOrder, Latest, Wrapped, Remembers, Home, Slot, Distance, HasShader, KeysDistinct, SameState;
      if found {
        var home := Slot(Home(hash, key), n);
        slot := home;
        assert before[slot].inUse && before[slot].key == key && Has(before, key);
        shader := Touch(home);
      } else if n < COMBINER_CACHE_SIZE {
        slot := Slot(Home(hash, key), n);
        assert !before[slot].inUse;
        shader := FillSlot(key, ok, n);
      } else {
        AllInUse(before, hash, key);
        shader, slot := Evict(key, ok);
        if draws <= UINT32_MAX { LeastFrame(before, uses, draws, slot); }
      }
    }

    /** The lookup of a draw. */
    method GetShader(key: Key<B>, ok: bool) returns (shader: Option<nat>, ghost slot: nat)
      requires Valid() && !dirty
      modifies `made, `nextShader, `lastShader, `uses, entries
      ensures Sound() && Timed(if shader.Some? then draws + 1 else draws)
      ensures SameState(key, current) ==> MemoLatest()
      ensures IsLookup(old(entries[..]), old(uses), entries[..], uses, key, ok, shader, draws, slot)
      ensures shader.Some? ==> shader.value in made && made[shader.value] == key && Latest(entries[..], uses, key)
      ensures slot < COMBINER_CACHE_SIZE
      ensures shader.Some? ==> entries[slot].inUse && entries[slot].key == key && entries[slot].shader == shader
      ensures old(Has(entries[..], key)) || !old(Full(entries[..])) ==> lastShader == old(lastShader)
      ensures old(Complete(entries[..])) ==>
        (Complete(entries[..]) <==> ok || old(Has(entries[..], key)) || !old(Full(entries[..])))
    {
      ghost var before := entries[..];
      hide *;
      shader, slot := LookUp(key, ok);
      NoteLookup(before, key, ok, shader, slot);
    }

    /** Notes a lookup that ended at `slot`. */
    ghost method NoteLookup(before: seq<Entry<B>>, key: Key<B>, ok: bool, shader: Option<nat>, slot: nat)
      requires Recorded(before) && KeysDistinct(entries[..])
      requires |before| == COMBINER_CACHE_SIZE && slot < COMBINER_CACHE_SIZE && EndsAt(before, uses, key, draws, slot)
      requires entries[..] == LookedUp(before, key, ok, shader, slot, frame)
      requires Has(before, key) ==> shader == before[slot].shader
      requires !Has(before, key) ==> (shader.Some? <==> ok)
      modifies `uses
      ensures IsLookup(before, old(uses), entries[..], uses, key, ok, shader, draws, slot)
      ensures Timed(if shader.Some? then draws + 1 else draws)
      ensures SameState(key, current) ==> MemoLatest()
      ensures shader.Some? ==>
        entries[slot].inUse && entries[slot].key == key && entries[slot].shader == shader && Latest(entries[..], uses, key)
      ensures Complete(before) ==> (Complete(entries[..]) <==> ok || Has(before, key) || !Full(before))
    {
      uses := UsesAfter(uses, Has(before, key), shader, draws, slot);
      hide Dated, InOrder, Latest, KeysDistinct, Wrapped, UsesAfter, LookedUp, EndsAt, Has;
      LookupTimed(before, old(uses), entries[..], uses, key, ok, shader, draws, slot);
      hide IsLookup, Complete, Full, Timed, MemoLatest;
      CompleteIff(before, old(uses), entries[..], uses, key, ok, shader, draws, slot);
    }

    method Touch(slot: nat) returns (shader: Option<nat>)
      requires Sound() && slot < COMBINER_CACHE_SIZE && entries[slot].inUse
      modifies entries
      ensures Sound() && entries[..] == old(entries[..])[slot := old(entries[slot]).(lastUsed := frame)]
      ensures shader == entries[slot].shader && (shader.Some? ==> shader.value in made && made[shader.value] == entries[slot].key)
    {
      shader := entries[slot].shader;
      TouchKeeps(entries[..], hash, made, slot, frame);
      entries[slot] := entries[slot].(lastUsed := frame);
    }

    method FillSlot(key: Key<B>, ok: bool, n: nat) returns (shader: Option<nat>)
      requires Sound() && n < COMBINER_CACHE_SIZE && !Has(entries[..], key)
      requires forall p {:trigger Slot(Home(hash, key), p)} :: 0 <= p < n ==> entries[Slot(Home(hash, key), p)].inUse
      requires !entries[Slot(Home(hash, key), n)].inUse
      modifies `made, `nextShader, entries
      ensures Sound()
      ensures entries[..] ==
        if ok then old(entries[..])[Slot(Home(hash, key), n) := Entry(true, key, shader, frame)] else old(entries[..])
      ensures shader.Some? ==> shader.value in made && made[shader.value] == key
      ensures shader.Some? <==> ok
    {
      shader := CompileShader(key, ok);
      if shader.Some? {
        InsertKeeps(entries[..], hash, old(made), key, n, shader.value, frame);
        entries[Slot(Home(hash, key), n)] := Entry(true, key, shader, frame);
      }
    }

    /** With the table full: the least recently used entry makes way. If the compiler then
        refuses the new shader, that entry stays in use under its old key, without a shader. */
    method Evict(key: Key<B>, ok: bool) returns (shader: Option<nat>, ghost victim: nat)
      requires Sound() && !dirty && !Has(entries[..], key) && Full(entries[..])
      modifies `made, `nextShader, `lastShader, entries
      ensures Sound() && victim < COMBINER_CACHE_SIZE
      ensures forall i {:trigger old(entries[i])} :: 0 <= i < entries.Length ==>
        old(entries[victim].lastUsed) <= old(entries[i].lastUsed)
      ensures entries[..] == old(entries[..])[victim :=
        if ok then Entry(true, key, shader, frame) else old(entries[victim]).(shader := None)]
      ensures shader.Some? ==> shader.value in made && made[shader.value] == key
      ensures shader.Some? <==> ok
      ensures lastShader.0 in {None, old(lastShader.0)} && lastShader.1 in {None, old(lastShader.1)}
    {
      var slot := LeastRecentlyUsed(Home(hash, key));
      victim := slot;
      Destroy(slot);
      shader := Refill(slot, key, ok);
    }

    method Refill(slot: nat, key: Key<B>, ok: bool) returns (shader: Option<nat>)
      requires Sound() && slot < COMBINER_CACHE_SIZE && entries[slot].shader.None? && !Has(entries[..], key) && Full(entries[..])
      modifies `made, `nextShader, entries
      ensures Sound()
      ensures entries[..] == if ok then old(entries[..])[slot := Entry(true, key, shader, frame)] else old(entries[..])
      ensures shader.Some? ==> shader.value in made && made[shader.value] == key
      ensures shader.Some? <==> ok
    {
      shader := CompileShader(key, ok);
      if shader.Some? {
        ReplaceKeeps(entries[..], hash, old(made), slot, key, shader.value, frame);
        entries[slot] := Entry(true, key, shader, frame);
      }
    }

    /** Destroys the shader of a slot, and forgets it if it is one of those remembered. */
    method Destroy(slot: nat)
      requires Sound() && !dirty && slot < COMBINER_CACHE_SIZE && entries[slot].inUse
      modifies `made, `lastShader, entries
      ensures Sound()
      ensures entries[..] == old(entries[..])[slot := old(entries[slot]).(shader := None)]
      ensures made == Without(old(entries[..]), old(made), slot)
      ensures lastShader.0 in {None, old(lastShader.0)} && lastShader.1 in {None, old(lastShader.1)}
    {
      if entries[slot].shader.Some? {
        if lastShader.0 == entries[slot].shader {
          lastShader := (None, lastShader.1);
        }
        if lastShader.1 == entries[slot].shader {
          lastShader := (lastShader.0, None);
        }
        DestroyKeeps(entries[..], hash, made, slot);
        made := made - {entries[slot].shader.value};
        entries[slot] := entries[slot].(shader := None);
      } else {
        assert entries[..] == entries[..][slot := entries[slot].(shader := None)];
      }
    }

    method MarkDirty()
      requires Valid()
      modifies `dirty
      ensures Valid() && dirty
    {
      dirty := true;
    }

    /** What the memo holds for a draw. */
    function Memo(shadow: seq<bool>, canReject: bool): Option<nat>
      reads this
    {
      if dirty || shadow != current.shadow then None else if canReject then lastShader.1 else lastShader.0
    }

    /** The state of a draw. What the memo holds is kept just if it is for that state. */
    method TakeState(parsed: B, shadow: seq<bool>, canReject: bool)
      requires Valid() && |shadow| == 4
      modifies `current, `dirty, `lastShader
      ensures Valid() && !dirty
      ensures current == Key(if old(dirty) then parsed else old(current.parsed), shadow, canReject)
      ensures lastShader == if old(dirty) || shadow != old(current.shadow) then (None, None) else old(lastShader)
    {
      hide TableValid, Dated, InOrder, Latest, Wrapped;
      if dirty {
        current := Key(parsed, [false, false, false, false], false);
        dirty := false;
        ForgetLastShaders();
      }
      TakeShadows(shadow);
      current := current.(alphaTest := canReject);
    }

    /** The memo's shader for the current state, or else one that is looked up and remembered. */
    method Remember(ok: bool) returns (shader: Option<nat>, ghost slot: nat)
      requires Valid() && !dirty
      modifies `made, `nextShader, `lastShader, `uses, entries
      ensures Sound() && Timed(if shader.Some? then draws + 1 else draws) && MemoLatest()
      ensures shader.Some? ==> shader.value in made && made[shader.value] == current
      ensures slot < COMBINER_CACHE_SIZE
      ensures shader.Some? ==> entries[slot].inUse && entries[slot].key == current && entries[slot].shader == shader
      ensures old(Memo(current.shadow, current.alphaTest)).Some? ==>
        && shader == old(Memo(current.shadow, current.alphaTest)) && entries[..] == old(entries[..])
        && |old(uses)| == COMBINER_CACHE_SIZE && uses == old(uses)[slot := old(uses)[slot].(drawn := draws)]
      ensures old(Memo(current.shadow, current.alphaTest)).None? ==>
        IsLookup(old(entries[..]), old(uses), entries[..], uses, current, ok, shader, draws, slot)
      ensures lastShader == if current.alphaTest then (lastShader.0, shader) else (shader, lastShader.1)
      ensures old(Has(entries[..], current)) || !old(Full(entries[..])) ==>
        lastShader == if current.alphaTest then (old(lastShader.0), shader) else (shader, old(lastShader.1))
      ensures ok && old(Complete(entries[..])) ==> Complete(entries[..]) && shader.Some?
    {
      hide TableValid, Dated, InOrder, Latest, Wrapped, IsLookup;
      ghost var before, usesBefore := entries[..], uses;
      shader := if current.alphaTest then lastShader.1 else lastShader.0;
      if shader.None? {
        shader, slot := GetShader(current, ok);
        lastShader := if current.alphaTest then (lastShader.0, shader) else (shader, lastShader.1);
        CompleteIff(before, usesBefore, entries[..], uses, current, ok, shader, draws, slot);
      } else {
        slot := DrawFromMemo(shader.value);
      }
    }

    /** Notes a draw with a remembered shader. */
    ghost method DrawFromMemo(x: nat) returns (slot: nat)
      requires Valid() && !dirty && (x in made && made[x] == current && Latest(entries[..], uses, current))
      modifies `uses
      ensures Sound() && Timed(draws + 1) && MemoLatest()
      ensures slot < COMBINER_CACHE_SIZE && entries[slot].inUse && entries[slot].shader == Some(x) && entries[slot].key == current
      ensures |old(uses)| == COMBINER_CACHE_SIZE && uses == old(uses)[slot := old(uses)[slot].(drawn := draws)]
    {
      slot :| 0 <= slot < |entries[..]| && entries[..][slot].inUse && entries[..][slot].shader == Some(x);
      assert |uses| == COMBINER_CACHE_SIZE && entries[slot].key == current;
      hide TableValid, Dated, InOrder, Latest, Wrapped;
      DrawKeepsOrder(entries[..], uses, draws, slot);
      uses := uses[slot := uses[slot].(drawn := draws)];
    }

    method CountDraw()
      requires Sound() && Timed(draws + 1) && !dirty && MemoLatest()
      modifies `frame, `draws
      ensures Valid() && draws == old(draws) + 1
    {
      hide TableValid, Dated, InOrder, Latest, Wrapped;
      NextWrapped(draws);
      frame := if frame == UINT32_MAX then 0 else frame + 1;
      draws := draws + 1;
    }

    /** A draw: parses the words again if they may have changed, takes over this draw's shadow
        stages and alpha-test variant, and binds a shader, that of `slot`. Without a shader it
        is no draw of the combiners' and is not counted. */
    method PrepareDraw(parsed: B, shadow: seq<bool>, canReject: bool, ok: bool) returns (shader: Option<nat>, ghost slot: nat)
      requires Valid() && |shadow| == 4
      modifies this, entries
      ensures Valid() && !dirty
      ensures current == Key(if old(dirty) then parsed else old(current.parsed), shadow, canReject)
      ensures shader.Some? ==> shader.value in made && made[shader.value] == current
      ensures draws == old(draws) + (if shader.Some? then 1 else 0)
      ensures slot < COMBINER_CACHE_SIZE
      ensures shader.Some? ==> entries[slot].inUse && entries[slot].key == current && entries[slot].shader == shader
      ensures old(Memo(shadow, canReject)).Some? ==>
        && shader == old(Memo(shadow, canReject)) && entries[..] == old(entries[..])
        && |old(uses)| == COMBINER_CACHE_SIZE && uses == old(uses)[slot := old(uses)[slot].(drawn := old(draws))]
      ensures old(Memo(shadow, canReject)).None? ==>
        IsLookup(old(entries[..]), old(uses), entries[..], uses, current, ok, shader, old(draws), slot)
      ensures Memo(shadow, canReject) == shader
      ensures old(Memo(shadow, !canReject)).Some? && !old(Full(entries[..])) ==>
        Memo(shadow, !canReject) == old(Memo(shadow, !canReject))
      ensures ok && old(Complete(entries[..])) ==> Complete(entries[..]) && shader.Some?
    {
      hide Sound, Timed, MemoLatest, IsLookup, Dated, InOrder, Latest, TableValid, Complete, HasShader, Full, Has;
      TakeState(parsed, shadow, canReject);
      shader, slot := Remember(ok);
      if shader.Some? {
        CountDraw();
      }
    }

    method TakeShadows(shadow: seq<bool>)
      requires |shadow| == 4 && |current.shadow| == 4
      requires Remembers(false, lastShader.0) && Remembers(true, lastShader.1)
      modifies `current, `lastShader
      ensures Remembers(false, lastShader.0) && Remembers(true, lastShader.1)
      ensures current == old(current).(shadow := shadow)
      ensures lastShader == if shadow == old(current.shadow) then old(lastShader) else (None, None)
    {
      for i := 0 to 4
        invariant |current.shadow| == 4
        invariant Remembers(false, lastShader.0) && Remembers(true, lastShader.1)
        invariant current == old(current).(shadow := current.shadow)
        invariant forall k :: 0 <= k < i ==> current.shadow[k] == shadow[k]
        invariant forall k :: i <= k < 4 ==> current.shadow[k] == old(current.shadow)[k]
        invariant lastShader == if current.shadow == old(current.shadow) then old(lastShader) else (None, None)
      {
        if shadow[i] != current.shadow[i] {
          current := current.(shadow := current.shadow[i := shadow[i]]);
          ForgetLastShaders();
          assert current.shadow[i] != old(current.shadow)[i];
        }
      }
      assert current.shadow == shadow;
    }
  }

  // ---- A run in which the shader evicted is not the one drawn with least recently ----

  const NO_SHADOWS: seq<bool> := [false, false, false, false]

  function FreeUpTo<B>(t: seq<Entry<B>>, k: nat): (n: nat)
    requires k <= |t|
    ensures n <= k
  {
    if k == 0 then 0 else FreeUpTo(t, k - 1) + (if t[k - 1].inUse then 0 else 1)
  }

  lemma {:induction false} OneLessFree<B>(t: seq<Entry<B>>, s: nat, e: Entry<B>, k: nat)
    requires s < |t| && !t[s].inUse && e.inUse && k <= |t|
    ensures FreeUpTo(t[s := e], k) == FreeUpTo(t, k) - (if s < k then 1 else 0)
  {
    if k > 0 { OneLessFree(t, s, e, k - 1); }
  }

  /** Slots `a` and `b` hold the two variants of state 0, drawn with at 2 and at 1 and looked up
      at 0 and at 1; the other slots in use hold states from 1 to below `k`. */
  ghost predicate Filling(t: seq<Entry<nat>>, uses: seq<Use>, a: nat, b: nat, k: nat) {
    && |t| == |uses| && a < |t| && b < |t| && k > 0 && Complete(t)
    && t[a].inUse && t[a].key == Key(0, NO_SHADOWS, false) && uses[a] == Use(0, 2)
    && t[b].inUse && t[b].key == Key(0, NO_SHADOWS, true) && uses[b] == Use(1, 1)
    && forall i {:trigger t[i]} :: 0 <= i < |t| && t[i].inUse ==> t[i].key.parsed < k && (i == a || uses[i].lookedUp > 0)
  }

  lemma {:induction false} FillsOne(t: seq<Entry<nat>>, uses: seq<Use>, t': seq<Entry<nat>>, uses': seq<Use>, a: nat,
        b: nat, k: nat, shader: Option<nat>, now: nat, s: nat)
    requires Filling(t, uses, a, b, k) && !Full(t) && now > 0
    requires IsLookup(t, uses, t', uses', Key(k, NO_SHADOWS, false), true, shader, now, s)
    ensures Filling(t', uses', a, b, k + 1) && FreeUpTo(t', |t'|) == FreeUpTo(t, |t|) - 1
  {
    assert !Has(t, Key(k, NO_SHADOWS, false));
    assert t' == t[s := t'[s]] && uses' == uses[s := Use(now, now)];
    OneLessFree(t, s, t'[s], |t|);
    assert forall i {:trigger t'[i]} :: 0 <= i < |t'| && i != s ==> t'[i] == t[i] && uses'[i] == uses[i];
  }

  lemma {:induction false} NotTheLeastDrawn(t: seq<Entry<nat>>, uses: seq<Use>, t': seq<Entry<nat>>, uses': seq<Use>,
        a: nat, b: nat, k: nat, shader: Option<nat>, now: nat, s: nat)
    requires Filling(t, uses, a, b, k) && Full(t) && KeysDistinct(t) && now <= UINT32_MAX
    requires IsLookup(t, uses, t', uses', Key(k, NO_SHADOWS, false), true, shader, now, s)
    ensures s < |t| && LeastLookedUp(t, uses, s) && !LeastDrawn(t, uses, s) && HasShader(t[s])
    ensures t' == t[s := t'[s]] && !Has(t', t[s].key)
  {
    assert !Has(t, Key(k, NO_SHADOWS, false));
    assert uses[s].lookedUp <= uses[a].lookedUp;
    assert HasShader(t[b]) && uses[b].drawn < uses[a].drawn && t[s].key.parsed < k;
    forall i {:trigger t'[i]} | 0 <= i < |t'| && i != s ensures t'[i].key != t[s].key {
      if t'[i].key == t[s].key { OnlyOneAt(t, t[s].key, i, s); }
    }
  }

  lemma {:induction false} NothingIn(t: seq<Entry<nat>>)
    requires |t| > 0 && forall i {:trigger t[i]} :: 0 <= i < |t| ==> !t[i].inUse
    ensures Complete(t) && !Full(t) && !Has(t, Key(0, NO_SHADOWS, false))
  {
    assert !t[0].inUse;
  }

  lemma {:induction false} OneIn(t: seq<Entry<nat>>, u: seq<Use>, t': seq<Entry<nat>>, u': seq<Use>, x: Option<nat>, a: nat)
    requires |t| > 0 && forall i {:trigger t[i]} :: 0 <= i < |t| ==> !t[i].inUse
    requires IsLookup(t, u, t', u', Key(0, NO_SHADOWS, false), true, x, 0, a)
    ensures !Full(t') && !Has(t', Key(0, NO_SHADOWS, true))
    ensures t' == t[a := Entry(true, Key(0, NO_SHADOWS, false), x, 0)] && u' == u[a := Use(0, 0)]
    ensures forall i {:trigger t'[i]} :: 0 <= i < |t'| && t'[i].inUse ==> t'[i].key != Key(0, NO_SHADOWS, true)
  {
    NothingIn(t);
    var free := if a == 0 then 1 else 0;
    assert !t'[free].inUse;
  }

  /** The second draw finds neither the memo nor the table holding its variant; the third finds
      the memo holding the first's. */
  lemma {:induction false} ThreeFill(t0: seq<Entry<nat>>, u0: seq<Use>, t1: seq<Entry<nat>>, u1: seq<Use>,
        t2: seq<Entry<nat>>, u2: seq<Use>, x: Option<nat>, y: Option<nat>, a: nat, b: nat)
    requires |t0| > 0 && forall i {:trigger t0[i]} :: 0 <= i < |t0| ==> !t0[i].inUse
    requires IsLookup(t0, u0, t1, u1, Key(0, NO_SHADOWS, false), true, x, 0, a)
    requires IsLookup(t1, u1, t2, u2, Key(0, NO_SHADOWS, true), true, y, 1, b)
    ensures a < |t2| == |u2| && t2[a].inUse && t2[a].key == Key(0, NO_SHADOWS, false)
    ensures u2[a].lookedUp == 0 && Filling(t2, u2[a := Use(0, 2)], a, b, 1)
  {
    OneIn(t0, u0, t1, u1, x, a);
    assert t2 == t1[b := Entry(true, Key(0, NO_SHADOWS, true), y, 1)] && u2 == u1[b := Use(1, 1)];
  }

  lemma {:induction false} TableOf<B(!new)>(cache: Cache<B>)
    requires cache.Valid()
    ensures KeysDistinct(cache.entries[..]) && |cache.uses| == cache.entries.Length == COMBINER_CACHE_SIZE
  {
  }

  /** One state drawn without the alpha test, with it, and without it again; then new states until
      the table is full. The next new state takes the slot of the first shader, though the second
      was drawn with before it. */
  method EvictsLaterDrawn(hash: Key<nat> -> nat)
    returns (cache: Cache<nat>, ghost t: seq<Entry<nat>>, ghost uses: seq<Use>, ghost victim: nat)
    ensures cache.Valid() && |t| == |uses| == cache.entries.Length && victim < |t|
    ensures LeastLookedUp(t, uses, victim) && !LeastDrawn(t, uses, victim) && HasShader(t[victim])
    ensures cache.entries[..] == t[victim := cache.entries[victim]] && !Has(cache.entries[..], t[victim].key)
  {
    hide Cache.Valid, Filling, IsLookup, LeastLookedUp, LeastDrawn, Complete, Has, HasShader, KeysDistinct, Full, FreeUpTo;
    cache := new Cache(hash, Key(0, NO_SHADOWS, false));
    ghost var a, b := DrawThree(cache);
    TableOf(cache);
    var k := 1;
    while !Full(cache.entries[..])
      invariant cache.Valid() && cache.entries.Length == COMBINER_CACHE_SIZE && Complete(cache.entries[..])
      invariant Filling(cache.entries[..], cache.uses, a, b, k)
      invariant cache.draws == k + 2 && k + FreeUpTo(cache.entries[..], COMBINER_CACHE_SIZE) <= COMBINER_CACHE_SIZE + 1
      decreases FreeUpTo(cache.entries[..], COMBINER_CACHE_SIZE)
    {
      ghost var before, usesBefore := cache.entries[..], cache.uses;
      ghost var slot;
      var shader;
      shader, slot := DrawNew(cache, k);
      FillsOne(before, usesBefore, cache.entries[..], cache.uses, a, b, k, shader, cache.draws - 1, slot);
      k := k + 1;
    }
    t, uses := cache.entries[..], cache.uses;
    TableOf(cache);
    var shader;
    shader, victim := DrawNew(cache, k);
    NotTheLeastDrawn(t, uses, cache.entries[..], cache.uses, a, b, k, shader, cache.draws - 1, victim);
  }

  /** A draw after the words were set for state `k`. */
  method DrawNew(cache: Cache<nat>, k: nat) returns (shader: Option<nat>, ghost slot: nat)
    requires cache.Valid() && Complete(cache.entries[..])
    modifies cache, cache.entries
    ensures cache.Valid() && Complete(cache.entries[..]) && cache.draws == old(cache.draws) + 1
    ensures IsLookup(old(cache.entries[..]), old(cache.uses), cache.entries[..], cache.uses, Key(k, NO_SHADOWS, false), true,
      shader, old(cache.draws), slot)
  {
    hide Cache.Valid, IsLookup, Complete, Has, Full;
    cache.MarkDirty();
    shader, slot := cache.PrepareDraw(k, NO_SHADOWS, false, true);
  }

  method DrawThree(cache: Cache<nat>) returns (ghost a: nat, ghost b: nat)
    requires cache.Valid() && cache.dirty && cache.draws == 0
    requires forall i {:trigger cache.entries[i]} :: 0 <= i < cache.entries.Length ==> !cache.entries[i].inUse
    modifies cache, cache.entries
    ensures cache.Valid() && Complete(cache.entries[..]) && Filling(cache.entries[..], cache.uses, a, b, 1) && cache.draws == 3
  {
    hide Cache.Valid, IsLookup, Complete, Has, KeysDistinct, Full, Filling;
    a, b := DrawTwo(cache);
    ghost var c;
    ghost var t, uses := cache.entries[..], cache.uses;
    var shader;
    TableOf(cache);
    shader, c := cache.PrepareDraw(0, NO_SHADOWS, false, true);
    OnlyOneAt(t, Key(0, NO_SHADOWS, false), a, c);
  }

  method DrawTwo(cache: Cache<nat>) returns (ghost a: nat, ghost b: nat)
    requires cache.Valid() && cache.dirty && cache.draws == 0
    requires forall i {:trigger cache.entries[i]} :: 0 <= i < cache.entries.Length ==> !cache.entries[i].inUse
    modifies cache, cache.entries
    ensures cache.Valid() && !cache.dirty && cache.draws == 2 && cache.Memo(NO_SHADOWS, false).Some?
    ensures cache.current.parsed == 0 && |cache.uses| == cache.entries.Length && a < |cache.uses|
    ensures cache.entries[a].inUse && cache.entries[a].key == Key(0, NO_SHADOWS, false)
    ensures cache.uses[a].lookedUp == 0 && Complete(cache.entries[..])
    ensures Filling(cache.entries[..], cache.uses[a := Use(0, 2)], a, b, 1)
  {
    hide Cache.Valid, IsLookup, Complete, Has, KeysDistinct, Full, Filling;
    ghost var t0, u0 := cache.entries[..], cache.uses;
    ghost var x;
    TableOf(cache);
    x, a := DrawFirst(cache);
    ghost var t1, u1 := cache.entries[..], cache.uses;
    var shader;
    shader, b := cache.PrepareDraw(0, NO_SHADOWS, true, true);
    assert cache.entries[..][b] == cache.entries[b];
    ThreeFill(t0, u0, t1, u1, cache.entries[..], cache.uses, x, shader, a, b);
  }

  method DrawFirst(cache: Cache<nat>) returns (ghost x: Option<nat>, ghost a: nat)
    requires cache.Valid() && cache.dirty && cache.draws == 0
    requires forall i {:trigger cache.entries[i]} :: 0 <= i < cache.entries.Length ==> !cache.entries[i].inUse
    modifies cache, cache.entries
    ensures cache.Valid() && !cache.dirty && cache.draws == 1 && cache.Memo(NO_SHADOWS, false).Some? && cache.current.parsed == 0
    ensures cache.entries.Length > 0 && Complete(cache.entries[..]) && !Full(cache.entries[..])
    ensures var t := cache.entries[..];
      forall i {:trigger t[i]} :: 0 <= i < |t| && t[i].inUse ==> t[i].key != Key(0, NO_SHADOWS, true)
    ensures IsLookup(old(cache.entries[..]), old(cache.uses), cache.entries[..], cache.uses, Key(0, NO_SHADOWS, false), true, x, 0, a)
  {
    hide Cache.Valid, IsLookup, Complete, Has, KeysDistinct, Full, Filling;
    ghost var t0, u0 := cache.entries[..], cache.uses;
    TableOf(cache);
    NothingIn(t0);
    var shader;
    shader, a := cache.PrepareDraw(0, NO_SHADOWS, false, true);
    x := shader;
    OneIn(t0, u0, cache.entries[..], cache.uses, x, a);
  }
}
