/** The mix bins of one audio frame, in exact arithmetic: 32 bins of 32 samples, added
    point by point. The laws below are all that the scheduling proofs use of them. */
module MixBins {
  import opened Common

  const NUM_MIXBINS: nat := 32
  const NUM_SAMPLES_PER_FRAME: nat := 32
  const MULTIPASS_BIN: nat := 31
  const SENDS_PER_VOICE: nat := 8

  type Bin = b: nat | b < NUM_MIXBINS
  type Samples = s: seq<real> | |s| == NUM_SAMPLES_PER_FRAME
    witness Repeat(NUM_SAMPLES_PER_FRAME, 0.0)
  type Mix = m: seq<Samples> | |m| == NUM_MIXBINS
    witness Repeat(NUM_MIXBINS, Silence())
  /** What one voice adds: a block of samples for each of its eight sends. */
  type Sends = s: seq<Samples> | |s| == SENDS_PER_VOICE
    witness Repeat(SENDS_PER_VOICE, Silence())
  type SendBins = s: seq<Bin> | |s| == SENDS_PER_VOICE
    witness Repeat(SENDS_PER_VOICE, 0)

  function Silence(): (s: Samples)
    ensures forall i :: 0 <= i < NUM_SAMPLES_PER_FRAME ==> s[i] == 0.0
  {
    seq(NUM_SAMPLES_PER_FRAME, i => 0.0)
  }

  function EmptyMix(): (m: Mix)
    ensures forall b :: 0 <= b < NUM_MIXBINS ==> m[b] == Silence()
  {
    seq(NUM_MIXBINS, b => Silence())
  }

  function AddSamples(a: Samples, b: Samples): (c: Samples)
    ensures forall i :: 0 <= i < NUM_SAMPLES_PER_FRAME ==> c[i] == a[i] + b[i]
  {
    seq(NUM_SAMPLES_PER_FRAME, i requires 0 <= i < NUM_SAMPLES_PER_FRAME => a[i] + b[i])
  }

  function Plus(m: Mix, n: Mix): (r: Mix)
    ensures forall b :: 0 <= b < NUM_MIXBINS ==> r[b] == AddSamples(m[b], n[b])
  {
    seq(NUM_MIXBINS, b requires 0 <= b < NUM_MIXBINS => AddSamples(m[b], n[b]))
  }

  lemma {:induction false} AddSamplesLaws(a: Samples, b: Samples, c: Samples)
    ensures AddSamples(a, Silence()) == a
    ensures AddSamples(a, b) == AddSamples(b, a)
    ensures AddSamples(AddSamples(a, b), c) == AddSamples(a, AddSamples(b, c))
  {
    assert AddSamples(a, Silence()) == a;
    assert AddSamples(a, b) == AddSamples(b, a);
    assert AddSamples(AddSamples(a, b), c) == AddSamples(a, AddSamples(b, c));
  }

  lemma {:induction false} PlusZero(m: Mix)
    ensures Plus(m, EmptyMix()) == m
  {
    forall b | 0 <= b < NUM_MIXBINS ensures Plus(m, EmptyMix())[b] == m[b] {
      AddSamplesLaws(m[b], Silence(), Silence());
    }
  }

  lemma {:induction false} PlusComm(m: Mix, n: Mix)
    ensures Plus(m, n) == Plus(n, m)
  {
    forall b | 0 <= b < NUM_MIXBINS ensures Plus(m, n)[b] == Plus(n, m)[b] {
      AddSamplesLaws(m[b], n[b], Silence());
    }
  }

  lemma {:induction false} PlusAssoc(m: Mix, n: Mix, p: Mix)
    ensures Plus(Plus(m, n), p) == Plus(m, Plus(n, p))
  {
    forall b | 0 <= b < NUM_MIXBINS ensures Plus(Plus(m, n), p)[b] == Plus(m, Plus(n, p))[b] {
      AddSamplesLaws(m[b], n[b], p[b]);
    }
  }

  /** The first `n` of a voice's sends, each added into the bin it names; two sends may name
      the same bin. */
  function SpreadFirst(bins: SendBins, sends: Sends, n: nat): Mix
    requires n <= SENDS_PER_VOICE
  {
    if n == 0 then EmptyMix()
    else
      var m := SpreadFirst(bins, sends, n - 1);
      m[bins[n - 1] := AddSamples(m[bins[n - 1]], sends[n - 1])]
  }

  function Spread(bins: SendBins, sends: Sends): Mix {
    SpreadFirst(bins, sends, |sends|)
  }

  /** A voice adds nothing to a bin it does not send to. */
  lemma {:induction false} SpreadMisses(bins: SendBins, sends: Sends, n: nat, bin: Bin)
    requires n <= SENDS_PER_VOICE
    requires bin !in bins
    ensures SpreadFirst(bins, sends, n)[bin] == Silence()
  {
    if n > 0 {
      assert bins[n - 1] in bins;
      SpreadMisses(bins, sends, n - 1, bin);
    }
  }

  /** What the first `n` sends bring to sample `i` of a bin: sample `i` of each block whose send
      names the bin. */
  function Brought(bins: SendBins, sends: Sends, bin: Bin, i: nat, n: nat): real
    requires n <= SENDS_PER_VOICE && i < NUM_SAMPLES_PER_FRAME
  {
    if n == 0 then 0.0
    else Brought(bins, sends, bin, i, n - 1) + (if bins[n - 1] == bin then sends[n - 1][i] else 0.0)
  }

  /** Block `n` of a voice goes into the bin that send `n` names, and nowhere else. */
  lemma {:induction false} SpreadBrings(bins: SendBins, sends: Sends, bin: Bin, i: nat, n: nat)
    requires n <= SENDS_PER_VOICE && i < NUM_SAMPLES_PER_FRAME
    ensures SpreadFirst(bins, sends, n)[bin][i] == Brought(bins, sends, bin, i, n)
  {
    if n > 0 { SpreadBrings(bins, sends, bin, i, n - 1); }
  }

  /** Adding one send to a mix is adding it to the spread. */
  lemma {:induction false} PlusStep(m: Mix, s: Mix, bin: Bin, add: Samples)
    ensures Plus(m, s)[bin := AddSamples(Plus(m, s)[bin], add)]
         == Plus(m, s[bin := AddSamples(s[bin], add)])
  {
    AddSamplesLaws(m[bin], s[bin], add);
  }

  /** The point-by-point sum of any number of mixes. */
  function Total(mixes: seq<Mix>): Mix {
    if mixes == [] then EmptyMix() else Plus(Total(mixes[..|mixes| - 1]), mixes[|mixes| - 1])
  }

  lemma {:induction false} TotalOfEmpty(n: nat)
    ensures Total(seq(n, w => EmptyMix())) == EmptyMix()
  {
    if n > 0 {
      var all := seq(n, w => EmptyMix());
      assert all[..n - 1] == seq(n - 1, w => EmptyMix());
      TotalOfEmpty(n - 1);
      PlusZero(EmptyMix());
    }
  }

  /** Adding to one of the mixes adds to their total. */
  lemma {:induction false} TotalAfterAdd(mixes: seq<Mix>, w: nat, add: Mix)
    requires w < |mixes|
    ensures Total(mixes[w := Plus(mixes[w], add)]) == Plus(Total(mixes), add)
  {
    var k := |mixes| - 1;
    var after := mixes[w := Plus(mixes[w], add)];
    var front := Total(mixes[..k]);
    if w == k {
      assert after[..k] == mixes[..k];
      PlusAssoc(front, mixes[k], add);
    } else {
      assert after[..k] == mixes[..k][w := Plus(mixes[..k][w], add)];
      TotalAfterAdd(mixes[..k], w, add);
      PlusAssoc(front, add, mixes[k]);
      PlusComm(add, mixes[k]);
      PlusAssoc(front, mixes[k], add);
    }
  }

  /** A bin that at most mix `w` holds anything in: its total is `w`'s. */
  lemma {:induction false} TotalOfOne(mixes: seq<Mix>, w: nat, bin: Bin)
    requires w < |mixes|
    requires forall u :: 0 <= u < |mixes| && u != w ==> mixes[u][bin] == Silence()
    ensures Total(mixes)[bin] == mixes[w][bin]
  {
    var k := |mixes| - 1;
    AddSamplesLaws(Total(mixes[..k])[bin], mixes[k][bin], Silence());
    if w == k {
      TotalOfNone(mixes[..k], bin);
      AddSamplesLaws(mixes[k][bin], Silence(), Silence());
    } else {
      TotalOfOne(mixes[..k], w, bin);
      AddSamplesLaws(mixes[w][bin], Silence(), Silence());
    }
  }

  lemma {:induction false} TotalOfNone(mixes: seq<Mix>, bin: Bin)
    requires forall u :: 0 <= u < |mixes| ==> mixes[u][bin] == Silence()
    ensures Total(mixes)[bin] == Silence()
  {
    if mixes != [] {
      TotalOfNone(mixes[..|mixes| - 1], bin);
      AddSamplesLaws(Silence(), Silence(), Silence());
    }
  }

  /** Clearing that bin in mix `w` clears it in the total and changes no other bin. */
  lemma {:induction false} TotalAfterClear(mixes: seq<Mix>, w: nat, bin: Bin)
    requires w < |mixes|
    requires forall u :: 0 <= u < |mixes| && u != w ==> mixes[u][bin] == Silence()
    ensures Total(mixes[w := mixes[w][bin := Silence()]]) == Total(mixes)[bin := Silence()]
  {
    var k := |mixes| - 1;
    var after := mixes[w := mixes[w][bin := Silence()]];
    TotalOfNone(after, bin);
    if w == k {
      assert after[..k] == mixes[..k];
    } else {
      assert after[..k] == mixes[..k][w := mixes[..k][w][bin := Silence()]];
      TotalAfterClear(mixes[..k], w, bin);
    }
    forall b | 0 <= b < NUM_MIXBINS ensures Total(after)[b] == Total(mixes)[bin := Silence()][b] {
      if b == bin { assert Total(after)[b] == Silence(); }
    }
  }
}
