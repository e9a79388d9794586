/** The envelope generators of a voice: how long each phase lasts, which levels come out, and
    where they do not behave. Levels are exact reals. */
module VoiceEnvelope {
  import opened WholeNumbers

  const OFF: nat := 0
  const DELAY: nat := 1
  const ATTACK: nat := 2
  const HOLD: nat := 3
  const DECAY: nat := 4
  const SUSTAIN: nat := 5
  const RELEASE: nat := 6
  const FORCE_RELEASE: nat := 7

  const RATE_LIMIT: nat := 4096
  const COUNT_LIMIT: nat := 0x1_0000

  /** A count is cut to its 16 bits. */
  function Count(x: int): (count: nat)
    ensures 0 <= x < COUNT_LIMIT ==> count == x
    ensures x == COUNT_LIMIT ==> count == 0
    ensures count < COUNT_LIMIT
  {
    x % 0x1_0000
  }

  /** The registers that shape one envelope. */
  datatype Shape = Shape(attackRate: nat, delayTime: nat, decayRate: nat, holdTime: nat, sustainLevel: nat, releaseRate: nat) {
    ghost predicate Valid() {
      && attackRate < RATE_LIMIT && delayTime < RATE_LIMIT && decayRate < RATE_LIMIT
      && holdTime < RATE_LIMIT && releaseRate < RATE_LIMIT && sustainLevel < 256
    }
  }

  /** The registers one envelope moves: its phase, its 16-bit count and its level. */
  datatype Envelope = Envelope(cur: nat, count: nat, level: nat) {
    ghost predicate Valid() {
      cur < 16 && count < COUNT_LIMIT && level < 256
    }
  }

  /** One step: the new registers, the value the voice is scaled by, and whether the voice is
      to be switched off. `Unknown` is where the program aborts. */
  datatype Outcome =
    | Stepped(envelope: Envelope, value: real, ended: bool)
    | Unknown

  /** The release curve, from its position in 0 to 1. */
  type Curve = real -> real

  ghost predicate Fading(curve: Curve) {
    forall p :: 0.0 <= p <= 1.0 ==> 0.0 <= curve(p) <= 1.0
  }

  function Pow(x: real, n: nat): real {
    if n == 0 then 1.0 else x * Pow(x, n - 1)
  }

  const DECAY_BASE: real := 0.99988799

  /** `DECAY_BASE` to the power `n`, which may be negative. */
  function DecayCurve(n: int): real {
    if n >= 0 then Pow(DECAY_BASE, n)
    else if Pow(DECAY_BASE, -n) != 0.0 then 1.0 / Pow(DECAY_BASE, -n)
    else 0.0
  }

  /** Division that rounds toward zero. */
  function Quotient(a: int, b: int): int
    requires b > 0
  {
    if a >= 0 then a / b else -(-a / b)
  }

  function DecayValue(rate: nat, count: nat): real {
    if rate == 0 then 0.0
    else 255.0 * DecayCurve(Quotient((rate * 16 - count) * 4096, rate))
  }

  /** A decay is over near its sustain level, or past the top of the range. */
  predicate DecayEnds(value: real, sustainLevel: nat) {
    value <= sustainLevel as real + 0.2 || value > 255.0
  }

  function Clamp(x: real, low: real, high: real): real {
    if x < low then low else if x > high then high else x
  }

  function Floor(x: real): nat {
    if x < 0.0 then 0 else x.Floor
  }

  /** A value cut to the level register. */
  function LevelOf(x: real): (level: nat)
    ensures level < 256
  {
    Floor(x) % 256
  }

  function Portion(count: nat, steps: nat): (value: nat)
    requires steps > 0
    ensures count <= steps ==> value <= 255
  {
    DivExact(255, steps);
    DivExact(0, steps);
    DivMonotone(0, count * 255, steps);
    if count <= steps then
      DivMonotone(count * 255, 255 * steps, steps);
      count * 255 / steps
    else count * 255 / steps
  }

  function AttackValue(rate: nat, count: nat): (value: nat)
    ensures value <= 255
  {
    if rate != 0 && count <= rate * 16 then Portion(count, rate * 16) else 255
  }

  /** A level register as the value a voice is scaled by. */
  function Scaled(level: nat): real {
    level as real / 255.0
  }

  function ReleaseValue(curve: Curve, rate: nat, count: nat, level: nat): real
    requires rate > 0
  {
    curve(Clamp(1.0 - count as real / (rate as real * 16.0), 0.0, 1.0)) * level as real / 255.0
  }

  /** The filter envelope and the amplitude envelope step alike, but only the latter switches
      the voice off. */
  function Next(s: Shape, curve: Curve, amplitude: bool, e: Envelope): Outcome {
    if e.cur == OFF then
      Stepped(Envelope(OFF, 0, 255), 1.0, false)
    else if e.cur == DELAY then
      Stepped(if e.count == 0 then Envelope(ATTACK, 0, 0) else Envelope(DELAY, e.count - 1, 0), 0.0, false)
    else if e.cur == ATTACK then
      var value := AttackValue(s.attackRate, e.count);
      Stepped(if e.count == s.attackRate * 16 then Envelope(HOLD, Count(s.holdTime * 16), value)
              else Envelope(ATTACK, Count(e.count + 1), value), Scaled(value), false)
    else if e.cur == HOLD then
      Stepped(if e.count == 0 then Envelope(DECAY, Count(s.decayRate * 16), 255)
              else Envelope(HOLD, e.count - 1, 255), 1.0, false)
    else if e.cur == DECAY then
      var value := DecayValue(s.decayRate, e.count);
      Stepped(if DecayEnds(value, s.sustainLevel) then Envelope(SUSTAIN, e.count, e.level)
              else Envelope(DECAY, Count(e.count - 1), LevelOf(value)), value / 255.0, false)
    else if e.cur == SUSTAIN then
      Stepped(Envelope(SUSTAIN, 0, s.sustainLevel), Scaled(s.sustainLevel), false)
    else if e.cur == RELEASE then
      if s.releaseRate == 0 || e.count == 0 then Stepped(Envelope(FORCE_RELEASE, e.count, e.level), 0.0, false)
      else Stepped(Envelope(RELEASE, e.count - 1, e.level), ReleaseValue(curve, s.releaseRate, e.count, e.level), false)
    else if e.cur == FORCE_RELEASE then Stepped(e, 0.0, amplitude)
    else Unknown
  }

  /** What VOICE_ON does to an envelope started in phase `start`. The count is left alone for
      a phase that has no starting count. */
  function VoiceOn(s: Shape, start: nat, e: Envelope): Envelope {
    Envelope(start,
      if start == DELAY then s.delayTime * 16
      else if start == ATTACK then 0
      else if start == HOLD then s.holdTime * 16
      else e.count, e.level)
  }

  function VoiceRelease(s: Shape, e: Envelope): Envelope {
    Envelope(RELEASE, s.releaseRate * 16, e.level)
  }

  // ---- The decay curve ----

  lemma {:induction false} PowUnit(x: real, n: nat)
    requires 0.0 < x < 1.0
    ensures 0.0 < Pow(x, n) <= 1.0
    ensures n > 0 ==> Pow(x, n) < Pow(x, n - 1)
  {
    if n > 0 {
      PowUnit(x, n - 1);
      ProductShrinks(x, Pow(x, n - 1));
    }
  }

  lemma {:induction false} ProductShrinks(x: real, y: real)
    requires 0.0 < x < 1.0 && 0.0 < y
    ensures 0.0 < x * y < y
  {
    assert (1.0 - x) * y > 0.0;
  }

  /** The curve falls as its exponent grows. */
  lemma {:induction false} PowFalls(x: real, n: nat, m: nat)
    requires 0.0 < x < 1.0 && n <= m
    ensures Pow(x, m) <= Pow(x, n)
    decreases m
  {
    if n < m {
      PowFalls(x, n, m - 1);
      PowUnit(x, m);
    }
  }

  lemma {:induction false} PowAdd(x: real, n: nat, m: nat)
    ensures Pow(x, n + m) == Pow(x, n) * Pow(x, m)
    decreases m
  {
    if m > 0 {
      PowAdd(x, n, m - 1);
      assert n + m - 1 == n + (m - 1);
      assert x * (Pow(x, n) * Pow(x, m - 1)) == Pow(x, n) * (x * Pow(x, m - 1));
    }
  }

  lemma {:induction false} Product(a: real, b: real, c: real)
    requires 0.0 <= a <= b && b * b <= c
    ensures a * a <= c
  {
    assert a * a <= a * b <= b * b;
  }

  lemma {:induction false} Square(n: nat, bound: real, next: real)
    requires Pow(DECAY_BASE, n) <= bound && bound * bound <= next
    ensures Pow(DECAY_BASE, n + n) <= next
  {
    PowAdd(DECAY_BASE, n, n);
    PowUnit(DECAY_BASE, n);
    Product(Pow(DECAY_BASE, n), bound, next);
  }

  /** Upper bounds for the curve at 1, 2, 4, ..., 65536. */
  const DECAY_BOUNDS: seq<real> := [
    0.99988799, 0.99977600, 0.99955206, 0.99910433, 0.99820947, 0.99642215, 0.99285711, 0.98576525, 0.97173313,
    0.94426528, 0.89163692, 0.79501640, 0.63205108, 0.39948857, 0.15959112, 0.02546933, 0.00064869]

  lemma {:induction false} DecayBounded(k: nat)
    requires k <= 16
    ensures Pow(DECAY_BASE, TwoTo(k)) <= DECAY_BOUNDS[k]
  {
    if k == 0 {
      assert Pow(DECAY_BASE, 1) == DECAY_BASE * Pow(DECAY_BASE, 0);
    } else {
      DecayBounded(k - 1);
      Square(TwoTo(k - 1), DECAY_BOUNDS[k - 1], DECAY_BOUNDS[k]);
    }
  }

  /** A whole decay reaches the threshold even of sustain level 0. */
  lemma {:induction false} DecayReachesFloor()
    ensures TwoTo(16) == 65536
    ensures 255.0 * Pow(DECAY_BASE, TwoTo(16)) <= 0.2
  {
    DecayBounded(16);
    assert TwoTo(4) == 16;
    assert TwoTo(8) == 256;
    assert TwoTo(12) == 4096;
  }

  // ---- Division by the decay rate ----

  lemma {:induction false} QuotientBelow(a: int, b: nat)
    requires a <= -(b as int) && 0 < b
    ensures Quotient(a, b) <= -1
  {
    DivMonotone(b, -a, b);
    DivExact(1, b);
  }

  /** The exponent of the decay: zero at the start, 65536 when the count runs out, and below
      zero exactly for a count above its starting value. */
  function Exponent(s: Shape, count: nat): int
    requires s.decayRate > 0
  {
    Quotient((s.decayRate * 16 - count) * 4096, s.decayRate)
  }

  lemma {:induction false} ExponentSign(s: Shape, count: nat)
    requires s.Valid() && s.decayRate > 0
    ensures Exponent(s, count) >= 0 <==> count <= s.decayRate * 16
  {
    var a := (s.decayRate * 16 - count) * 4096;
    if a >= 0 {
      DivNonNegative(a, s.decayRate);
    } else {
      QuotientBelow(a, s.decayRate);
    }
  }

  lemma {:induction false} ExponentAtZero(s: Shape)
    requires s.decayRate > 0
    ensures Exponent(s, 0) == 65536
  {
    var r := s.decayRate;
    assert (r * 16 - 0) * 4096 == 65536 * r;
    DivExact(65536, r);
  }

  lemma {:induction false} ExponentGrows(s: Shape, count: nat)
    requires s.Valid() && 0 < count <= s.decayRate * 16
    ensures 0 <= Exponent(s, count) <= Exponent(s, count - 1)
  {
    ExponentSign(s, count);
    DivMonotone((s.decayRate * 16 - count) * 4096, (s.decayRate * 16 - (count - 1)) * 4096, s.decayRate);
  }

  lemma {:induction false} DecayValueRange(s: Shape, count: nat)
    requires s.Valid()
    ensures DecayValue(s.decayRate, count) >= 0.0
    ensures DecayValue(s.decayRate, count) <= 255.0 <==> s.decayRate == 0 || count <= s.decayRate * 16
    ensures count == 0 ==> DecayValue(s.decayRate, count) <= 0.2
  {
    if s.decayRate > 0 {
      ExponentSign(s, count);
      ExponentAtZero(s);
      DecayReachesFloor();
      var x := Exponent(s, count);
      if x >= 0 {
        PowUnit(DECAY_BASE, x);
      } else {
        PowUnit(DECAY_BASE, -x);
        PowFalls(DECAY_BASE, 1, -x);
        PowUnit(DECAY_BASE, 1);
        Reciprocal(Pow(DECAY_BASE, -x));
      }
    }
  }

  lemma {:induction false} Reciprocal(p: real)
    requires 0.0 < p < 1.0
    ensures 1.0 / p > 1.0
  {
    assert p * (1.0 / p) == 1.0;
  }

  // ---- One step ----

  /** A step never moves back, and the registers keep their width; it fails just for the
      phases that do not exist. */
  lemma {:induction false} StepMovesForward(s: Shape, curve: Curve, amplitude: bool, e: Envelope)
    requires s.Valid() && e.Valid()
    ensures Next(s, curve, amplitude, e).Unknown? <==> e.cur > FORCE_RELEASE
    ensures e.cur <= FORCE_RELEASE ==>
      var after := Next(s, curve, amplitude, e).envelope;
      after.Valid() && e.cur <= after.cur <= e.cur + 1 && after.cur <= FORCE_RELEASE
  {
    DecayValueRange(s, e.count);
  }

  lemma {:induction false} ReleaseInRange(s: Shape, curve: Curve, amplitude: bool, e: Envelope)
    requires s.Valid() && e.Valid() && Fading(curve) && e.cur == RELEASE
    ensures 0.0 <= Next(s, curve, amplitude, e).value <= 1.0
  {
    if s.releaseRate != 0 && e.count != 0 {
      var pos := Clamp(1.0 - e.count as real / (s.releaseRate as real * 16.0), 0.0, 1.0);
      var level := e.level as real;
      assert 0.0 <= curve(pos) <= 1.0;
      assert 0.0 <= curve(pos) * level <= level;
    }
  }

  /** Every value is in 0 to 1, but for one case: a decay entered with a count above its
      start, which VOICE_ON allows because it sets no count for that phase. There the value is
      above 1, and the program's assertion on it fails. */
  lemma {:induction false} ValueInRange(s: Shape, curve: Curve, amplitude: bool, e: Envelope)
    requires s.Valid() && e.Valid() && Fading(curve) && e.cur <= FORCE_RELEASE
    ensures Next(s, curve, amplitude, e).value >= 0.0
    ensures Next(s, curve, amplitude, e).value <= 1.0 <==>
      !(e.cur == DECAY && s.decayRate != 0 && e.count > s.decayRate * 16)
  {
    if e.cur == DECAY {
      DecayValueRange(s, e.count);
    } else if e.cur == RELEASE {
      ReleaseInRange(s, curve, amplitude, e);
    }
  }

  lemma {:induction false} VoiceOnIntoDecayOverflows(curve: Curve) returns (s: Shape, e: Envelope)
    requires Fading(curve)
    ensures s.Valid() && e.Valid()
    ensures Next(s, curve, true, VoiceOn(s, DECAY, e)).value > 1.0
  {
    s, e := Shape(0, 0, 1, 0, 0, 0), Envelope(OFF, 17, 0);
    ValueInRange(s, curve, true, VoiceOn(s, DECAY, e));
  }

  // ---- How long the phases last ----

  function Step(s: Shape, curve: Curve, amplitude: bool, e: Envelope): (r: Envelope)
    requires e.cur <= FORCE_RELEASE
    ensures r.cur <= FORCE_RELEASE
  {
    Next(s, curve, amplitude, e).envelope
  }

  /** The envelope after `n` steps with its registers left alone. */
  function After(s: Shape, curve: Curve, amplitude: bool, e: Envelope, n: nat): (r: Envelope)
    requires e.cur <= FORCE_RELEASE
    ensures r.cur <= FORCE_RELEASE
  {
    if n == 0 then e else Step(s, curve, amplitude, After(s, curve, amplitude, e, n - 1))
  }

  lemma {:induction false} AfterAdd(s: Shape, curve: Curve, amplitude: bool, e: Envelope, n: nat, m: nat)
    requires e.cur <= FORCE_RELEASE
    ensures After(s, curve, amplitude, e, n + m) == After(s, curve, amplitude, After(s, curve, amplitude, e, n), m)
  {
    hide Next;
    if m > 0 { AfterAdd(s, curve, amplitude, e, n, m - 1); }
  }

  /** Over any number of steps the phase only moves forward. */
  lemma {:induction false} RunMovesForward(s: Shape, curve: Curve, amplitude: bool, e: Envelope, n: nat, m: nat)
    requires s.Valid() && e.Valid() && e.cur <= FORCE_RELEASE && n <= m
    ensures After(s, curve, amplitude, e, n).Valid() && After(s, curve, amplitude, e, m).Valid()
    ensures After(s, curve, amplitude, e, n).cur <= After(s, curve, amplitude, e, m).cur
    decreases m
  {
    if n < m {
      RunMovesForward(s, curve, amplitude, e, n, m - 1);
      StepMovesForward(s, curve, amplitude, After(s, curve, amplitude, e, m - 1));
    } else if n > 0 {
      RunMovesForward(s, curve, amplitude, e, n - 1, n - 1);
      StepMovesForward(s, curve, amplitude, After(s, curve, amplitude, e, n - 1));
    }
  }

  /** A delay counts down and ends on the step that finds it at zero. */
  lemma {:induction false} DelayCounts(s: Shape, curve: Curve, amplitude: bool, e: Envelope, n: nat)
    requires e.cur == DELAY && n <= e.count
    ensures After(s, curve, amplitude, e, n).cur == DELAY
    ensures After(s, curve, amplitude, e, n).count == e.count - n
  {
    if n > 0 { DelayCounts(s, curve, amplitude, e, n - 1); }
  }

  lemma {:induction false} DelayLasts(s: Shape, curve: Curve, amplitude: bool, e: Envelope)
    requires e.cur == DELAY
    ensures After(s, curve, amplitude, e, e.count).cur == DELAY
    ensures After(s, curve, amplitude, e, e.count + 1) == Envelope(ATTACK, 0, 0)
  {
    DelayCounts(s, curve, amplitude, e, e.count);
  }

  /** The steps an attack takes to meet its end, counting up and around 16 bits. */
  function AttackSteps(s: Shape, count: nat): nat
    requires count < COUNT_LIMIT
  {
    if count <= s.attackRate * 16 then s.attackRate * 16 - count
    else s.attackRate * 16 + COUNT_LIMIT - count
  }

  lemma {:induction false} AttackCounts(s: Shape, curve: Curve, amplitude: bool, e: Envelope, n: nat)
    requires s.Valid() && e.Valid() && e.cur == ATTACK && n <= AttackSteps(s, e.count)
    ensures After(s, curve, amplitude, e, n).cur == ATTACK
    ensures After(s, curve, amplitude, e, n).count == if e.count + n < COUNT_LIMIT then e.count + n else e.count + n - COUNT_LIMIT
  {
    if n > 0 { AttackCounts(s, curve, amplitude, e, n - 1); }
  }

  lemma {:induction false} AttackLasts(s: Shape, curve: Curve, amplitude: bool, e: Envelope)
    requires s.Valid() && e.Valid() && e.cur == ATTACK
    ensures var n := AttackSteps(s, e.count);
      && After(s, curve, amplitude, e, n).cur == ATTACK
      && After(s, curve, amplitude, e, n + 1) == Envelope(HOLD, s.holdTime * 16, 255)
  {
    var n := AttackSteps(s, e.count);
    AttackCounts(s, curve, amplitude, e, n);
    if s.attackRate > 0 { FullPortion(s.attackRate * 16); }
  }

  lemma {:induction false} FullPortion(steps: nat)
    requires steps > 0
    ensures Portion(steps, steps) == 255
  {
    DivExact(255, steps);
  }

  lemma {:induction false} HoldCounts(s: Shape, curve: Curve, amplitude: bool, e: Envelope, n: nat)
    requires e.cur == HOLD && n <= e.count
    ensures After(s, curve, amplitude, e, n).cur == HOLD
    ensures After(s, curve, amplitude, e, n).count == e.count - n
  {
    if n > 0 { HoldCounts(s, curve, amplitude, e, n - 1); }
  }

  lemma {:induction false} HoldLasts(s: Shape, curve: Curve, amplitude: bool, e: Envelope)
    requires s.Valid() && e.cur == HOLD
    ensures After(s, curve, amplitude, e, e.count).cur == HOLD
    ensures After(s, curve, amplitude, e, e.count + 1) == Envelope(DECAY, s.decayRate * 16, 255)
  {
    HoldCounts(s, curve, amplitude, e, e.count);
  }

  /** A decay within its range counts down without wrapping as long as it lasts. */
  lemma {:induction false} DecayCounts(s: Shape, curve: Curve, amplitude: bool, e: Envelope, n: nat)
    requires s.Valid() && e.Valid() && e.cur == DECAY && e.count <= s.decayRate * 16
    ensures var after := After(s, curve, amplitude, e, n);
      && DECAY <= after.cur
      && (after.cur == DECAY ==> n <= e.count && after.count == e.count - n)
  {
    if n > 0 {
      DecayCounts(s, curve, amplitude, e, n - 1);
      var before := After(s, curve, amplitude, e, n - 1);
      if before.cur == DECAY {
        DecayValueRange(s, before.count);
      }
    }
  }

  /** So it ends within its count; entered above its range, it ends at once. */
  lemma {:induction false} DecayLasts(s: Shape, curve: Curve, amplitude: bool, e: Envelope)
    requires s.Valid() && e.Valid() && e.cur == DECAY
    ensures e.count <= s.decayRate * 16 ==> After(s, curve, amplitude, e, e.count + 1).cur >= SUSTAIN
    ensures e.count > s.decayRate * 16 ==> After(s, curve, amplitude, e, 1).cur == SUSTAIN
  {
    if e.count <= s.decayRate * 16 {
      DecayCounts(s, curve, amplitude, e, e.count + 1);
    } else {
      DecayValueRange(s, e.count);
      assert After(s, curve, amplitude, e, 1) == Step(s, curve, amplitude, After(s, curve, amplitude, e, 0));
    }
  }

  /** Within its range a decay never gets louder. */
  lemma {:induction false} DecayFalls(s: Shape, count: nat)
    requires s.Valid() && 0 < count <= s.decayRate * 16
    ensures DecayValue(s.decayRate, count - 1) <= DecayValue(s.decayRate, count)
  {
    ExponentGrows(s, count);
    PowFalls(DECAY_BASE, Exponent(s, count), Exponent(s, count - 1));
  }

  lemma {:induction false} SustainStays(s: Shape, curve: Curve, amplitude: bool, e: Envelope, n: nat)
    requires e.cur == SUSTAIN
    ensures After(s, curve, amplitude, e, n).cur == SUSTAIN
    ensures n > 0 ==> After(s, curve, amplitude, e, n) == Envelope(SUSTAIN, 0, s.sustainLevel)
  {
    if n > 0 { SustainStays(s, curve, amplitude, e, n - 1); }
  }

  lemma {:induction false} ReleaseCounts(s: Shape, curve: Curve, amplitude: bool, e: Envelope, n: nat)
    requires e.cur == RELEASE && s.releaseRate > 0 && n <= e.count
    ensures After(s, curve, amplitude, e, n) == Envelope(RELEASE, e.count - n, e.level)
  {
    if n > 0 { ReleaseCounts(s, curve, amplitude, e, n - 1); }
  }

  /** The steps of a release: a release rate of zero takes one. */
  function ReleaseSteps(s: Shape, count: nat): nat {
    if s.releaseRate == 0 then 1 else count + 1
  }

  lemma {:induction false} ReleaseLasts(s: Shape, curve: Curve, amplitude: bool, e: Envelope)
    requires e.cur == RELEASE
    ensures After(s, curve, amplitude, e, ReleaseSteps(s, e.count) - 1).cur == RELEASE
    ensures After(s, curve, amplitude, e, ReleaseSteps(s, e.count)).cur == FORCE_RELEASE
  {
    var n := ReleaseSteps(s, e.count) - 1;
    if s.releaseRate > 0 { ReleaseCounts(s, curve, amplitude, e, n); }
    assert After(s, curve, amplitude, e, n + 1) == Step(s, curve, amplitude, After(s, curve, amplitude, e, n));
  }

  /** Two stretches of a run, one after the other. */
  lemma {:induction false} Then(s: Shape, curve: Curve, amplitude: bool, e: Envelope, n: nat, mid: Envelope, m: nat,
        total: nat)
    requires e.cur <= FORCE_RELEASE && After(s, curve, amplitude, e, n) == mid && total == n + m
    ensures After(s, curve, amplitude, e, total) == After(s, curve, amplitude, mid, m)
  {
    hide Next;
    AfterAdd(s, curve, amplitude, e, n, m);
  }

  /** A voice switched on with a delay: delay, attack and hold last exactly as long as their
      times say, whatever the count was before. */
  lemma {:induction false} VoiceOnReachesAttack(s: Shape, curve: Curve, amplitude: bool, e: Envelope)
    requires s.Valid()
    ensures After(s, curve, amplitude, VoiceOn(s, DELAY, e), 16 * s.delayTime + 1) == Envelope(ATTACK, 0, 0)
  {
    DelayLasts(s, curve, amplitude, VoiceOn(s, DELAY, e));
  }

  lemma {:induction false} VoiceOnReachesHold(s: Shape, curve: Curve, amplitude: bool, e: Envelope, n: nat)
    requires s.Valid() && n == 16 * (s.delayTime + s.attackRate) + 2
    ensures After(s, curve, amplitude, VoiceOn(s, DELAY, e), n) == Envelope(HOLD, s.holdTime * 16, 255)
  {
    hide Next;
    var attack := Envelope(ATTACK, 0, 0);
    VoiceOnReachesAttack(s, curve, amplitude, e);
    AttackLasts(s, curve, amplitude, attack);
    Then(s, curve, amplitude, VoiceOn(s, DELAY, e), 16 * s.delayTime + 1, attack, 16 * s.attackRate + 1, n);
  }

  lemma {:induction false} VoiceOnReachesDecay(s: Shape, curve: Curve, amplitude: bool, e: Envelope, n: nat)
    requires s.Valid() && n == 16 * (s.delayTime + s.attackRate + s.holdTime) + 3
    ensures After(s, curve, amplitude, VoiceOn(s, DELAY, e), n) == Envelope(DECAY, s.decayRate * 16, 255)
  {
    hide Next;
    var on, hold := VoiceOn(s, DELAY, e), Envelope(HOLD, s.holdTime * 16, 255);
    var before, m := n - 16 * s.holdTime - 1, 16 * s.holdTime + 1;
    VoiceOnReachesHold(s, curve, amplitude, e, before);
    HoldLasts(s, curve, amplitude, hold);
    Then(s, curve, amplitude, on, before, hold, m, n);
  }

  /** And its sustain level is reached within a bound set by its four times. */
  lemma {:induction false} VoiceOnReachesSustain(s: Shape, curve: Curve, amplitude: bool, e: Envelope, n: nat)
    requires s.Valid() && n == 16 * (s.delayTime + s.attackRate + s.holdTime + s.decayRate) + 4
    ensures After(s, curve, amplitude, VoiceOn(s, DELAY, e), n).cur == SUSTAIN
  {
    hide Next;
    var decay := Envelope(DECAY, s.decayRate * 16, 255);
    VoiceOnReachesDecay(s, curve, amplitude, e, n - (16 * s.decayRate + 1));
    DecayLasts(s, curve, amplitude, decay);
    DecayEndsInSustain(s, curve, amplitude, decay, 16 * s.decayRate + 1);
    Then(s, curve, amplitude, VoiceOn(s, DELAY, e), n - (16 * s.decayRate + 1), decay, 16 * s.decayRate + 1, n);
  }

  lemma {:induction false} DecayEndsInSustain(s: Shape, curve: Curve, amplitude: bool, e: Envelope, n: nat)
    requires e.cur == DECAY
    ensures DECAY <= After(s, curve, amplitude, e, n).cur <= SUSTAIN
  {
    if n > 0 { DecayEndsInSustain(s, curve, amplitude, e, n - 1); }
  }

  /** A released amplitude envelope switches the voice off on the step after its release, and
      a filter envelope never does. */
  lemma {:induction false} ReleaseEndsVoice(s: Shape, curve: Curve, amplitude: bool, e: Envelope, n: nat)
    requires e.Valid()
    ensures var released := VoiceRelease(s, e);
      Next(s, curve, amplitude, After(s, curve, amplitude, released, n)).ended
      <==> amplitude && n >= 16 * s.releaseRate + 1
  {
    var released := VoiceRelease(s, e);
    var last := 16 * s.releaseRate + 1;
    ReleaseLasts(s, curve, amplitude, released);
    if n < last {
      if s.releaseRate > 0 { ReleaseCounts(s, curve, amplitude, released, n); }
    } else {
      var forced := After(s, curve, amplitude, released, last);
      ForcedStays(s, curve, amplitude, forced, n - last);
      Then(s, curve, amplitude, released, last, forced, n - last, n);
    }
  }

  lemma {:induction false} ForcedStays(s: Shape, curve: Curve, amplitude: bool, e: Envelope, n: nat)
    requires e.cur == FORCE_RELEASE
    ensures After(s, curve, amplitude, e, n).cur == FORCE_RELEASE
  {
    if n > 0 { ForcedStays(s, curve, amplitude, e, n - 1); }
  }

  // ---- What the phases sound like ----

  /** The value of step `n`. */
  function ValueAt(s: Shape, curve: Curve, amplitude: bool, e: Envelope, n: nat): real
    requires e.cur <= FORCE_RELEASE
  {
    Next(s, curve, amplitude, After(s, curve, amplitude, e, n)).value
  }

  /** How far `n` of so many steps are, in whole parts of 255 and exactly. */
  function Parts(n: nat, steps: nat): (parts: nat)
    requires steps > 0
  {
    DivNonNegative(n * 255, steps);
    n * 255 / steps
  }

  function Fraction(n: nat, steps: nat): real
    requires steps > 0
  {
    n as real / steps as real
  }

  function AtLevel(x: real, level: nat): real {
    x * level as real / 255.0
  }

  /** The exponent of a decay that takes it to 65536 in sixteen times its rate. */
  function DecayedBy(n: nat, rate: nat): (x: nat)
    requires rate > 0
  {
    DivNonNegative(n * 4096, rate);
    n * 4096 / rate
  }

  lemma {:induction false} DelayIsSilent(s: Shape, curve: Curve, amplitude: bool, e: Envelope, n: nat)
    requires e.cur == DELAY && n <= e.count
    ensures ValueAt(s, curve, amplitude, e, n) == 0.0
  {
    DelayCounts(s, curve, amplitude, e, n);
  }

  /** An attack climbs from silence in whole parts of 255; one without a rate is full at once. */
  lemma {:induction false} AttackSounds(s: Shape, curve: Curve, amplitude: bool, e: Envelope, n: nat)
    requires s.Valid() && e.Valid() && e.cur == ATTACK && e.count == 0 && n <= 16 * s.attackRate
    ensures s.attackRate == 0 ==> ValueAt(s, curve, amplitude, e, n) == 1.0
    ensures s.attackRate > 0 ==> ValueAt(s, curve, amplitude, e, n) == Parts(n, 16 * s.attackRate) as real / 255.0
  {
    AttackCounts(s, curve, amplitude, e, n);
  }

  lemma {:induction false} AttackRises(s: Shape, curve: Curve, amplitude: bool, e: Envelope, n: nat, m: nat)
    requires s.Valid() && e.Valid() && e.cur == ATTACK && e.count == 0 && n <= m <= 16 * s.attackRate
    ensures ValueAt(s, curve, amplitude, e, n) <= ValueAt(s, curve, amplitude, e, m)
    ensures s.attackRate > 0 ==> ValueAt(s, curve, amplitude, e, 0) == 0.0
    ensures ValueAt(s, curve, amplitude, e, 16 * s.attackRate) == 1.0
  {
    var steps := 16 * s.attackRate;
    AttackSounds(s, curve, amplitude, e, n);
    AttackSounds(s, curve, amplitude, e, m);
    AttackSounds(s, curve, amplitude, e, 0);
    AttackSounds(s, curve, amplitude, e, steps);
    hide ValueAt;
    if steps > 0 {
      DivMonotone(n * 255, m * 255, steps);
      DivExact(255, steps);
      DivExact(0, steps);
      hide Parts;
    }
  }

  lemma {:induction false} HoldIsFull(s: Shape, curve: Curve, amplitude: bool, e: Envelope, n: nat)
    requires e.cur == HOLD && n <= e.count
    ensures ValueAt(s, curve, amplitude, e, n) == 1.0
  {
    HoldCounts(s, curve, amplitude, e, n);
  }

  /** A whole decay, for as long as it lasts: a power of 0.99988799 that goes from 0 to 65536 over
      its count. */
  lemma {:induction false} DecaySounds(s: Shape, curve: Curve, amplitude: bool, e: Envelope, n: nat)
    requires s.Valid() && e.Valid() && e.cur == DECAY && e.count == 16 * s.decayRate
    requires After(s, curve, amplitude, e, n).cur == DECAY
    ensures s.decayRate == 0 ==> ValueAt(s, curve, amplitude, e, n) == 0.0
    ensures s.decayRate > 0 ==> ValueAt(s, curve, amplitude, e, n) == Pow(0.99988799, DecayedBy(n, s.decayRate))
    ensures s.decayRate > 0 && n == 0 ==> ValueAt(s, curve, amplitude, e, n) == 1.0
  {
    DecayCounts(s, curve, amplitude, e, n);
    if s.decayRate > 0 {
      DivExact(0, s.decayRate);
      var x := DecayedBy(n, s.decayRate);
      assert DecayValue(s.decayRate, e.count - n) == 255.0 * Pow(DECAY_BASE, x);
      FullScale(Pow(DECAY_BASE, x));
    }
  }

  lemma {:induction false} FullScale(x: real)
    ensures 255.0 * x / 255.0 == x
  {
  }

  lemma {:induction false} SustainSounds(s: Shape, curve: Curve, amplitude: bool, e: Envelope, n: nat)
    requires e.cur == SUSTAIN
    ensures ValueAt(s, curve, amplitude, e, n) == s.sustainLevel as real / 255.0
  {
    SustainStays(s, curve, amplitude, e, n);
  }

  lemma {:induction false} NoteAttacks(s: Shape, curve: Curve, amplitude: bool, e: Envelope, k: nat)
    requires s.Valid() && k <= 16 * s.attackRate
    ensures var on, n := VoiceOn(s, DELAY, e), 16 * s.delayTime + 1 + k;
      && After(s, curve, amplitude, on, n).cur == ATTACK
      && ValueAt(s, curve, amplitude, on, n)
        == if s.attackRate == 0 then 1.0 else Parts(k, 16 * s.attackRate) as real / 255.0
  {
    var silent := Envelope(ATTACK, 0, 0);
    VoiceOnReachesAttack(s, curve, amplitude, e);
    AttackSounds(s, curve, amplitude, silent, k);
    AttackCounts(s, curve, amplitude, silent, k);
    hide Next, Parts, After, VoiceOn;
    Then(s, curve, amplitude, VoiceOn(s, DELAY, e), 16 * s.delayTime + 1, silent, k, 16 * s.delayTime + 1 + k);
  }

  lemma {:induction false} NoteHolds(s: Shape, curve: Curve, amplitude: bool, e: Envelope, k: nat)
    requires s.Valid() && k <= 16 * s.holdTime
    ensures var on, n := VoiceOn(s, DELAY, e), 16 * (s.delayTime + s.attackRate) + 2 + k;
      After(s, curve, amplitude, on, n).cur == HOLD && ValueAt(s, curve, amplitude, on, n) == 1.0
  {
    var full, hold := Envelope(HOLD, s.holdTime * 16, 255), 16 * (s.delayTime + s.attackRate) + 2;
    VoiceOnReachesHold(s, curve, amplitude, e, hold);
    HoldIsFull(s, curve, amplitude, full, k);
    HoldCounts(s, curve, amplitude, full, k);
    hide Next, After, VoiceOn;
    Then(s, curve, amplitude, VoiceOn(s, DELAY, e), hold, full, k, hold + k);
  }

  lemma {:induction false} NoteDecays(s: Shape, curve: Curve, amplitude: bool, e: Envelope, k: nat)
    requires s.Valid() && e.Valid()
    ensures var on, n := VoiceOn(s, DELAY, e), 16 * (s.delayTime + s.attackRate + s.holdTime) + 3 + k;
      After(s, curve, amplitude, on, n).cur == DECAY ==>
        ValueAt(s, curve, amplitude, on, n) == if s.decayRate == 0 then 0.0 else Pow(0.99988799, DecayedBy(k, s.decayRate))
  {
    var full, decay := Envelope(DECAY, s.decayRate * 16, 255), 16 * (s.delayTime + s.attackRate + s.holdTime) + 3;
    VoiceOnReachesDecay(s, curve, amplitude, e, decay);
    hide Next, After, VoiceOn, Pow, DecayedBy;
    Then(s, curve, amplitude, VoiceOn(s, DELAY, e), decay, full, k, decay + k);
    if After(s, curve, amplitude, full, k).cur == DECAY { DecaySounds(s, curve, amplitude, full, k); }
  }

  /** A decay is over on the step that is within 0.2 of 255 of its sustain level, or above full. */
  lemma {:induction false} DecayEndsIff(s: Shape, curve: Curve, amplitude: bool, e: Envelope)
    requires s.Valid() && e.Valid() && e.cur == DECAY
    ensures var r := Next(s, curve, amplitude, e);
      r.envelope.cur == SUSTAIN <==> r.value * 255.0 <= s.sustainLevel as real + 0.2 || r.value > 1.0
  {
    var x := DecayValue(s.decayRate, e.count);
    hide DecayValue;
    assert x / 255.0 * 255.0 == x && (x / 255.0 > 1.0 <==> x > 255.0);
  }

  /** How loud a decay entered above its range is. */
  lemma {:induction false} DecayAboveRange(s: Shape, curve: Curve, amplitude: bool, e: Envelope)
    requires s.Valid() && e.Valid() && e.cur == DECAY && 0 < 16 * s.decayRate < e.count
    ensures Next(s, curve, amplitude, e).value * Pow(0.99988799, DecayedBy(e.count - 16 * s.decayRate, s.decayRate)) == 1.0
  {
    var over := e.count - 16 * s.decayRate;
    var n := DecayedBy(over, s.decayRate);
    ExponentSign(s, e.count);
    assert (s.decayRate * 16 - e.count) * 4096 == -(over * 4096);
    assert Exponent(s, e.count) + n == 0;
    PowUnit(DECAY_BASE, n);
    FullScale(1.0 / Pow(DECAY_BASE, n));
    assert 1.0 / Pow(DECAY_BASE, n) * Pow(DECAY_BASE, n) == 1.0;
  }

  /** An envelope that is off leaves its voice as it is, and one that was cut off is silent. */
  lemma {:induction false} RestSounds(s: Shape, curve: Curve, amplitude: bool, e: Envelope, n: nat)
    requires e.cur == OFF || e.cur == FORCE_RELEASE
    ensures ValueAt(s, curve, amplitude, e, n) == if e.cur == OFF then 1.0 else 0.0
  {
    if e.cur == FORCE_RELEASE {
      ForcedStays(s, curve, amplitude, e, n);
    } else {
      OffStays(s, curve, amplitude, e, n);
    }
  }

  lemma {:induction false} OffStays(s: Shape, curve: Curve, amplitude: bool, e: Envelope, n: nat)
    requires e.cur == OFF
    ensures After(s, curve, amplitude, e, n).cur == OFF
  {
    if n > 0 { OffStays(s, curve, amplitude, e, n - 1); }
  }

  /** The level register holds what was last heard, in whole parts of 255, so that a release takes
      over from there; only the step that ends a decay leaves it. */
  lemma {:induction false} LevelFollows(s: Shape, curve: Curve, amplitude: bool, e: Envelope)
    requires s.Valid() && e.Valid() && e.cur <= SUSTAIN
    requires e.cur == DECAY ==> Next(s, curve, amplitude, e).envelope.cur == DECAY
    ensures var value, level := Next(s, curve, amplitude, e).value, Next(s, curve, amplitude, e).envelope.level;
      level as real <= value * 255.0 < level as real + 1.0
  {
    if e.cur == DECAY {
      DecayValueRange(s, e.count);
      var x := DecayValue(s.decayRate, e.count);
      hide DecayValue;
      assert 0.0 <= x <= 255.0;
      assert x / 255.0 * 255.0 == x;
    }
  }

  /** A note: silent for its delay, then an attack from silence to full, full for its hold, then
      a decay from full until it meets the sustain level, which stays. */
  lemma {:induction false} NoteSounds(s: Shape, curve: Curve, amplitude: bool, e: Envelope, n: nat)
    requires s.Valid() && e.Valid()
    ensures var on := VoiceOn(s, DELAY, e);
      var attack, hold := 16 * s.delayTime + 1, 16 * (s.delayTime + s.attackRate) + 2;
      var decay, value := 16 * (s.delayTime + s.attackRate + s.holdTime) + 3, ValueAt(s, curve, amplitude, on, n);
      && (n < attack ==> value == 0.0)
      && (attack <= n < hold ==>
           value == if s.attackRate == 0 then 1.0 else Parts(n - attack, 16 * s.attackRate) as real / 255.0)
      && (hold <= n < decay ==> value == 1.0)
      && (decay <= n && After(s, curve, amplitude, on, n).cur == DECAY ==>
           value == if s.decayRate == 0 then 0.0 else Pow(0.99988799, DecayedBy(n - decay, s.decayRate)))
      && (After(s, curve, amplitude, on, n).cur == SUSTAIN ==> value == s.sustainLevel as real / 255.0)
  {
    var on := VoiceOn(s, DELAY, e);
    var attack, hold := 16 * s.delayTime + 1, 16 * (s.delayTime + s.attackRate) + 2;
    var decay, after := 16 * (s.delayTime + s.attackRate + s.holdTime) + 3, After(s, curve, amplitude, on, n);
    if n < attack {
      DelayIsSilent(s, curve, amplitude, on, n);
      DelayCounts(s, curve, amplitude, on, n);
    } else if n < hold {
      NoteAttacks(s, curve, amplitude, e, n - attack);
    } else if n < decay {
      NoteHolds(s, curve, amplitude, e, n - hold);
    } else {
      NoteDecays(s, curve, amplitude, e, n - decay);
    }
    if after.cur == SUSTAIN { SustainSounds(s, curve, amplitude, after, 0); }
    hide Next, Parts, DecayedBy, Pow;
  }

  /** VOICE_ON straight into an attack or a hold starts that phase from its beginning. */
  lemma {:induction false} LateStartSounds(s: Shape, curve: Curve, amplitude: bool, e: Envelope, n: nat)
    requires s.Valid() && e.Valid()
    ensures n <= 16 * s.attackRate ==>
      ValueAt(s, curve, amplitude, VoiceOn(s, ATTACK, e), n)
        == if s.attackRate == 0 then 1.0 else Parts(n, 16 * s.attackRate) as real / 255.0
    ensures After(s, curve, amplitude, VoiceOn(s, ATTACK, e), 16 * s.attackRate + 1) == Envelope(HOLD, 16 * s.holdTime, 255)
    ensures n <= 16 * s.holdTime ==> ValueAt(s, curve, amplitude, VoiceOn(s, HOLD, e), n) == 1.0
    ensures After(s, curve, amplitude, VoiceOn(s, HOLD, e), 16 * s.holdTime + 1) == Envelope(DECAY, 16 * s.decayRate, 255)
  {
    var attack, hold := VoiceOn(s, ATTACK, e), VoiceOn(s, HOLD, e);
    assert attack == Envelope(ATTACK, 0, e.level) && hold == Envelope(HOLD, 16 * s.holdTime, e.level);
    hide Next, After, Parts, VoiceOn;
    if n <= 16 * s.attackRate { AttackSounds(s, curve, amplitude, attack, n); }
    AttackLasts(s, curve, amplitude, attack);
    if n <= 16 * s.holdTime { HoldIsFull(s, curve, amplitude, hold, n); }
    HoldLasts(s, curve, amplitude, hold);
  }

  lemma {:induction false} ReleaseSilent(s: Shape, curve: Curve, amplitude: bool, e: Envelope, n: nat)
    requires n >= 16 * s.releaseRate
    ensures ValueAt(s, curve, amplitude, VoiceRelease(s, e), n) == 0.0
  {
    var released, steps := VoiceRelease(s, e), 16 * s.releaseRate;
    ReleaseLasts(s, curve, amplitude, released);
    if n == steps {
      if steps > 0 { ReleaseCounts(s, curve, amplitude, released, n); }
    } else {
      var forced := After(s, curve, amplitude, released, steps + 1);
      Then(s, curve, amplitude, released, steps + 1, forced, n - steps - 1, n);
      ForcedStays(s, curve, amplitude, forced, n - steps - 1);
    }
    hide After, ReleaseValue;
  }

  /** A release follows its curve from the level the voice had, and then is silent. */
  lemma {:induction false} ReleaseSounds(s: Shape, curve: Curve, amplitude: bool, e: Envelope, n: nat)
    requires s.Valid() && e.Valid()
    ensures var value := ValueAt(s, curve, amplitude, VoiceRelease(s, e), n);
      && (n < 16 * s.releaseRate ==> value == AtLevel(curve(Fraction(n, 16 * s.releaseRate)), e.level))
      && (n >= 16 * s.releaseRate ==> value == 0.0)
  {
    hide ReleaseValue, Fraction, After, AtLevel;
    if n < 16 * s.releaseRate {
      ReleaseCounts(s, curve, amplitude, VoiceRelease(s, e), n);
      ReleasePosition(curve, s.releaseRate, n, e.level);
    } else {
      ReleaseSilent(s, curve, amplitude, e, n);
    }
  }

  lemma {:induction false} ReleasePosition(curve: Curve, rate: nat, n: nat, level: nat)
    requires n < 16 * rate
    ensures ReleaseValue(curve, rate, 16 * rate - n, level) == AtLevel(curve(Fraction(n, 16 * rate)), level)
  {
    var steps := rate as real * 16.0;
    Complement(n as real, steps);
    var pos := 1.0 - (16 * rate - n) as real / steps;
    assert pos == Fraction(n, 16 * rate) && Clamp(pos, 0.0, 1.0) == pos;
  }

  lemma {:induction false} Complement(x: real, y: real)
    requires 0.0 <= x < y
    ensures 1.0 - (y - x) / y == x / y && 0.0 <= x / y <= 1.0
  {
    QuotientGrows(0.0, x, y);
    QuotientGrows(x, y, y);
    assert y / y == 1.0 && (y - x) / y == y / y - x / y;
  }

  ghost predicate Falling(curve: Curve) {
    forall p, q :: 0.0 <= p <= q <= 1.0 ==> curve(q) <= curve(p)
  }

  /** With a curve that falls from 1 a release starts at the voice's level and never gets
      louder. */
  lemma {:induction false} ReleaseFades(s: Shape, curve: Curve, amplitude: bool, e: Envelope, n: nat, m: nat)
    requires s.Valid() && e.Valid() && Fading(curve) && Falling(curve) && curve(0.0) == 1.0 && n <= m
    ensures s.releaseRate > 0 ==> ValueAt(s, curve, amplitude, VoiceRelease(s, e), 0) == e.level as real / 255.0
    ensures ValueAt(s, curve, amplitude, VoiceRelease(s, e), m) <= ValueAt(s, curve, amplitude, VoiceRelease(s, e), n)
  {
    var steps := 16 * s.releaseRate;
    ReleaseSounds(s, curve, amplitude, e, 0);
    ReleaseSounds(s, curve, amplitude, e, n);
    ReleaseSounds(s, curve, amplitude, e, m);
    hide *;
    if n < steps { CurveFades(curve, e.level, n, m, steps); }
  }

  lemma {:induction false} CurveFades(curve: Curve, level: nat, n: nat, m: nat, steps: nat)
    requires Fading(curve) && Falling(curve) && curve(0.0) == 1.0 && n <= m && n < steps
    ensures AtLevel(curve(Fraction(0, steps)), level) == level as real / 255.0 && AtLevel(curve(Fraction(n, steps)), level) >= 0.0
    ensures m < steps ==> AtLevel(curve(Fraction(m, steps)), level) <= AtLevel(curve(Fraction(n, steps)), level)
  {
    FractionGrows(0, n, steps);
    var p := Fraction(n, steps);
    assert 0.0 <= curve(p) <= 1.0;
    ScaledDown(0.0, curve(p), level);
    if m < steps {
      FractionGrows(n, m, steps);
      var q := Fraction(m, steps);
      assert 0.0 <= curve(q) <= 1.0 && curve(q) <= curve(p);
      ScaledDown(curve(q), curve(p), level);
    }
    hide Fraction;
  }

  lemma {:induction false} FractionGrows(n: nat, m: nat, steps: nat)
    requires n <= m < steps
    ensures 0.0 <= Fraction(n, steps) <= Fraction(m, steps) <= 1.0 && Fraction(0, steps) == 0.0
  {
    Complement(n as real, steps as real);
    Complement(m as real, steps as real);
    QuotientGrows(n as real, m as real, steps as real);
  }

  lemma {:induction false} QuotientGrows(x: real, y: real, z: real)
    requires x <= y && z > 0.0
    ensures x / z <= y / z && 0.0 / z == 0.0
  {
    var a, b := x / z, y / z;
    assert a * z == x && b * z == y;
    assert (b - a) * z >= 0.0;
  }

  lemma {:induction false} ScaledDown(x: real, y: real, level: nat)
    requires 0.0 <= x <= y
    ensures 0.0 <= AtLevel(x, level) <= AtLevel(y, level)
  {
    var l := level as real;
    assert 0.0 <= x * l;
    assert (y - x) * l >= 0.0;
  }
}
