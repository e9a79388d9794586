/** What the register combiners compute, said channel by channel and register by register: which
    input is in which register, what a stage and the final combiner make of their inputs, and
    what the mappings do to a value. */
module CombinerLaws {
  import opened Colors
  import opened CombinerState
  import R = RegisterCombiners

  /** Red, green and blue by number. */
  function Channel(x: Vec3, i: nat): real {
    if i == 0 then x.r else if i == 1 then x.g else x.b
  }

  function Limited(x: real, low: real, high: real): real {
    if x < low then low else if x > high then high else x
  }

  // ---- Mappings ----

  /** A value below zero counts as zero in an unsigned mapping. */
  function Positive(x: real): real {
    if x < 0.0 then 0.0 else x
  }

  lemma {:induction false} InputMappings(x: real)
    ensures R.MapValue(UnsignedIdentity, x) == Positive(x)
    ensures R.MapValue(UnsignedInvert, x) == 1.0 - Limited(x, 0.0, 1.0)
    ensures R.MapValue(ExpandNormal, x) == 2.0 * Positive(x) - 1.0 && R.MapValue(ExpandNegate, x) == 1.0 - 2.0 * Positive(x)
    ensures R.MapValue(HalfbiasNormal, x) == Positive(x) - 0.5 && R.MapValue(HalfbiasNegate, x) == 0.5 - Positive(x)
    ensures R.MapValue(SignedIdentity, x) == x && R.MapValue(SignedNegate, x) == -x
  {
  }

  lemma {:induction false} ClampLimits(x: real, low: real, high: real)
    requires low <= high
    ensures Clamp(x, low, high) == Limited(x, low, high)
  {
  }

  lemma {:induction false} OutputOf(m: OutputMapping, x: real, bias: real, scale: real)
    requires R.Bias(m) == bias && R.Scale(m) == scale
    ensures R.OutputValue(m, x) == Limited((x + bias) * scale, -1.0, 1.0)
  {
    ClampLimits((x + bias) * scale, -1.0, 1.0);
    hide Clamp, Limited;
  }

  /** A result is moved by -1/2 or not, multiplied by 1, 2, 4 or 1/2, and held between -1 and 1. */
  lemma {:induction false} OutputMappings(m: OutputMapping, x: real)
    ensures m == OutIdentity ==> R.OutputValue(m, x) == Limited(x, -1.0, 1.0)
    ensures m == OutBias ==> R.OutputValue(m, x) == Limited(x - 0.5, -1.0, 1.0)
    ensures m == ShiftLeft1 ==> R.OutputValue(m, x) == Limited(2.0 * x, -1.0, 1.0)
    ensures m == ShiftLeft1Bias ==> R.OutputValue(m, x) == Limited(2.0 * x - 1.0, -1.0, 1.0)
    ensures m == ShiftLeft2 ==> R.OutputValue(m, x) == Limited(4.0 * x, -1.0, 1.0)
    ensures m == ShiftLeft2Bias ==> R.OutputValue(m, x) == Limited(4.0 * x - 2.0, -1.0, 1.0)
    ensures m == ShiftRight1 ==> R.OutputValue(m, x) == Limited(x / 2.0, -1.0, 1.0)
    ensures m == ShiftRight1Bias ==> R.OutputValue(m, x) == Limited(x / 2.0 - 0.25, -1.0, 1.0)
  {
    hide R.OutputValue, Limited;
    match m
    case OutIdentity => OutputOf(m, x, 0.0, 1.0);
    case OutBias => OutputOf(m, x, -0.5, 1.0);
    case ShiftLeft1 => OutputOf(m, x, 0.0, 2.0);
    case ShiftLeft1Bias => OutputOf(m, x, -0.5, 2.0);
    case ShiftLeft2 => OutputOf(m, x, 0.0, 4.0);
    case ShiftLeft2Bias => OutputOf(m, x, -0.5, 4.0);
    case ShiftRight1 => OutputOf(m, x, 0.0, 0.5);
    case ShiftRight1Bias => OutputOf(m, x, -0.5, 0.5);
  }

  /** A mapping works on every channel for itself; an input that replicates alpha reads it into
      all three, and the alpha portion reads blue where it does not read alpha. */
  lemma {:induction false} InputChannels(j: Input, f: R.File, c0: Vec4, c1: Vec4, i: nat)
    requires i < 3
    ensures var v := R.Value(f, j.reg, c0, c1);
      && Channel(R.ColorInput(j, f, c0, c1), i) == R.MapValue(j.mapping, if j.alphaRep then v.a else Channel(v.rgb, i))
      && R.AlphaInput(j, f, c0, c1) == R.MapValue(j.mapping, if j.alphaRep then v.a else v.rgb.b)
  {
  }

  // ---- A stage ----

  /** AB and CD are products by channel, or dot products in every channel; the third result is
      their sum, or the one the mux takes. Alpha has no dot product. */
  lemma {:induction false} StageChannels(g: Stage, f: R.File, mux: bool, c0: Vec4, c1: Vec4, i: nat)
    requires g.Valid() && i < 3
    ensures var r := R.RawResults(g, f, mux, c0, c1);
      var a, b := R.ColorInput(g.rgbInput[0], f, c0, c1), R.ColorInput(g.rgbInput[1], f, c0, c1);
      var c, d := R.ColorInput(g.rgbInput[2], f, c0, c1), R.ColorInput(g.rgbInput[3], f, c0, c1);
      && Channel(r.ab, i)
        == (if g.rgbOutput.abDot then a.r * b.r + a.g * b.g + a.b * b.b else Channel(a, i) * Channel(b, i))
      && Channel(r.cd, i)
        == (if g.rgbOutput.cdDot then c.r * d.r + c.g * d.g + c.b * d.b else Channel(c, i) * Channel(d, i))
      && Channel(r.sum, i)
        == (if !g.rgbOutput.muxSum then Channel(r.ab, i) + Channel(r.cd, i) else if mux then Channel(r.cd, i) else Channel(r.ab, i))
  {
    hide R.ColorInput, R.AlphaInput;
  }

  lemma {:induction false} StageAlphas(g: Stage, f: R.File, mux: bool, c0: Vec4, c1: Vec4)
    requires g.Valid()
    ensures var r := R.RawResults(g, f, mux, c0, c1);
      && r.abA == R.AlphaInput(g.alphaInput[0], f, c0, c1) * R.AlphaInput(g.alphaInput[1], f, c0, c1)
      && r.cdA == R.AlphaInput(g.alphaInput[2], f, c0, c1) * R.AlphaInput(g.alphaInput[3], f, c0, c1)
      && r.sumA == if !g.alphaOutput.muxSum then r.abA + r.cdA else if mux then r.cdA else r.abA
  {
    hide R.ColorInput, R.AlphaInput;
  }

  // ---- The final combiner ----

  /** Before it reads, V1 and R0 are added, each from one if it is complemented, and E and F
      multiplied. */
  lemma {:induction false} SpecialChannels(s: State, k: R.Constants, f: R.File, i: nat)
    requires s.Valid() && i < 3
    ensures var g := R.WithProduct(s, k, f);
      var v1 := if s.finalFlags.complementV1 then 1.0 - Channel(f[REG_V1].rgb, i) else Channel(f[REG_V1].rgb, i);
      var r0 := if s.finalFlags.complementR0 then 1.0 - Channel(f[REG_R0].rgb, i) else Channel(f[REG_R0].rgb, i);
      && Channel(g[REG_V1R0_SUM].rgb, i) == (if s.finalFlags.clampSum then Limited(v1 + r0, 0.0, 1.0) else v1 + r0)
      && g[REG_V1R0_SUM].a == 0.0 && g[REG_EF_PROD].a == 0.0
      && forall r {:trigger g[r]} :: 0 <= r < REG_V1R0_SUM ==> g[r] == f[r]
  {
    hide R.ColorInput, Mul;
  }

  lemma {:induction false} ProductChannels(s: State, k: R.Constants, f: R.File, i: nat)
    requires s.Valid() && i < 3
    ensures var g := R.WithSum(s, f);
      var e, e' := R.ColorInput(s.final[4], g, k.final0, k.final1), R.ColorInput(s.final[5], g, k.final0, k.final1);
      Channel(R.WithProduct(s, k, f)[REG_EF_PROD].rgb, i) == Channel(e, i) * Channel(e', i)
  {
    hide R.ColorInput, R.WithSum;
  }

  function Blended(a: real, b: real, c: real, d: real): real {
    d + a * b + (1.0 - a) * c
  }

  lemma {:induction false} SumChannel(x: Vec3, y: Vec3, i: nat)
    ensures Channel(Add(x, y), i) == Channel(x, i) + Channel(y, i)
    ensures Channel(Sub(x, y), i) == Channel(x, i) - Channel(y, i)
  {
  }

  lemma {:induction false} BlendChannel(a: Vec3, b: Vec3, c: Vec3, d: Vec3, i: nat)
    ensures Channel(Add(Add(d, Mul(a, b)), Mul(Sub(Splat(1.0), a), c)), i)
         == Blended(Channel(a, i), Channel(b, i), Channel(c, i), Channel(d, i))
  {
    var ab, rest := Mul(a, b), Mul(Sub(Splat(1.0), a), c);
    assert Channel(ab, i) == Channel(a, i) * Channel(b, i);
    assert Channel(rest, i) == (1.0 - Channel(a, i)) * Channel(c, i);
    SumChannel(d, ab, i);
    SumChannel(Add(d, ab), rest, i);
    hide Add, Mul, Sub, Channel;
  }

  lemma {:induction false} LimitChannel(x: Vec3, i: nat)
    ensures Channel(Clamp3(x, 0.0, 1.0), i) == Limited(Channel(x, i), 0.0, 1.0)
  {
  }

  /** The colour is D + AB + (1 - A)C, between 0 and 1, and the alpha is G's. */
  lemma {:induction false} FinalChannels(s: State, k: R.Constants, f: R.File, i: nat)
    requires s.Valid()
    ensures var g, color := R.WithProduct(s, k, f), R.FinalColor(s, k, f);
      var a := Channel(R.ColorInput(s.final[0], g, k.final0, k.final1), i);
      var b := Channel(R.ColorInput(s.final[1], g, k.final0, k.final1), i);
      var c := Channel(R.ColorInput(s.final[2], g, k.final0, k.final1), i);
      var d := Channel(R.ColorInput(s.final[3], g, k.final0, k.final1), i);
      && Channel(color.rgb, i) == Limited(Blended(a, b, c, d), 0.0, 1.0)
      && color.a == R.AlphaInput(s.final[6], g, k.final0, k.final1)
  {
    hide R.ColorInput, R.AlphaInput, R.WithProduct, Channel, Clamp3, Add, Mul, Sub, Limited, Blended;
    var g := R.WithProduct(s, k, f);
    var a, b := R.ColorInput(s.final[0], g, k.final0, k.final1), R.ColorInput(s.final[1], g, k.final0, k.final1);
    var c, d := R.ColorInput(s.final[2], g, k.final0, k.final1), R.ColorInput(s.final[3], g, k.final0, k.final1);
    LimitChannel(Add(Add(d, Mul(a, b)), Mul(Sub(Splat(1.0), a), c)), i);
    BlendChannel(a, b, c, d, i);
  }

  // ---- Which input is in which register ----

  predicate WritesNothing(o: Output) {
    o.abDst == REG_ZERO && o.cdDst == REG_ZERO && o.sumDst == REG_ZERO
  }

  const ZERO: Input := Input(REG_ZERO, false, UnsignedIdentity)

  /** The stages write nothing, and the final combiner passes register `reg` on as it is. */
  ghost predicate Shows(s: State, reg: Register)
    requires s.Valid()
  {
    && (forall i {:trigger s.stages[i]} :: 0 <= i < s.numStages ==>
         WritesNothing(s.stages[i].rgbOutput) && WritesNothing(s.stages[i].alphaOutput))
    && s.final[0] == s.final[1] == s.final[2] == s.final[4] == s.final[5] == ZERO
    && s.final[3] == Input(reg, false, SignedIdentity) && s.final[6] == Input(reg, true, SignedIdentity)
  }

  lemma {:induction false} NothingWritten(s: State, k: R.Constants, f: R.File, n: nat)
    requires s.Valid() && k.Valid() && n <= s.numStages
    requires forall i {:trigger s.stages[i]} :: 0 <= i < n ==>
      WritesNothing(s.stages[i].rgbOutput) && WritesNothing(s.stages[i].alphaOutput)
    ensures R.AfterStages(s, k, f, n) == f
  {
    if n > 0 {
      NothingWritten(s, k, f, n - 1);
      hide R.StageResults;
      var i := n - 1;
      var r := R.StageResults(s, s.stages[i], f, k.c0[R.C0Stage(s, i)], k.c1[R.C1Stage(s, i)]);
      assert R.Updated(s.stages[i], r, f) == f;
    }
  }

  function InUnit(c: Vec4): Vec4 {
    Vec4(Vec3(Limited(c.rgb.r, 0.0, 1.0), Limited(c.rgb.g, 0.0, 1.0), Limited(c.rgb.b, 0.0, 1.0)), c.a)
  }

  lemma {:induction false} FinalShows(s: State, k: R.Constants, f: R.File, reg: Register)
    requires s.Valid() && Shows(s, reg) && f[REG_ZERO] == BLACK && reg < REG_V1R0_SUM
    ensures R.FinalColor(s, k, f) == InUnit(R.Value(f, reg, k.final0, k.final1))
  {
    var g := R.WithProduct(s, k, f);
    SpecialChannels(s, k, f, 0);
    assert R.ColorInput(ZERO, g, k.final0, k.final1) == Vec3(0.0, 0.0, 0.0);
    assert R.ColorInput(s.final[3], g, k.final0, k.final1) == R.Value(f, reg, k.final0, k.final1).rgb;
    assert R.AlphaInput(s.final[6], g, k.final0, k.final1) == R.Value(f, reg, k.final0, k.final1).a;
    FinalChannels(s, k, f, 0);
    FinalChannels(s, k, f, 1);
    FinalChannels(s, k, f, 2);
    hide R.FinalColor, R.WithProduct, R.Value, R.ColorInput, R.AlphaInput;
  }

  /** Each register a title can name shows what it is named after: zero, the final combiner's own
      constants, the fog, the two interpolated colours, the four textures; R0 starts black with
      texture 0's alpha, or 1 if stage 0 samples nothing, and R1 black. */
  lemma {:induction false} RegistersShow(s: State, k: R.Constants, p: R.Interpolants, reg: Register)
    requires s.Valid() && k.Valid() && p.Valid() && Shows(s, reg) && reg < REG_V1R0_SUM
    ensures reg == REG_ZERO || reg == REG_R1 ==> R.Pixel(s, k, p) == BLACK
    ensures reg == REG_C0 ==> R.Pixel(s, k, p) == InUnit(k.final0)
    ensures reg == REG_C1 ==> R.Pixel(s, k, p) == InUnit(k.final1)
    ensures reg == REG_FOG ==> R.Pixel(s, k, p) == InUnit(p.fog)
    ensures reg == REG_V0 ==> R.Pixel(s, k, p) == InUnit(p.v0)
    ensures reg == REG_V1 ==> R.Pixel(s, k, p) == InUnit(p.v1)
    ensures 8 <= reg < 12 ==> R.Pixel(s, k, p) == InUnit(p.textures[reg - 8])
    ensures reg == REG_R0 ==> R.Pixel(s, k, p) == Vec4(Vec3(0.0, 0.0, 0.0), if s.texture0 then p.textures[0].a else 1.0)
  {
    var f := R.Start(s, p);
    NothingWritten(s, k, f, s.numStages);
    FinalShows(s, k, f, reg);
    hide R.FinalColor, R.AfterStages, Shows;
  }
}
