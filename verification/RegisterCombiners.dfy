/** What the NV2A's register combiners compute, after the OpenGL extension
    NV_register_combiners (section 3.8.12, "Register Combiners Application"), with what the
    Xbox adds: eight stages, the mux on the low bit of a byte, blue to alpha, and constants
    that stages may share. A stage updates its registers all at once from those it found. */
module RegisterCombiners {
  import opened Colors
  import opened CombinerState

  /** The registers by number. */
  type File = f: seq<Vec4> | |f| == 16 witness Blank()

  function Blank(): (f: seq<Vec4>)
    ensures |f| == 16
  {
    seq(16, r => BLACK)
  }

  datatype Constants = Constants(c0: seq<Vec4>, c1: seq<Vec4>, final0: Vec4, final1: Vec4) {
    ghost predicate Valid() { |c0| == |c1| == NV2A_MAX_COMBINER_STAGES }
  }

  /** What the rasteriser and the texture stages hand to a pixel. */
  datatype Interpolants = Interpolants(fog: Vec4, v0: Vec4, v1: Vec4, textures: seq<Vec4>) {
    ghost predicate Valid() { |textures| == 4 }
  }

  function Start(s: State, p: Interpolants): File
    requires p.Valid()
  {
    [BLACK, BLACK, BLACK, p.fog, p.v0, p.v1, BLACK, BLACK,
     p.textures[0], p.textures[1], p.textures[2], p.textures[3],
     Vec4(Splat(0.0), if s.texture0 then p.textures[0].a else 1.0), BLACK, BLACK, BLACK]
  }

  // ---- Inputs ----

  function MapValue(m: Mapping, x: real): real {
    match m
    case UnsignedIdentity => Max(0.0, x)
    case UnsignedInvert => 1.0 - Min(Max(0.0, x), 1.0)
    case ExpandNormal => 2.0 * Max(0.0, x) - 1.0
    case ExpandNegate => -2.0 * Max(0.0, x) + 1.0
    case HalfbiasNormal => Max(0.0, x) - 0.5
    case HalfbiasNegate => -Max(0.0, x) + 0.5
    case SignedIdentity => x
    case SignedNegate => -x
  }

  function MapColor(m: Mapping, x: Vec3): Vec3 {
    Vec3(MapValue(m, x.r), MapValue(m, x.g), MapValue(m, x.b))
  }

  /** A register as a combiner reads it: the constants are the stage's; numbers 6 and 7 name no
      register and read as zero. */
  function Value(f: File, reg: Register, c0: Vec4, c1: Vec4): Vec4 {
    if reg == REG_C0 then c0 else if reg == REG_C1 then c1
    else if reg == 6 || reg == 7 then f[REG_ZERO] else f[reg]
  }

  function ColorInput(i: Input, f: File, c0: Vec4, c1: Vec4): Vec3 {
    var v := Value(f, i.reg, c0, c1);
    MapColor(i.mapping, if i.alphaRep then Splat(v.a) else v.rgb)
  }

  /** The alpha portion reads alpha, or blue where the colour portion would read rgb. */
  function AlphaInput(i: Input, f: File, c0: Vec4, c1: Vec4): real {
    var v := Value(f, i.reg, c0, c1);
    MapValue(i.mapping, if i.alphaRep then v.a else v.rgb.b)
  }

  // ---- A general stage ----

  function Bias(m: OutputMapping): real {
    if m.OutBias? || m.ShiftLeft1Bias? || m.ShiftLeft2Bias? || m.ShiftRight1Bias? then -0.5 else 0.0
  }

  function Scale(m: OutputMapping): real {
    if m.ShiftLeft1? || m.ShiftLeft1Bias? then 2.0
    else if m.ShiftLeft2? || m.ShiftLeft2Bias? then 4.0
    else if m.ShiftRight1? || m.ShiftRight1Bias? then 0.5
    else 1.0
  }

  function OutputValue(m: OutputMapping, x: real): real {
    Clamp((x + Bias(m)) * Scale(m), -1.0, 1.0)
  }

  function OutputColor(m: OutputMapping, x: Vec3): Vec3 {
    Vec3(OutputValue(m, x.r), OutputValue(m, x.g), OutputValue(m, x.b))
  }

  /** Whether the mux takes CD: by the top of R0's alpha, or by the low bit of it as a byte. */
  predicate MuxTakesCd(c: CountFlags, alpha: real) {
    if !c.known || c.muxMsb then alpha >= 0.5
    else (Clamp(alpha, 0.0, 1.0) * 255.0 + 0.5).Floor % 2 == 1
  }

  /** The six results of a stage, before they are written. */
  datatype Results = Results(ab: Vec3, cd: Vec3, sum: Vec3, abA: real, cdA: real, sumA: real)

  function Combined(g: Stage, mux: bool, a: Vec3, b: Vec3, c: Vec3, d: Vec3, aA: real, bA: real, cA: real,
        dA: real): Results {
    var ab := if g.rgbOutput.abDot then Splat(Dot(a, b)) else Mul(a, b);
    var cd := if g.rgbOutput.cdDot then Splat(Dot(c, d)) else Mul(c, d);
    Results(ab, cd, if g.rgbOutput.muxSum then (if mux then cd else ab) else Add(ab, cd),
            aA * bA, cA * dA, if g.alphaOutput.muxSum then (if mux then cA * dA else aA * bA) else aA * bA + cA * dA)
  }

  function RawResults(g: Stage, f: File, mux: bool, c0: Vec4, c1: Vec4): Results
    requires g.Valid()
  {
    Combined(g, mux,
      ColorInput(g.rgbInput[0], f, c0, c1), ColorInput(g.rgbInput[1], f, c0, c1),
      ColorInput(g.rgbInput[2], f, c0, c1), ColorInput(g.rgbInput[3], f, c0, c1),
      AlphaInput(g.alphaInput[0], f, c0, c1), AlphaInput(g.alphaInput[1], f, c0, c1),
      AlphaInput(g.alphaInput[2], f, c0, c1), AlphaInput(g.alphaInput[3], f, c0, c1))
  }

  function Mapped(g: Stage, r: Results): Results {
    var m, n := g.rgbOutput.outputMap, g.alphaOutput.outputMap;
    Results(OutputColor(m, r.ab), OutputColor(m, r.cd), OutputColor(m, r.sum),
            OutputValue(n, r.abA), OutputValue(n, r.cdA), OutputValue(n, r.sumA))
  }

  /** Register `reg` after a stage: where several results go to one register the sum has the
      last word and AB the first, and the alpha portion comes after blue to alpha. */
  function ColorAfter(g: Stage, r: Results, reg: Register, was: Vec3): Vec3 {
    if reg == REG_ZERO then was
    else if reg == g.rgbOutput.sumDst then r.sum
    else if reg == g.rgbOutput.cdDst then r.cd
    else if reg == g.rgbOutput.abDst then r.ab
    else was
  }

  function AlphaAfter(g: Stage, r: Results, reg: Register, was: real): real {
    if reg == REG_ZERO then was
    else if reg == g.alphaOutput.sumDst then r.sumA
    else if reg == g.alphaOutput.cdDst then r.cdA
    else if reg == g.alphaOutput.abDst then r.abA
    else if reg == g.rgbOutput.cdDst && g.rgbOutput.cdBlueToAlpha then r.cd.b
    else if reg == g.rgbOutput.abDst && g.rgbOutput.abBlueToAlpha then r.ab.b
    else was
  }

  function StageResults(s: State, g: Stage, f: File, c0: Vec4, c1: Vec4): Results
    requires g.Valid()
  {
    Mapped(g, RawResults(g, f, MuxTakesCd(s.count, f[REG_R0].a), c0, c1))
  }

  function Updated(g: Stage, r: Results, f: File): File {
    seq(16, reg requires 0 <= reg < 16 => Vec4(ColorAfter(g, r, reg, f[reg].rgb), AlphaAfter(g, r, reg, f[reg].a)))
  }

  /** The stage whose constants stage `i` reads. */
  function C0Stage(s: State, i: nat): nat {
    if !s.count.known || s.count.uniqueC0 then i else 0
  }

  function C1Stage(s: State, i: nat): nat {
    if !s.count.known || s.count.uniqueC1 then i else 0
  }

  /** The registers after the first `n` stages. */
  function AfterStages(s: State, k: Constants, f: File, n: nat): File
    requires s.Valid() && k.Valid() && n <= s.numStages
  {
    if n == 0 then f
    else
      var before, i := AfterStages(s, k, f, n - 1), n - 1;
      Updated(s.stages[i], StageResults(s, s.stages[i], before, k.c0[C0Stage(s, i)], k.c1[C1Stage(s, i)]), before)
  }

  // ---- The final combiner ----

  function V1R0(s: State, f: File): Vec3 {
    var v1 := if s.finalFlags.complementV1 then Sub(Splat(1.0), f[REG_V1].rgb) else f[REG_V1].rgb;
    var r0 := if s.finalFlags.complementR0 then Sub(Splat(1.0), f[REG_R0].rgb) else f[REG_R0].rgb;
    if s.finalFlags.clampSum then Clamp3(Add(v1, r0), 0.0, 1.0) else Add(v1, r0)
  }

  /** The registers with the colour sum of V1 and R0, then also with the product E times F. */
  function WithSum(s: State, f: File): File {
    f[REG_V1R0_SUM := Vec4(V1R0(s, f), 0.0)][REG_EF_PROD := BLACK]
  }

  function WithProduct(s: State, k: Constants, f: File): File
    requires s.Valid()
  {
    var g := WithSum(s, f);
    g[REG_EF_PROD := Vec4(Mul(ColorInput(s.final[4], g, k.final0, k.final1),
                              ColorInput(s.final[5], g, k.final0, k.final1)), 0.0)]
  }

  function FinalColor(s: State, k: Constants, f: File): Vec4
    requires s.Valid()
  {
    var g := WithProduct(s, k, f);
    var a, b := ColorInput(s.final[0], g, k.final0, k.final1), ColorInput(s.final[1], g, k.final0, k.final1);
    var c, d := ColorInput(s.final[2], g, k.final0, k.final1), ColorInput(s.final[3], g, k.final0, k.final1);
    Vec4(Clamp3(Add(Add(d, Mul(a, b)), Mul(Sub(Splat(1.0), a), c)), 0.0, 1.0),
         AlphaInput(s.final[6], g, k.final0, k.final1))
  }

  /** The combiners' result for a pixel. */
  function Pixel(s: State, k: Constants, p: Interpolants): Vec4
    requires s.Valid() && k.Valid() && p.Valid()
  {
    FinalColor(s, k, AfterStages(s, k, Start(s, p), s.numStages))
  }

  // ---- The alpha test ----

  /** The alpha test as the render states set it; the functions are numbered from NEVER, 1, to
      ALWAYS, 8. */
  datatype AlphaTest = AlphaTest(enable: bool, func: nat, ref: real)

  predicate Passes(t: AlphaTest, alpha: real) {
    !t.enable ||
    match t.func
    case 1 => false
    case 2 => alpha < t.ref
    case 3 => alpha == t.ref
    case 4 => alpha <= t.ref
    case 5 => alpha > t.ref
    case 6 => alpha != t.ref
    case 7 => alpha >= t.ref
    case _ => true
  }

  predicate CanReject(t: AlphaTest) {
    t.enable && 1 <= t.func <= 7
  }
}
