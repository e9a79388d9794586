/** Generating the shader of a combiner state, statement by statement. */
module CombinerHlsl {
  import opened CombinerState
  import opened Hlsl

  /** The variable of a register; numbers 6 and 7 have none of their own. */
  function RegName(r: Register): Register {
    if r == 6 || r == 7 then REG_ZERO else r
  }

  /** A read of a register, with the constants of stage `c0` and `c1`, or of the final combiner
      where these are negative. */
  function InputSource(r: Register, c0: int, c1: int): Source {
    if r == REG_C0 then (if c0 < 0 then FinalC0 else C0(c0))
    else if r == REG_C1 then (if c1 < 0 then FinalC1 else C1(c1))
    else Reg(RegName(r))
  }

  function InputSwizzle(alphaRep: bool, alpha: bool): Swizzle {
    if alphaRep then (if alpha then A else Aaa) else if alpha then B else Rgb
  }

  function MappedExpr(m: Mapping, v: Expr): Expr {
    match m
    case UnsignedIdentity => Max0(v)
    case UnsignedInvert => Minus(Const(1.0), Saturate(v))
    case ExpandNormal => Minus(Times(Const(2.0), Max0(v)), Const(1.0))
    case ExpandNegate => Minus(Const(1.0), Times(Const(2.0), Max0(v)))
    case HalfbiasNormal => Minus(Max0(v), Const(0.5))
    case HalfbiasNegate => Minus(Const(0.5), Max0(v))
    case SignedIdentity => v
    case SignedNegate => Neg(v)
  }

  function MappedInput(i: Input, alpha: bool, c0: int, c1: int): Expr {
    MappedExpr(i.mapping, Read(InputSource(i.reg, c0, c1), InputSwizzle(i.alphaRep, alpha)))
  }

  /** The prefix and suffix of the output mapping, around `e`. */
  function OutputMapped(m: OutputMapping, e: Expr): Expr {
    match m
    case OutIdentity => e
    case OutBias => Minus(e, Const(0.5))
    case ShiftLeft1 => Times(e, Const(2.0))
    case ShiftLeft1Bias => Times(Minus(e, Const(0.5)), Const(2.0))
    case ShiftLeft2 => Times(e, Const(4.0))
    case ShiftLeft2Bias => Times(Minus(e, Const(0.5)), Const(4.0))
    case ShiftRight1 => Times(e, Const(0.5))
    case ShiftRight1Bias => Times(Minus(e, Const(0.5)), Const(0.5))
  }

  // ---- Before the stages ----

  function TextureFetches(n: nat): Program
    requires n <= 4
  {
    if n == 0 then [] else TextureFetches(n - 1) + [Fetch(REG_T0 + n - 1, Texture(n - 1))]
  }

  /** R0 starts with texture 0's alpha, or 1 when stage 0 samples nothing. */
  function R0Start(s: State): Expr {
    if s.texture0 then Read(Reg(REG_T0), A) else Const(1.0)
  }

  function Prelude(s: State): Program {
    [Clear(REG_ZERO), Load(REG_C0, C0(0)), Load(REG_C1, C1(0)),
     Fetch(REG_FOG, FogInput), Fetch(REG_V0, Color0), Fetch(REG_V1, Color1)]
    + TextureFetches(4) + [Clear(REG_R0), SetAlpha(REG_R0, R0Start(s)), Clear(REG_R1)]
  }

  // ---- The parts of a stage ----

  function StageHead(s: State, c0: nat, c1: nat): Program {
    [Load(REG_C0, C0(c0)), Load(REG_C1, C1(c1)), SetMux(!s.count.known || s.count.muxMsb)]
  }

  function RgbReads(g: Stage, c0: nat, c1: nat, n: nat): Program
    requires g.Valid() && n <= 4
  {
    if n == 0 then [] else RgbReads(g, c0, c1, n - 1) + [Let(InRgb(n - 1), MappedInput(g.rgbInput[n - 1], false, c0, c1))]
  }

  function AlphaReads(g: Stage, c0: nat, c1: nat, n: nat): Program
    requires g.Valid() && n <= 4
  {
    if n == 0 then [] else AlphaReads(g, c0, c1, n - 1) + [Let(InAlpha(n - 1), MappedInput(g.alphaInput[n - 1], true, c0, c1))]
  }

  function Products(g: Stage): Program {
    [Let(AbRgb, if g.rgbOutput.abDot then DotXxx(Var(InRgb(0)), Var(InRgb(1))) else Times(Var(InRgb(0)), Var(InRgb(1)))),
     Let(CdRgb, if g.rgbOutput.cdDot then DotXxx(Var(InRgb(2)), Var(InRgb(3))) else Times(Var(InRgb(2)), Var(InRgb(3)))),
     Let(SumRgb, if g.rgbOutput.muxSum then MuxCd(Var(CdRgb), Var(AbRgb)) else Plus(Var(AbRgb), Var(CdRgb))),
     Let(AbAlpha, Times(Var(InAlpha(0)), Var(InAlpha(1)))),
     Let(CdAlpha, Times(Var(InAlpha(2)), Var(InAlpha(3)))),
     Let(SumAlpha, if g.alphaOutput.muxSum then MuxCd(Var(CdAlpha), Var(AbAlpha)) else Plus(Var(AbAlpha), Var(CdAlpha)))]
  }

  function MapLocal(l: Local, m: OutputMapping): Stmt {
    Let(l, ClampOne(OutputMapped(m, Var(l))))
  }

  function Mappings(g: Stage): Program {
    var m, n := g.rgbOutput.outputMap, g.alphaOutput.outputMap;
    [MapLocal(AbRgb, m), MapLocal(CdRgb, m), MapLocal(SumRgb, m), MapLocal(AbAlpha, n), MapLocal(CdAlpha, n), MapLocal(SumAlpha, n)]
  }

  /** A write is left out for destination zero. */
  function WriteRgb(dst: Register, l: Local): Program {
    if dst == REG_ZERO then [] else [SetRgb(RegName(dst), Var(l))]
  }

  function WriteBlue(dst: Register, blueToAlpha: bool, l: Local): Program {
    if dst == REG_ZERO || !blueToAlpha then [] else [SetAlpha(RegName(dst), Blue(Var(l)))]
  }

  function WriteAlpha(dst: Register, l: Local): Program {
    if dst == REG_ZERO then [] else [SetAlpha(RegName(dst), Var(l))]
  }

  function Writes(g: Stage): Program {
    var o, a := g.rgbOutput, g.alphaOutput;
    WriteRgb(o.abDst, AbRgb) + WriteBlue(o.abDst, o.abBlueToAlpha, AbRgb)
    + WriteRgb(o.cdDst, CdRgb) + WriteBlue(o.cdDst, o.cdBlueToAlpha, CdRgb)
    + WriteRgb(o.sumDst, SumRgb)
    + WriteAlpha(a.abDst, AbAlpha) + WriteAlpha(a.cdDst, CdAlpha) + WriteAlpha(a.sumDst, SumAlpha)
  }

  function StageProgram(s: State, i: nat): Program
    requires s.Valid() && i < s.numStages
  {
    var g := s.stages[i];
    var c0 := if !s.count.known || s.count.uniqueC0 then i else 0;
    var c1 := if !s.count.known || s.count.uniqueC1 then i else 0;
    StageHead(s, c0, c1) + RgbReads(g, c0, c1, 4) + AlphaReads(g, c0, c1, 4) + Products(g) + Mappings(g) + Writes(g)
  }

  function StagesProgram(s: State, n: nat): Program
    requires s.Valid() && n <= s.numStages
  {
    if n == 0 then [] else StagesProgram(s, n - 1) + StageProgram(s, n - 1)
  }

  // ---- The final combiner ----

  function Term(complement: bool, r: Register): Expr {
    if complement then Minus(Const(1.0), Read(Reg(r), Rgb)) else Read(Reg(r), Rgb)
  }

  function FinalSpecials(s: State): Program
    requires s.Valid()
  {
    var sum := Plus(Term(s.finalFlags.complementV1, REG_V1), Term(s.finalFlags.complementR0, REG_R0));
    [Clear(REG_EF_PROD), Clear(REG_V1R0_SUM),
     SetRgb(REG_V1R0_SUM, if s.finalFlags.clampSum then Saturate(sum) else sum),
     SetRgb(REG_EF_PROD, Times(MappedInput(s.final[4], false, -1, -1), MappedInput(s.final[5], false, -1, -1)))]
  }

  function FinalReads(s: State, n: nat): Program
    requires s.Valid() && n <= 4
  {
    if n == 0 then [] else FinalReads(s, n - 1) + [Let(FinalIn(n - 1), MappedInput(s.final[n - 1], false, -1, -1))]
  }

  function FinalResult(s: State): Program
    requires s.Valid()
  {
    [ResultRgb(Saturate(Plus(Plus(Var(FinalIn(3)), Times(Var(FinalIn(0)), Var(FinalIn(1)))),
                             Times(Minus(Const(1.0), Var(FinalIn(0))), Var(FinalIn(2)))))),
     ResultAlpha(MappedInput(s.final[6], true, -1, -1))]
  }

  function FinalProgram(s: State): Program
    requires s.Valid()
  {
    FinalSpecials(s) + FinalReads(s, 4) + FinalResult(s)
  }

  function AlphaTestProgram(s: State): Program {
    if s.alphaTest then [TestAlpha] else []
  }

  function ShaderOf(s: State): Program
    requires s.Valid()
  {
    Prelude(s) + StagesProgram(s, s.numStages) + FinalProgram(s) + AlphaTestProgram(s)
  }

  /** The statements of the shader, appended one after the other. */
  method GenerateHlsl(s: State) returns (p: Program)
    requires s.Valid()
    ensures p == ShaderOf(s)
  {
    hide StageProgram;
    p := EmitPrelude(s);
    hide Prelude;
    for i := 0 to s.numStages
      invariant p == Prelude(s) + StagesProgram(s, i)
    {
      p := EmitStage(s, i, p);
    }
    hide MappedInput;
    hide StagesProgram;
    hide FinalSpecials;
    hide FinalResult;
    p := p + FinalSpecials(s);
    ghost var before := p;
    for k := 0 to 4
      invariant p == before + FinalReads(s, k)
    {
      p := p + [Let(FinalIn(k), MappedInput(s.final[k], false, -1, -1))];
    }
    p := p + FinalResult(s);
    if s.alphaTest {
      p := p + [TestAlpha];
    }
  }

  method EmitPrelude(s: State) returns (p: Program)
    ensures p == Prelude(s)
  {
    p := [Clear(REG_ZERO)];
    p := p + [Load(REG_C0, C0(0)), Load(REG_C1, C1(0))];
    p := p + [Fetch(REG_FOG, FogInput)];
    p := p + [Fetch(REG_V0, Color0), Fetch(REG_V1, Color1)];
    ghost var before := p;
    for i := 0 to 4
      invariant p == before + TextureFetches(i)
    {
      p := p + [Fetch(REG_T0 + i, Texture(i))];
    }
    p := p + [Clear(REG_R0), SetAlpha(REG_R0, R0Start(s))];
    p := p + [Clear(REG_R1)];
  }

  method EmitStage(s: State, i: nat, before: Program) returns (p: Program)
    requires s.Valid() && i < s.numStages
    ensures p == before + StageProgram(s, i)
  {
    var g := s.stages[i];
    var c0 := if !s.count.known || s.count.uniqueC0 then i else 0;
    var c1 := if !s.count.known || s.count.uniqueC1 then i else 0;
    var head := EmitHead(s, c0, c1);
    var inputs := EmitReads(g, c0, c1);
    var writes := EmitWrites(g);
    hide StageHead;
    hide RgbReads;
    hide AlphaReads;
    hide Products;
    hide Mappings;
    hide Writes;
    p := head + inputs;
    assert p == StageHead(s, c0, c1) + RgbReads(g, c0, c1, 4) + AlphaReads(g, c0, c1, 4);
    p := p + Products(g);
    p := p + Mappings(g);
    p := p + writes;
    assert p == StageProgram(s, i);
    hide *;
    p := before + p;
  }

  method EmitHead(s: State, c0: nat, c1: nat) returns (p: Program)
    ensures p == StageHead(s, c0, c1)
  {
    p := [Load(REG_C0, C0(c0))];
    p := p + [Load(REG_C1, C1(c1))];
    p := p + [SetMux(!s.count.known || s.count.muxMsb)];
  }

  method EmitReads(g: Stage, c0: nat, c1: nat) returns (p: Program)
    requires g.Valid()
    ensures p == RgbReads(g, c0, c1, 4) + AlphaReads(g, c0, c1, 4)
  {
    hide MappedInput;
    p := [];
    for k := 0 to 4
      invariant p == RgbReads(g, c0, c1, k)
    {
      p := p + [Let(InRgb(k), MappedInput(g.rgbInput[k], false, c0, c1))];
    }
    ghost var rgb := p;
    for k := 0 to 4
      invariant p == rgb + AlphaReads(g, c0, c1, k)
    {
      p := p + [Let(InAlpha(k), MappedInput(g.alphaInput[k], true, c0, c1))];
    }
  }

  method EmitWrites(g: Stage) returns (p: Program)
    ensures p == Writes(g)
  {
    var o, a := g.rgbOutput, g.alphaOutput;
    p := EmitColorWrite(o.abDst, o.abBlueToAlpha, AbRgb);
    var q := EmitColorWrite(o.cdDst, o.cdBlueToAlpha, CdRgb);
    ghost var w1, w2, w3, w4 := WriteRgb(o.abDst, AbRgb), WriteBlue(o.abDst, o.abBlueToAlpha, AbRgb),
      WriteRgb(o.cdDst, CdRgb), WriteBlue(o.cdDst, o.cdBlueToAlpha, CdRgb);
    hide WriteRgb;
    hide WriteBlue;
    hide WriteAlpha;
    assert (w1 + w2) + (w3 + w4) == w1 + w2 + w3 + w4;
    p := p + q;
    q := EmitColorWrite(o.sumDst, false, SumRgb);
    p := p + q;
    q := EmitAlphaWrite(a.abDst, AbAlpha);
    p := p + q;
    q := EmitAlphaWrite(a.cdDst, CdAlpha);
    p := p + q;
    q := EmitAlphaWrite(a.sumDst, SumAlpha);
    p := p + q;
  }

  method EmitColorWrite(dst: Register, blueToAlpha: bool, l: Local) returns (p: Program)
    ensures p == WriteRgb(dst, l) + WriteBlue(dst, blueToAlpha, l)
    ensures !blueToAlpha ==> p == WriteRgb(dst, l)
  {
    p := [];
    if dst != REG_ZERO {
      p := p + [SetRgb(RegName(dst), Var(l))];
      if blueToAlpha {
        p := p + [SetAlpha(RegName(dst), Blue(Var(l)))];
      }
    }
  }

  method EmitAlphaWrite(dst: Register, l: Local) returns (p: Program)
    ensures p == WriteAlpha(dst, l)
  {
    p := [];
    if dst != REG_ZERO {
      p := p + [SetAlpha(RegName(dst), Var(l))];
    }
  }
}
