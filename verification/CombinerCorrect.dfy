/** The generated shader computes what the register combiners do. */
module CombinerCorrect {
  import opened Colors
  import opened CombinerState
  import opened Hlsl
  import opened CombinerHlsl
  import opened CombinerDeclared
  import R = RegisterCombiners

  /** Numbers 6 and 7 name no register. */
  predicate Reserved(r: Register) {
    r == 6 || r == 7
  }

  predicate WritesReserved(o: Output) {
    Reserved(o.abDst) || Reserved(o.cdDst) || Reserved(o.sumDst)
  }

  /** A stage writes to neither of them, and does not name the two variables that are declared
      only for the final combiner. */
  predicate LegalStage(g: Stage)
    requires g.Valid()
  {
    !WritesReserved(g.rgbOutput) && !WritesReserved(g.alphaOutput) && !StageNames(g)
  }

  ghost predicate Legal(s: State)
    requires s.Valid()
  {
    forall i {:trigger s.stages[i]} :: 0 <= i < s.numStages ==> LegalStage(s.stages[i])
  }

  /** The same registers, but for the copies of the constants, which nothing reads. */
  ghost predicate Agrees(f: R.File, g: R.File) {
    forall r {:trigger f[r]} {:trigger g[r]} :: 0 <= r < 16 && r != REG_C0 && r != REG_C1 ==> f[r] == g[r]
  }

  // ---- Inputs ----

  function ConstantFor(c: int, own: seq<Vec4>, final: Vec4): Vec4 {
    if c < 0 then final else if c < |own| then own[c] else BLACK
  }

  lemma {:induction false} SourceValue(i: Input, f: R.File, u: Uniforms, c0: int, c1: int)
    ensures Whole(InputSource(i.reg, c0, c1), f, u)
         == R.Value(f, i.reg, ConstantFor(c0, u.constants.c0, u.constants.final0), ConstantFor(c1, u.constants.c1, u.constants.final1))
  {
  }

  function Low(x: Vec3): Vec3 {
    Vec3(Max(0.0, x.r), Max(0.0, x.g), Max(0.0, x.b))
  }

  lemma {:induction false} EvalBasics(v: Expr, env: Env, u: Uniforms)
    ensures Eval(Max0(v), env, u) == Low(Eval(v, env, u))
    ensures Eval(Saturate(v), env, u) == Clamp3(Eval(v, env, u), 0.0, 1.0)
    ensures Eval(Times(Const(2.0), Max0(v)), env, u) == Mul(Splat(2.0), Low(Eval(v, env, u)))
    ensures Eval(Neg(v), env, u) == Sub(Splat(0.0), Eval(v, env, u))
  {
    hide Mul;
    assert Eval(Max0(v), env, u) == Low(Eval(v, env, u));
    assert Eval(Const(2.0), env, u) == Splat(2.0);
  }

  lemma {:induction false} EvalDifference(c: real, x: Expr, env: Env, u: Uniforms)
    ensures Eval(Minus(Const(c), x), env, u) == Sub(Splat(c), Eval(x, env, u))
    ensures Eval(Minus(x, Const(c)), env, u) == Sub(Eval(x, env, u), Splat(c))
  {
    assert Eval(Const(c), env, u) == Splat(c);
  }

  lemma {:induction false} DifferenceMaps(x: real)
    ensures R.MapValue(UnsignedInvert, x) == 1.0 - Clamp(x, 0.0, 1.0)
    ensures R.MapValue(ExpandNormal, x) == 2.0 * Max(0.0, x) - 1.0
    ensures R.MapValue(ExpandNegate, x) == 1.0 - 2.0 * Max(0.0, x)
    ensures R.MapValue(HalfbiasNormal, x) == Max(0.0, x) - 0.5
    ensures R.MapValue(HalfbiasNegate, x) == 0.5 - Max(0.0, x)
    ensures R.MapValue(SignedNegate, x) == 0.0 - x
  {
  }

  lemma {:induction false} DifferencesMap(x: Vec3)
    ensures R.MapColor(UnsignedInvert, x) == Sub(Splat(1.0), Clamp3(x, 0.0, 1.0))
    ensures R.MapColor(ExpandNormal, x) == Sub(Mul(Splat(2.0), Low(x)), Splat(1.0))
    ensures R.MapColor(ExpandNegate, x) == Sub(Splat(1.0), Mul(Splat(2.0), Low(x)))
    ensures R.MapColor(HalfbiasNormal, x) == Sub(Low(x), Splat(0.5))
    ensures R.MapColor(HalfbiasNegate, x) == Sub(Splat(0.5), Low(x))
    ensures R.MapColor(SignedNegate, x) == Sub(Splat(0.0), x)
  {
    DifferenceMaps(x.r);
    DifferenceMaps(x.g);
    DifferenceMaps(x.b);
    hide R.MapValue;
    hide Max;
    hide Clamp;
    assert Mul(Splat(2.0), Low(x)) == Vec3(2.0 * Max(0.0, x.r), 2.0 * Max(0.0, x.g), 2.0 * Max(0.0, x.b));
    hide Mul;
  }

  lemma {:induction false} MappedExprDoes(m: Mapping, v: Expr, env: Env, u: Uniforms)
    ensures Eval(MappedExpr(m, v), env, u) == R.MapColor(m, Eval(v, env, u))
  {
    EvalBasics(v, env, u);
    DifferencesMap(Eval(v, env, u));
    hide Eval;
    hide Sub;
    hide Mul;
    hide Splat;
    match m
    case UnsignedInvert => EvalDifference(1.0, Saturate(v), env, u);
    case ExpandNormal => EvalDifference(1.0, Times(Const(2.0), Max0(v)), env, u);
    case ExpandNegate => EvalDifference(1.0, Times(Const(2.0), Max0(v)), env, u);
    case HalfbiasNormal => EvalDifference(0.5, Max0(v), env, u);
    case HalfbiasNegate => EvalDifference(0.5, Max0(v), env, u);
    case _ =>
  }

  lemma {:induction false} ColorInputRead(i: Input, env: Env, u: Uniforms, c0: int, c1: int)
    ensures Eval(MappedInput(i, false, c0, c1), env, u)
         == R.ColorInput(i, env.file, ConstantFor(c0, u.constants.c0, u.constants.final0), ConstantFor(c1, u.constants.c1, u.constants.final1))
  {
    SourceValue(i, env.file, u, c0, c1);
    MappedExprDoes(i.mapping, Read(InputSource(i.reg, c0, c1), InputSwizzle(i.alphaRep, false)), env, u);
    hide MappedExpr;
    hide InputSource;
    hide R.MapColor;
  }

  lemma {:induction false} AlphaInputRead(i: Input, env: Env, u: Uniforms, c0: int, c1: int)
    ensures Eval(MappedInput(i, true, c0, c1), env, u)
         == Splat(R.AlphaInput(i, env.file, ConstantFor(c0, u.constants.c0, u.constants.final0), ConstantFor(c1, u.constants.c1, u.constants.final1)))
  {
    SourceValue(i, env.file, u, c0, c1);
    MappedExprDoes(i.mapping, Read(InputSource(i.reg, c0, c1), InputSwizzle(i.alphaRep, true)), env, u);
    hide MappedExpr;
    hide InputSource;
    hide R.MapValue;
  }

  lemma {:induction false} InputsAgree(i: Input, f: R.File, g: R.File, c0: Vec4, c1: Vec4)
    requires Agrees(f, g)
    ensures R.ColorInput(i, f, c0, c1) == R.ColorInput(i, g, c0, c1)
    ensures R.AlphaInput(i, f, c0, c1) == R.AlphaInput(i, g, c0, c1)
  {
    assert R.Value(f, i.reg, c0, c1) == R.Value(g, i.reg, c0, c1);
  }

  // ---- The parts of a stage, one after the other ----

  lemma {:induction false} ExecNext(p: Program, env: Env, u: Uniforms, n: nat)
    requires n < |p|
    ensures ExecFirst(p, env, u, n + 1) == Step(p[n], ExecFirst(p, env, u, n), u)
  {
  }

  lemma {:induction false} HeadDoes(s: State, c0: nat, c1: nat, env: Env, u: Uniforms)
    ensures var e := Exec(StageHead(s, c0, c1), env, u);
      && Agrees(env.file, e.file) && e.mux == R.MuxTakesCd(s.count, env.file[REG_R0].a)
      && e.locals == env.locals && e.result == env.result && e.discarded == env.discarded
  {
    var p := StageHead(s, c0, c1);
    ExecNext(p, env, u, 0);
    ExecNext(p, env, u, 1);
    ExecNext(p, env, u, 2);
  }

  /** Everything but the locals is as before. */
  predicate OnlyLocals(env: Env, e: Env) {
    e.file == env.file && e.mux == env.mux && e.result == env.result && e.discarded == env.discarded
  }

  function RgbRead(g: Stage, f: R.File, k: R.Constants, c0: nat, c1: nat, n: nat): Vec3
    requires g.Valid() && n < 4 && c0 < |k.c0| && c1 < |k.c1|
  {
    R.ColorInput(g.rgbInput[n], f, k.c0[c0], k.c1[c1])
  }

  function AlphaRead(g: Stage, f: R.File, k: R.Constants, c0: nat, c1: nat, n: nat): real
    requires g.Valid() && n < 4 && c0 < |k.c0| && c1 < |k.c1|
  {
    R.AlphaInput(g.alphaInput[n], f, k.c0[c0], k.c1[c1])
  }

  lemma {:induction false} RgbReadsDo(g: Stage, c0: nat, c1: nat, n: nat, env: Env, u: Uniforms)
    requires g.Valid() && n <= 4 && c0 < |u.constants.c0| && c1 < |u.constants.c1|
    ensures var e := Exec(RgbReads(g, c0, c1, n), env, u);
      && OnlyLocals(env, e)
      && forall k {:trigger InRgb(k)} :: 0 <= k < n ==> InRgb(k) in e.locals && e.locals[InRgb(k)] == RgbRead(g, env.file, u.constants, c0, c1, k)
  {
    if n > 0 {
      RgbReadsDo(g, c0, c1, n - 1, env, u);
      hide Eval;
      hide MappedInput;
      hide R.ColorInput;
      var p := RgbReads(g, c0, c1, n - 1);
      ExecOne(p, Let(InRgb(n - 1), MappedInput(g.rgbInput[n - 1], false, c0, c1)), env, u);
      ColorInputRead(g.rgbInput[n - 1], Exec(p, env, u), u, c0, c1);
    }
  }

  lemma {:induction false} AlphaReadsDo(g: Stage, c0: nat, c1: nat, n: nat, env: Env, u: Uniforms)
    requires g.Valid() && n <= 4 && c0 < |u.constants.c0| && c1 < |u.constants.c1|
    ensures var e := Exec(AlphaReads(g, c0, c1, n), env, u);
      && OnlyLocals(env, e)
      && (forall k {:trigger InRgb(k)} :: InRgb(k) in env.locals ==> InRgb(k) in e.locals && e.locals[InRgb(k)] == env.locals[InRgb(k)])
      && forall k {:trigger InAlpha(k)} :: 0 <= k < n ==>
           InAlpha(k) in e.locals && e.locals[InAlpha(k)] == Splat(AlphaRead(g, env.file, u.constants, c0, c1, k))
  {
    if n > 0 {
      AlphaReadsDo(g, c0, c1, n - 1, env, u);
      hide Eval;
      hide MappedInput;
      hide R.AlphaInput;
      var p := AlphaReads(g, c0, c1, n - 1);
      ExecOne(p, Let(InAlpha(n - 1), MappedInput(g.alphaInput[n - 1], true, c0, c1)), env, u);
      AlphaInputRead(g.alphaInput[n - 1], Exec(p, env, u), u, c0, c1);
    }
  }

  ghost predicate HasResults(env: Env, r: R.Results) {
    && AbRgb in env.locals && env.locals[AbRgb] == r.ab
    && CdRgb in env.locals && env.locals[CdRgb] == r.cd
    && SumRgb in env.locals && env.locals[SumRgb] == r.sum
    && AbAlpha in env.locals && env.locals[AbAlpha] == Splat(r.abA)
    && CdAlpha in env.locals && env.locals[CdAlpha] == Splat(r.cdA)
    && SumAlpha in env.locals && env.locals[SumAlpha] == Splat(r.sumA)
  }

  lemma {:induction false} EvalTwo(x: Local, y: Local, env: Env, u: Uniforms)
    requires x in env.locals && y in env.locals
    ensures Eval(Times(Var(x), Var(y)), env, u) == Mul(env.locals[x], env.locals[y])
    ensures Eval(DotXxx(Var(x), Var(y)), env, u) == Splat(Dot(env.locals[x], env.locals[y]))
    ensures Eval(Plus(Var(x), Var(y)), env, u) == Add(env.locals[x], env.locals[y])
    ensures Eval(MuxCd(Var(x), Var(y)), env, u) == if env.mux then env.locals[x] else env.locals[y]
  {
    assert Eval(Var(x), env, u) == env.locals[x] && Eval(Var(y), env, u) == env.locals[y];
  }

  lemma {:induction false} ColorProductsDo(g: Stage, a: Vec3, b: Vec3, c: Vec3, d: Vec3, env: Env, u: Uniforms)
    requires InRgb(0) in env.locals && InRgb(1) in env.locals && InRgb(2) in env.locals && InRgb(3) in env.locals
    requires env.locals[InRgb(0)] == a && env.locals[InRgb(1)] == b && env.locals[InRgb(2)] == c && env.locals[InRgb(3)] == d
    ensures var e := ExecFirst(Products(g), env, u, 3);
      var ab := if g.rgbOutput.abDot then Splat(Dot(a, b)) else Mul(a, b);
      var cd := if g.rgbOutput.cdDot then Splat(Dot(c, d)) else Mul(c, d);
      && OnlyLocals(env, e)
      && (forall k {:trigger InAlpha(k)} :: InAlpha(k) in env.locals ==> InAlpha(k) in e.locals && e.locals[InAlpha(k)] == env.locals[InAlpha(k)])
      && AbRgb in e.locals && e.locals[AbRgb] == ab && CdRgb in e.locals && e.locals[CdRgb] == cd && SumRgb in e.locals
      && e.locals[SumRgb] == if g.rgbOutput.muxSum then (if env.mux then cd else ab) else Add(ab, cd)
  {
    hide Mul;
    hide Dot;
    hide Add;
    hide Eval;
    var p := Products(g);
    ExecNext(p, env, u, 0);
    EvalTwo(InRgb(0), InRgb(1), env, u);
    var e1 := ExecFirst(p, env, u, 1);
    assert e1 == Step(p[0], env, u);
    ExecNext(p, env, u, 1);
    EvalTwo(InRgb(2), InRgb(3), e1, u);
    var e2 := ExecFirst(p, env, u, 2);
    assert e2 == Step(p[1], e1, u);
    ExecNext(p, env, u, 2);
    EvalTwo(AbRgb, CdRgb, e2, u);
    EvalTwo(CdRgb, AbRgb, e2, u);
  }

  lemma {:induction false} AlphaProductsDo(g: Stage, a: real, b: real, c: real, d: real, env: Env, e: Env,
        u: Uniforms)
    requires e == ExecFirst(Products(g), env, u, 3)
    requires InAlpha(0) in e.locals && InAlpha(1) in e.locals && InAlpha(2) in e.locals && InAlpha(3) in e.locals
    requires e.locals[InAlpha(0)] == Splat(a) && e.locals[InAlpha(1)] == Splat(b)
    requires e.locals[InAlpha(2)] == Splat(c) && e.locals[InAlpha(3)] == Splat(d)
    requires AbRgb in e.locals && CdRgb in e.locals && SumRgb in e.locals
    ensures var r := Exec(Products(g), env, u);
      && OnlyLocals(e, r)
      && AbRgb in r.locals && r.locals[AbRgb] == e.locals[AbRgb] && CdRgb in r.locals && r.locals[CdRgb] == e.locals[CdRgb]
      && SumRgb in r.locals && r.locals[SumRgb] == e.locals[SumRgb]
      && AbAlpha in r.locals && r.locals[AbAlpha] == Mul(Splat(a), Splat(b))
      && CdAlpha in r.locals && r.locals[CdAlpha] == Mul(Splat(c), Splat(d)) && SumAlpha in r.locals
      && r.locals[SumAlpha] == (if g.alphaOutput.muxSum then (if e.mux then Mul(Splat(c), Splat(d)) else Mul(Splat(a), Splat(b)))
                                else Add(Mul(Splat(a), Splat(b)), Mul(Splat(c), Splat(d))))
  {
    hide Mul;
    hide Add;
    hide Eval;
    hide Splat;
    var p := Products(g);
    ExecNext(p, env, u, 3);
    EvalTwo(InAlpha(0), InAlpha(1), e, u);
    var e4 := ExecFirst(p, env, u, 4);
    assert e4 == Step(p[3], e, u);
    ExecNext(p, env, u, 4);
    EvalTwo(InAlpha(2), InAlpha(3), e4, u);
    var e5 := ExecFirst(p, env, u, 5);
    assert e5 == Step(p[4], e4, u);
    ExecNext(p, env, u, 5);
    EvalTwo(AbAlpha, CdAlpha, e5, u);
    EvalTwo(CdAlpha, AbAlpha, e5, u);
  }

  lemma {:induction false} ProductsDo(g: Stage, c0: nat, c1: nat, env: Env, u: Uniforms)
    requires g.Valid() && c0 < |u.constants.c0| && c1 < |u.constants.c1|
    requires forall k {:trigger InRgb(k)} :: 0 <= k < 4 ==>
      InRgb(k) in env.locals && env.locals[InRgb(k)] == RgbRead(g, env.file, u.constants, c0, c1, k)
    requires forall k {:trigger InAlpha(k)} :: 0 <= k < 4 ==>
      InAlpha(k) in env.locals && env.locals[InAlpha(k)] == Splat(AlphaRead(g, env.file, u.constants, c0, c1, k))
    ensures var e := Exec(Products(g), env, u);
      OnlyLocals(env, e) && HasResults(e, R.RawResults(g, env.file, env.mux, u.constants.c0[c0], u.constants.c1[c1]))
  {
    hide R.ColorInput;
    hide R.AlphaInput;
    var k, f := u.constants, env.file;
    ColorProductsDo(g, RgbRead(g, f, k, c0, c1, 0), RgbRead(g, f, k, c0, c1, 1), RgbRead(g, f, k, c0, c1, 2), RgbRead(g, f, k, c0, c1, 3), env, u);
    AlphaProductsDo(g, AlphaRead(g, f, k, c0, c1, 0), AlphaRead(g, f, k, c0, c1, 1), AlphaRead(g, f, k, c0, c1, 2), AlphaRead(g, f, k, c0, c1, 3),
                    env, ExecFirst(Products(g), env, u, 3), u);
    hide Products;
    hide ExecFirst;
    hide Eval;
  }

  function ShiftValue(m: OutputMapping, x: real): real {
    match m
    case OutIdentity => x
    case OutBias => x - 0.5
    case ShiftLeft1 => x * 2.0
    case ShiftLeft1Bias => (x - 0.5) * 2.0
    case ShiftLeft2 => x * 4.0
    case ShiftLeft2Bias => (x - 0.5) * 4.0
    case ShiftRight1 => x * 0.5
    case ShiftRight1Bias => (x - 0.5) * 0.5
  }

  lemma {:induction false} ShiftValueMaps(m: OutputMapping, x: real)
    ensures Clamp(ShiftValue(m, x), -1.0, 1.0) == R.OutputValue(m, x)
  {
    hide Clamp;
    match m
    case OutIdentity =>
    case OutBias =>
    case ShiftLeft1 =>
    case ShiftLeft1Bias =>
    case ShiftLeft2 =>
    case ShiftLeft2Bias =>
    case ShiftRight1 =>
    case ShiftRight1Bias =>
  }

  /** The output mapping on a colour, before the clamp. */
  function Shifted(m: OutputMapping, x: Vec3): Vec3 {
    match m
    case OutIdentity => x
    case OutBias => Sub(x, Splat(0.5))
    case ShiftLeft1 => Mul(x, Splat(2.0))
    case ShiftLeft1Bias => Mul(Sub(x, Splat(0.5)), Splat(2.0))
    case ShiftLeft2 => Mul(x, Splat(4.0))
    case ShiftLeft2Bias => Mul(Sub(x, Splat(0.5)), Splat(4.0))
    case ShiftRight1 => Mul(x, Splat(0.5))
    case ShiftRight1Bias => Mul(Sub(x, Splat(0.5)), Splat(0.5))
  }

  lemma {:induction false} TimesConst(x: Vec3, c: real)
    ensures Mul(x, Splat(c)) == Vec3(x.r * c, x.g * c, x.b * c)
  {
  }

  lemma {:induction false} ShiftedValues(m: OutputMapping, x: Vec3)
    ensures Shifted(m, x) == Vec3(ShiftValue(m, x.r), ShiftValue(m, x.g), ShiftValue(m, x.b))
  {
    var y := Sub(x, Splat(0.5));
    assert y == Vec3(x.r - 0.5, x.g - 0.5, x.b - 0.5);
    hide Mul;
    match m
    case OutIdentity =>
    case OutBias =>
    case ShiftLeft1 => TimesConst(x, 2.0);
    case ShiftLeft1Bias => TimesConst(y, 2.0);
    case ShiftLeft2 => TimesConst(x, 4.0);
    case ShiftLeft2Bias => TimesConst(y, 4.0);
    case ShiftRight1 => TimesConst(x, 0.5);
    case ShiftRight1Bias => TimesConst(y, 0.5);
  }

  lemma {:induction false} ShiftedMaps(m: OutputMapping, x: Vec3)
    ensures Clamp3(Shifted(m, x), -1.0, 1.0) == R.OutputColor(m, x)
  {
    ShiftedValues(m, x);
    ShiftValueMaps(m, x.r);
    ShiftValueMaps(m, x.g);
    ShiftValueMaps(m, x.b);
    hide Clamp;
    hide Shifted;
    hide ShiftValue;
    hide R.OutputValue;
  }

  lemma {:induction false} EvalScaled(x: Expr, c: real, env: Env, u: Uniforms)
    ensures Eval(Times(x, Const(c)), env, u) == Mul(Eval(x, env, u), Splat(c))
  {
    assert Eval(Const(c), env, u) == Splat(c);
  }

  lemma {:induction false} OutputMappedShifts(m: OutputMapping, v: Expr, env: Env, u: Uniforms)
    ensures Eval(OutputMapped(m, v), env, u) == Shifted(m, Eval(v, env, u))
  {
    var b := Minus(v, Const(0.5));
    EvalDifference(0.5, v, env, u);
    hide Eval;
    hide Mul;
    hide Sub;
    hide Splat;
    match m
    case OutIdentity =>
    case OutBias =>
    case ShiftLeft1 => EvalScaled(v, 2.0, env, u);
    case ShiftLeft1Bias => EvalScaled(b, 2.0, env, u);
    case ShiftLeft2 => EvalScaled(v, 4.0, env, u);
    case ShiftLeft2Bias => EvalScaled(b, 4.0, env, u);
    case ShiftRight1 => EvalScaled(v, 0.5, env, u);
    case ShiftRight1Bias => EvalScaled(b, 0.5, env, u);
  }

  lemma {:induction false} OutputMappedDoes(m: OutputMapping, v: Expr, env: Env, u: Uniforms)
    ensures Eval(ClampOne(OutputMapped(m, v)), env, u) == R.OutputColor(m, Eval(v, env, u))
  {
    OutputMappedShifts(m, v, env, u);
    ShiftedMaps(m, Eval(v, env, u));
    hide OutputMapped;
    hide Shifted;
    hide Clamp3;
    hide R.OutputColor;
  }

  lemma {:induction false} MapLocalDoes(l: Local, m: OutputMapping, env: Env, u: Uniforms)
    requires l in env.locals
    ensures Step(MapLocal(l, m), env, u) == env.(locals := env.locals[l := R.OutputColor(m, env.locals[l])])
  {
    OutputMappedDoes(m, Var(l), env, u);
    assert Eval(Var(l), env, u) == env.locals[l];
    hide Eval;
    hide OutputMapped;
    hide R.OutputColor;
  }

  lemma {:induction false} ColorMappingsDo(g: Stage, env: Env, u: Uniforms)
    requires AbRgb in env.locals && CdRgb in env.locals && SumRgb in env.locals
    ensures var m := g.rgbOutput.outputMap;
      ExecFirst(Mappings(g), env, u, 3) == env.(locals := env.locals[AbRgb := R.OutputColor(m, env.locals[AbRgb])]
        [CdRgb := R.OutputColor(m, env.locals[CdRgb])][SumRgb := R.OutputColor(m, env.locals[SumRgb])])
  {
    var p, m := Mappings(g), g.rgbOutput.outputMap;
    hide R.OutputColor;
    hide Eval;
    ExecNext(p, env, u, 0);
    MapLocalDoes(AbRgb, m, env, u);
    var e1 := ExecFirst(p, env, u, 1);
    assert e1 == Step(p[0], env, u);
    ExecNext(p, env, u, 1);
    MapLocalDoes(CdRgb, m, e1, u);
    var e2 := ExecFirst(p, env, u, 2);
    assert e2 == Step(p[1], e1, u);
    ExecNext(p, env, u, 2);
    MapLocalDoes(SumRgb, m, e2, u);
  }

  lemma {:induction false} AlphaMappingsDo(g: Stage, env: Env, e: Env, u: Uniforms)
    requires e == ExecFirst(Mappings(g), env, u, 3)
    requires AbAlpha in e.locals && CdAlpha in e.locals && SumAlpha in e.locals
    ensures var n := g.alphaOutput.outputMap;
      Exec(Mappings(g), env, u) == e.(locals := e.locals[AbAlpha := R.OutputColor(n, e.locals[AbAlpha])]
        [CdAlpha := R.OutputColor(n, e.locals[CdAlpha])][SumAlpha := R.OutputColor(n, e.locals[SumAlpha])])
  {
    var p, n := Mappings(g), g.alphaOutput.outputMap;
    hide R.OutputColor;
    hide Eval;
    ExecNext(p, env, u, 3);
    MapLocalDoes(AbAlpha, n, e, u);
    var e4 := ExecFirst(p, env, u, 4);
    assert e4 == Step(p[3], e, u);
    ExecNext(p, env, u, 4);
    MapLocalDoes(CdAlpha, n, e4, u);
    var e5 := ExecFirst(p, env, u, 5);
    assert e5 == Step(p[4], e4, u);
    ExecNext(p, env, u, 5);
    MapLocalDoes(SumAlpha, n, e5, u);
  }

  lemma {:induction false} MappingsDo(g: Stage, env: Env, u: Uniforms, r: R.Results)
    requires HasResults(env, r)
    ensures var e := Exec(Mappings(g), env, u);
      OnlyLocals(env, e) && HasResults(e, R.Mapped(g, r))
  {
    ColorMappingsDo(g, env, u);
    AlphaMappingsDo(g, env, ExecFirst(Mappings(g), env, u, 3), u);
    hide R.OutputColor;
    hide R.OutputValue;
    hide Splat;
    hide ExecFirst;
    hide Exec;
    hide Mappings;
  }

  // ---- The writes ----

  function PutRgb(f: R.File, dst: Register, x: Vec3): R.File {
    if dst == REG_ZERO then f else f[RegName(dst) := f[RegName(dst)].(rgb := x)]
  }

  function PutAlpha(f: R.File, dst: Register, x: real): R.File {
    if dst == REG_ZERO then f else f[RegName(dst) := f[RegName(dst)].(a := x)]
  }

  /** All writes of a stage, one after the other. */
  function PutAll(g: Stage, r: R.Results, f: R.File): R.File {
    var o, a := g.rgbOutput, g.alphaOutput;
    var f1 := PutRgb(f, o.abDst, r.ab);
    var f2 := if o.abBlueToAlpha then PutAlpha(f1, o.abDst, r.ab.b) else f1;
    var f3 := PutRgb(f2, o.cdDst, r.cd);
    var f4 := if o.cdBlueToAlpha then PutAlpha(f3, o.cdDst, r.cd.b) else f3;
    var f5 := PutRgb(f4, o.sumDst, r.sum);
    var f6 := PutAlpha(f5, a.abDst, r.abA);
    var f7 := PutAlpha(f6, a.cdDst, r.cdA);
    PutAlpha(f7, a.sumDst, r.sumA)
  }

  lemma {:induction false} PutEffects(f: R.File, dst: Register, x: Vec3, y: real, reg: Register)
    ensures PutRgb(f, dst, x)[reg] == if reg == RegName(dst) && dst != REG_ZERO then Vec4(x, f[reg].a) else f[reg]
    ensures PutAlpha(f, dst, y)[reg] == if reg == RegName(dst) && dst != REG_ZERO then Vec4(f[reg].rgb, y) else f[reg]
  {
  }

  lemma {:induction false} PutAllAt(g: Stage, r: R.Results, f: R.File, reg: Register)
    requires !WritesReserved(g.rgbOutput) && !WritesReserved(g.alphaOutput)
    ensures PutAll(g, r, f)[reg] == Vec4(R.ColorAfter(g, r, reg, f[reg].rgb), R.AlphaAfter(g, r, reg, f[reg].a))
  {
    var o, a := g.rgbOutput, g.alphaOutput;
    var f1 := PutRgb(f, o.abDst, r.ab);
    var f2 := if o.abBlueToAlpha then PutAlpha(f1, o.abDst, r.ab.b) else f1;
    var f3 := PutRgb(f2, o.cdDst, r.cd);
    var f4 := if o.cdBlueToAlpha then PutAlpha(f3, o.cdDst, r.cd.b) else f3;
    var f5 := PutRgb(f4, o.sumDst, r.sum);
    var f6 := PutAlpha(f5, a.abDst, r.abA);
    var f7 := PutAlpha(f6, a.cdDst, r.cdA);
    PutEffects(f, o.abDst, r.ab, 0.0, reg);
    PutEffects(f1, o.abDst, r.ab, r.ab.b, reg);
    PutEffects(f2, o.cdDst, r.cd, 0.0, reg);
    PutEffects(f3, o.cdDst, r.cd, r.cd.b, reg);
    PutEffects(f4, o.sumDst, r.sum, 0.0, reg);
    PutEffects(f5, a.abDst, r.ab, r.abA, reg);
    PutEffects(f6, a.cdDst, r.ab, r.cdA, reg);
    PutEffects(f7, a.sumDst, r.ab, r.sumA, reg);
    hide PutRgb;
    hide PutAlpha;
  }

  lemma {:induction false} PutAllUpdates(g: Stage, r: R.Results, f: R.File)
    requires !WritesReserved(g.rgbOutput) && !WritesReserved(g.alphaOutput)
    ensures PutAll(g, r, f) == R.Updated(g, r, f)
  {
    forall reg | 0 <= reg < 16 ensures PutAll(g, r, f)[reg] == R.Updated(g, r, f)[reg] {
      PutAllAt(g, r, f, reg);
    }
  }

  lemma {:induction false} WriteDoes(dst: Register, blue: bool, l: Local, env: Env, u: Uniforms)
    requires l in env.locals
    ensures Exec(WriteRgb(dst, l), env, u) == env.(file := PutRgb(env.file, dst, env.locals[l]))
    ensures Exec(WriteAlpha(dst, l), env, u) == env.(file := PutAlpha(env.file, dst, env.locals[l].r))
    ensures Exec(WriteBlue(dst, blue, l), env, u)
         == env.(file := if blue then PutAlpha(env.file, dst, env.locals[l].b) else env.file)
  {
    assert Eval(Var(l), env, u) == env.locals[l];
    assert Eval(Blue(Var(l)), env, u) == Splat(env.locals[l].b);
    if dst != REG_ZERO {
      ExecNext(WriteRgb(dst, l), env, u, 0);
      ExecNext(WriteAlpha(dst, l), env, u, 0);
      if blue { ExecNext(WriteBlue(dst, blue, l), env, u, 0); }
    }
  }

  /** The writes of a stage, whatever their destinations: those to numbers 6 and 7 go to the
      variable that holds zero. */
  lemma {:induction false} WritesPutAll(g: Stage, env: Env, u: Uniforms, r: R.Results)
    requires HasResults(env, r)
    ensures var e := Exec(Writes(g), env, u);
      e.file == PutAll(g, r, env.file) && e.result == env.result && e.discarded == env.discarded
  {
    var o, a := g.rgbOutput, g.alphaOutput;
    var p1, p2 := WriteRgb(o.abDst, AbRgb), WriteBlue(o.abDst, o.abBlueToAlpha, AbRgb);
    var p3, p4 := WriteRgb(o.cdDst, CdRgb), WriteBlue(o.cdDst, o.cdBlueToAlpha, CdRgb);
    var p5, p6, p7, p8 := WriteRgb(o.sumDst, SumRgb), WriteAlpha(a.abDst, AbAlpha), WriteAlpha(a.cdDst, CdAlpha), WriteAlpha(a.sumDst, SumAlpha);
    hide WriteRgb;
    hide WriteBlue;
    hide WriteAlpha;
    hide Exec;
    ExecJoin(p1, p2, env, u);
    ExecJoin(p1 + p2, p3, env, u);
    ExecJoin(p1 + p2 + p3, p4, env, u);
    ExecJoin(p1 + p2 + p3 + p4, p5, env, u);
    ExecJoin(p1 + p2 + p3 + p4 + p5, p6, env, u);
    ExecJoin(p1 + p2 + p3 + p4 + p5 + p6, p7, env, u);
    ExecJoin(p1 + p2 + p3 + p4 + p5 + p6 + p7, p8, env, u);
    WriteDoes(o.abDst, false, AbRgb, env, u);
    var e1 := Exec(p1, env, u);
    WriteDoes(o.abDst, o.abBlueToAlpha, AbRgb, e1, u);
    var e2 := Exec(p2, e1, u);
    WriteDoes(o.cdDst, false, CdRgb, e2, u);
    var e3 := Exec(p3, e2, u);
    WriteDoes(o.cdDst, o.cdBlueToAlpha, CdRgb, e3, u);
    var e4 := Exec(p4, e3, u);
    WriteDoes(o.sumDst, false, SumRgb, e4, u);
    var e5 := Exec(p5, e4, u);
    WriteDoes(a.abDst, false, AbAlpha, e5, u);
    var e6 := Exec(p6, e5, u);
    WriteDoes(a.cdDst, false, CdAlpha, e6, u);
    var e7 := Exec(p7, e6, u);
    WriteDoes(a.sumDst, false, SumAlpha, e7, u);
  }

  /** Without such destinations they are the update of the combiners. */
  lemma {:induction false} WritesDo(g: Stage, env: Env, u: Uniforms, r: R.Results)
    requires HasResults(env, r) && !WritesReserved(g.rgbOutput) && !WritesReserved(g.alphaOutput)
    ensures var e := Exec(Writes(g), env, u);
      e.file == R.Updated(g, r, env.file) && e.result == env.result && e.discarded == env.discarded
  {
    WritesPutAll(g, env, u, r);
    PutAllUpdates(g, r, env.file);
    hide *;
  }

  function Ones(): R.Results {
    R.Results(Splat(1.0), Splat(1.0), Splat(1.0), 1.0, 1.0, 1.0)
  }

  /** Ones written to numbers 6 or 7 stay in the variable that holds zero. */
  lemma {:induction false} ZeroOverwritten(g: Stage, f: R.File)
    requires f[REG_ZERO] == BLACK && (WritesReserved(g.rgbOutput) || WritesReserved(g.alphaOutput))
    ensures PutAll(g, Ones(), f)[REG_ZERO] != BLACK
  {
    var o, a, r := g.rgbOutput, g.alphaOutput, Ones();
    var f1 := PutRgb(f, o.abDst, r.ab);
    var f2 := if o.abBlueToAlpha then PutAlpha(f1, o.abDst, r.ab.b) else f1;
    var f3 := PutRgb(f2, o.cdDst, r.cd);
    var f4 := if o.cdBlueToAlpha then PutAlpha(f3, o.cdDst, r.cd.b) else f3;
    var f5 := PutRgb(f4, o.sumDst, r.sum);
    var f6 := PutAlpha(f5, a.abDst, r.abA);
    var f7 := PutAlpha(f6, a.cdDst, r.cdA);
    PutEffects(f, o.abDst, r.ab, 0.0, REG_ZERO);
    PutEffects(f1, o.abDst, r.ab, r.ab.b, REG_ZERO);
    PutEffects(f2, o.cdDst, r.cd, 0.0, REG_ZERO);
    PutEffects(f3, o.cdDst, r.cd, r.cd.b, REG_ZERO);
    PutEffects(f4, o.sumDst, r.sum, 0.0, REG_ZERO);
    PutEffects(f5, a.abDst, r.ab, r.abA, REG_ZERO);
    PutEffects(f6, a.cdDst, r.ab, r.cdA, REG_ZERO);
    PutEffects(f7, a.sumDst, r.ab, r.sumA, REG_ZERO);
    hide PutRgb, PutAlpha;
  }

  /** The two files agree on every register a shader reads as such: all but the copies of the
      constants and the two numbers that name none. */
  ghost predicate SameRegisters(f: R.File, g: R.File) {
    forall r {:trigger f[r]} {:trigger g[r]} ::
      0 <= r < 16 && r != REG_C0 && r != REG_C1 && !Reserved(r) ==> f[r] == g[r]
  }

  /** Whatever the results and the registers, running the writes is the combiners' update. */
  ghost predicate WritesUpdate(g: Stage) {
    forall env: Env, u: Uniforms, r: R.Results {:trigger Exec(Writes(g), env, u), HasResults(env, r)} ::
      HasResults(env, r) ==> SameRegisters(R.Updated(g, r, env.file), Exec(Writes(g), env, u).file)
  }

  /** That is so exactly for the stages that write to neither of numbers 6 and 7. */
  lemma {:induction false} WritesUpdateIff(g: Stage)
    ensures WritesUpdate(g) <==> !WritesReserved(g.rgbOutput) && !WritesReserved(g.alphaOutput)
  {
    if !WritesReserved(g.rgbOutput) && !WritesReserved(g.alphaOutput) {
      forall env: Env, u: Uniforms, r: R.Results | HasResults(env, r)
        ensures SameRegisters(R.Updated(g, r, env.file), Exec(Writes(g), env, u).file)
      {
        WritesDo(g, env, u, r);
        hide R.Updated, Exec, Writes;
      }
    } else {
      ReservedWriteDiffers(g);
    }
  }

  lemma {:induction false} ReservedWriteDiffers(g: Stage)
    requires WritesReserved(g.rgbOutput) || WritesReserved(g.alphaOutput)
    ensures !WritesUpdate(g)
  {
    var one := Splat(1.0);
    var env := Env(R.Blank(), false,
      map[AbRgb := one, CdRgb := one, SumRgb := one, AbAlpha := one, CdAlpha := one, SumAlpha := one], BLACK, false,
      R.Interpolants(BLACK, BLACK, BLACK, []));
    var u := Uniforms(R.Constants([], [], BLACK, BLACK), R.AlphaTest(false, 0, 0.0));
    assert HasResults(env, Ones());
    assert R.Updated(g, Ones(), env.file)[REG_ZERO] == env.file[REG_ZERO] == BLACK;
    WritesPutAll(g, env, u, Ones());
    ZeroOverwritten(g, env.file);
    hide R.Updated, Exec, Writes, PutAll, HasResults, WritesReserved;
    assert !SameRegisters(R.Updated(g, Ones(), env.file), Exec(Writes(g), env, u).file);
  }

  // ---- A whole stage ----

  lemma {:induction false} ResultsAgree(g: Stage, f: R.File, h: R.File, mux: bool, c0: Vec4, c1: Vec4)
    requires g.Valid() && Agrees(f, h)
    ensures R.RawResults(g, f, mux, c0, c1) == R.RawResults(g, h, mux, c0, c1)
  {
    InputsAgree(g.rgbInput[0], f, h, c0, c1);
    InputsAgree(g.rgbInput[1], f, h, c0, c1);
    InputsAgree(g.rgbInput[2], f, h, c0, c1);
    InputsAgree(g.rgbInput[3], f, h, c0, c1);
    InputsAgree(g.alphaInput[0], f, h, c0, c1);
    InputsAgree(g.alphaInput[1], f, h, c0, c1);
    InputsAgree(g.alphaInput[2], f, h, c0, c1);
    InputsAgree(g.alphaInput[3], f, h, c0, c1);
    hide R.ColorInput;
    hide R.AlphaInput;
    hide R.Combined;
    hide Agrees;
  }

  /** The statements of a stage up to its writes leave all six results in their variables. */
  lemma {:induction false} StageComputes(s: State, g: Stage, c0: nat, c1: nat, f: R.File, env: Env, u: Uniforms)
    requires g.Valid() && c0 < |u.constants.c0| && c1 < |u.constants.c1| && Agrees(f, env.file)
    ensures var p := StageHead(s, c0, c1) + RgbReads(g, c0, c1, 4) + AlphaReads(g, c0, c1, 4) + Products(g) + Mappings(g);
      var e := Exec(p, env, u);
      && Agrees(f, e.file) && e.result == env.result && e.discarded == env.discarded
      && HasResults(e, R.StageResults(s, g, f, u.constants.c0[c0], u.constants.c1[c1]))
  {
    var p1, p2, p3, p4, p5 := StageHead(s, c0, c1), RgbReads(g, c0, c1, 4), AlphaReads(g, c0, c1, 4), Products(g), Mappings(g);
    assert f[REG_R0] == env.file[REG_R0];
    ExecJoin(p1, p2, env, u);
    ExecJoin(p1 + p2, p3, env, u);
    ExecJoin(p1 + p2 + p3, p4, env, u);
    ExecJoin(p1 + p2 + p3 + p4, p5, env, u);
    hide Exec;
    hide StageHead;
    hide RgbReads;
    hide AlphaReads;
    hide Products;
    hide Mappings;
    hide HasResults;
    hide R.RawResults;
    hide R.Mapped;
    hide R.ColorInput;
    hide R.AlphaInput;
    HeadDoes(s, c0, c1, env, u);
    var e1 := Exec(p1, env, u);
    hide Agrees;
    RgbReadsDo(g, c0, c1, 4, e1, u);
    var e2 := Exec(p2, e1, u);
    AlphaReadsDo(g, c0, c1, 4, e2, u);
    var e3 := Exec(p3, e2, u);
    ProductsDo(g, c0, c1, e3, u);
    var e4 := Exec(p4, e3, u);
    ResultsAgree(g, f, e3.file, e3.mux, u.constants.c0[c0], u.constants.c1[c1]);
    MappingsDo(g, e4, u, R.RawResults(g, f, e3.mux, u.constants.c0[c0], u.constants.c1[c1]));
  }

  lemma {:induction false} StageDoes(s: State, i: nat, f: R.File, env: Env, u: Uniforms)
    requires s.Valid() && u.Valid() && i < s.numStages && LegalStage(s.stages[i]) && Agrees(f, env.file)
    ensures var e := Exec(StageProgram(s, i), env, u);
      var c0, c1 := u.constants.c0[R.C0Stage(s, i)], u.constants.c1[R.C1Stage(s, i)];
      && Agrees(R.Updated(s.stages[i], R.StageResults(s, s.stages[i], f, c0, c1), f), e.file)
      && e.result == env.result && e.discarded == env.discarded
  {
    var g, c0, c1 := s.stages[i], R.C0Stage(s, i), R.C1Stage(s, i);
    var p := StageHead(s, c0, c1) + RgbReads(g, c0, c1, 4) + AlphaReads(g, c0, c1, 4) + Products(g) + Mappings(g);
    var r := R.StageResults(s, g, f, u.constants.c0[c0], u.constants.c1[c1]);
    StageComputes(s, g, c0, c1, f, env, u);
    ExecJoin(p, Writes(g), env, u);
    assert StageProgram(s, i) == p + Writes(g);
    hide Exec;
    hide Writes;
    hide Agrees;
    hide R.Updated;
    hide R.StageResults;
    var e := Exec(p, env, u);
    WritesDo(g, e, u, r);
  }

  lemma {:induction false} StagesDo(s: State, n: nat, f: R.File, env: Env, u: Uniforms)
    requires s.Valid() && u.Valid() && n <= s.numStages && Legal(s) && Agrees(f, env.file)
    ensures var e := Exec(StagesProgram(s, n), env, u);
      && Agrees(R.AfterStages(s, u.constants, f, n), e.file)
      && e.result == env.result && e.discarded == env.discarded
  {
    hide Agrees;
    hide R.Updated;
    hide R.StageResults;
    hide StageProgram;
    if n > 0 {
      StagesDo(s, n - 1, f, env, u);
      var e := Exec(StagesProgram(s, n - 1), env, u);
      ExecJoin(StagesProgram(s, n - 1), StageProgram(s, n - 1), env, u);
      assert LegalStage(s.stages[n - 1]);
      StageDoes(s, n - 1, R.AfterStages(s, u.constants, f, n - 1), e, u);
    }
  }

  // ---- The final combiner ----

  lemma {:induction false} TermValue(complement: bool, r: Register, env: Env, u: Uniforms)
    ensures Eval(Term(complement, r), env, u) == if complement then Sub(Splat(1.0), env.file[r].rgb) else env.file[r].rgb
  {
    EvalDifference(1.0, Read(Reg(r), Rgb), env, u);
    assert Eval(Read(Reg(r), Rgb), env, u) == env.file[r].rgb;
  }

  lemma {:induction false} SumValue(s: State, env: Env, u: Uniforms)
    requires s.Valid()
    ensures var sum := Plus(Term(s.finalFlags.complementV1, REG_V1), Term(s.finalFlags.complementR0, REG_R0));
      Eval(if s.finalFlags.clampSum then Saturate(sum) else sum, env, u) == R.V1R0(s, env.file)
  {
    TermValue(s.finalFlags.complementV1, REG_V1, env, u);
    TermValue(s.finalFlags.complementR0, REG_R0, env, u);
    var sum := Plus(Term(s.finalFlags.complementV1, REG_V1), Term(s.finalFlags.complementR0, REG_R0));
    hide Term;
    hide Sub;
    hide Clamp3;
    assert Eval(sum, env, u) == Add(Eval(Term(s.finalFlags.complementV1, REG_V1), env, u), Eval(Term(s.finalFlags.complementR0, REG_R0), env, u));
    hide Add;
  }

  lemma {:induction false} SpecialsDo(s: State, f: R.File, env: Env, u: Uniforms)
    requires s.Valid() && Agrees(f, env.file)
    ensures var e := Exec(FinalSpecials(s), env, u);
      && Agrees(R.WithProduct(s, u.constants, f), e.file)
      && e.result == env.result && e.discarded == env.discarded
  {
    var p, k := FinalSpecials(s), u.constants;
    hide R.V1R0;
    hide Eval;
    hide MappedInput;
    hide Term;
    hide R.ColorInput;
    ExecNext(p, env, u, 0);
    ExecNext(p, env, u, 1);
    ExecNext(p, env, u, 2);
    ExecNext(p, env, u, 3);
    var e2, e3 := ExecFirst(p, env, u, 2), ExecFirst(p, env, u, 3);
    SumValue(s, e2, u);
    assert e3.file[REG_V1R0_SUM] == Vec4(R.V1R0(s, f), 0.0) && e3.file[REG_EF_PROD] == BLACK;
    assert Agrees(R.WithSum(s, f), e3.file);
    ColorInputRead(s.final[4], e3, u, -1, -1);
    ColorInputRead(s.final[5], e3, u, -1, -1);
    InputsAgree(s.final[4], R.WithSum(s, f), e3.file, k.final0, k.final1);
    InputsAgree(s.final[5], R.WithSum(s, f), e3.file, k.final0, k.final1);
    ProductValue(MappedInput(s.final[4], false, -1, -1), MappedInput(s.final[5], false, -1, -1), e3, u);
  }

  lemma {:induction false} ProductValue(x: Expr, y: Expr, env: Env, u: Uniforms)
    ensures Eval(Times(x, y), env, u) == Mul(Eval(x, env, u), Eval(y, env, u))
  {
  }

  lemma {:induction false} FinalReadsDo(s: State, n: nat, env: Env, u: Uniforms)
    requires s.Valid() && n <= 4
    ensures var e := Exec(FinalReads(s, n), env, u);
      && OnlyLocals(env, e)
      && forall k {:trigger FinalIn(k)} :: 0 <= k < n ==>
           FinalIn(k) in e.locals && e.locals[FinalIn(k)] == R.ColorInput(s.final[k], env.file, u.constants.final0, u.constants.final1)
  {
    if n > 0 {
      FinalReadsDo(s, n - 1, env, u);
      hide Eval;
      hide MappedInput;
      hide R.ColorInput;
      var p := FinalReads(s, n - 1);
      ExecOne(p, Let(FinalIn(n - 1), MappedInput(s.final[n - 1], false, -1, -1)), env, u);
      ColorInputRead(s.final[n - 1], Exec(p, env, u), u, -1, -1);
    }
  }

  lemma {:induction false} FinalMix(a: Expr, b: Expr, c: Expr, d: Expr, env: Env, u: Uniforms)
    ensures Eval(Saturate(Plus(Plus(d, Times(a, b)), Times(Minus(Const(1.0), a), c))), env, u)
         == Clamp3(Add(Add(Eval(d, env, u), Mul(Eval(a, env, u), Eval(b, env, u))),
                       Mul(Sub(Splat(1.0), Eval(a, env, u)), Eval(c, env, u))), 0.0, 1.0)
  {
    ProductValue(a, b, env, u);
    EvalDifference(1.0, a, env, u);
    ProductValue(Minus(Const(1.0), a), c, env, u);
    hide Mul;
    hide Add;
    hide Sub;
    hide Clamp3;
    var left := Plus(d, Times(a, b));
    assert Eval(left, env, u) == Add(Eval(d, env, u), Eval(Times(a, b), env, u));
  }

  lemma {:induction false} FinalDoes(s: State, f: R.File, env: Env, u: Uniforms)
    requires s.Valid() && Agrees(f, env.file)
    ensures var e := Exec(FinalProgram(s), env, u);
      e.result == R.FinalColor(s, u.constants, f) && e.discarded == env.discarded
  {
    var p1, p2, p3, k := FinalSpecials(s), FinalReads(s, 4), FinalResult(s), u.constants;
    ExecJoin(p1, p2, env, u);
    ExecJoin(p1 + p2, p3, env, u);
    SpecialsDo(s, f, env, u);
    var e1 := Exec(p1, env, u);
    FinalReadsDo(s, 4, e1, u);
    var e2 := Exec(p2, e1, u);
    var g := R.WithProduct(s, k, f);
    InputsAgree(s.final[0], g, e1.file, k.final0, k.final1);
    InputsAgree(s.final[1], g, e1.file, k.final0, k.final1);
    InputsAgree(s.final[2], g, e1.file, k.final0, k.final1);
    InputsAgree(s.final[3], g, e1.file, k.final0, k.final1);
    InputsAgree(s.final[6], g, e1.file, k.final0, k.final1);
    FinalResultDoes(s, e2, u);
    hide Exec;
    hide FinalSpecials;
    hide FinalReads;
    hide FinalResult;
    hide R.ColorInput;
    hide R.AlphaInput;
    hide R.WithProduct;
    hide Agrees;
    hide Mul;
    hide Add;
    hide Sub;
    hide Clamp3;
  }

  lemma {:induction false} FinalResultDoes(s: State, env: Env, u: Uniforms)
    requires s.Valid()
    requires forall k {:trigger FinalIn(k)} :: 0 <= k < 4 ==> FinalIn(k) in env.locals
    ensures var e := Exec(FinalResult(s), env, u);
      var a, b, c, d := env.locals[FinalIn(0)], env.locals[FinalIn(1)], env.locals[FinalIn(2)], env.locals[FinalIn(3)];
      && e.result == Vec4(Clamp3(Add(Add(d, Mul(a, b)), Mul(Sub(Splat(1.0), a), c)), 0.0, 1.0),
                          R.AlphaInput(s.final[6], env.file, u.constants.final0, u.constants.final1))
      && e.discarded == env.discarded
  {
    var p := FinalResult(s);
    FinalMix(Var(FinalIn(0)), Var(FinalIn(1)), Var(FinalIn(2)), Var(FinalIn(3)), env, u);
    assert Eval(Var(FinalIn(0)), env, u) == env.locals[FinalIn(0)] && Eval(Var(FinalIn(1)), env, u) == env.locals[FinalIn(1)];
    assert Eval(Var(FinalIn(2)), env, u) == env.locals[FinalIn(2)] && Eval(Var(FinalIn(3)), env, u) == env.locals[FinalIn(3)];
    hide Eval;
    hide MappedInput;
    hide R.AlphaInput;
    hide Mul;
    hide Add;
    hide Sub;
    hide Clamp3;
    ExecNext(p, env, u, 0);
    ExecNext(p, env, u, 1);
    AlphaInputRead(s.final[6], ExecFirst(p, env, u, 1), u, -1, -1);
  }

  // ---- The shader ----

  /** The shader's alpha test lets through what the render states' test does. */
  lemma {:induction false} AlphaPassesIff(t: R.AlphaTest, alpha: real)
    ensures AlphaPasses(t, alpha) <==> R.Passes(t, alpha)
  {
  }

  lemma {:induction false} ColorDoes(s: State, u: Uniforms, env: Env)
    requires s.Valid() && Legal(s) && u.Valid()
    ensures var e := Exec(StagesProgram(s, s.numStages) + FinalProgram(s), env, u);
      e.result == R.FinalColor(s, u.constants, R.AfterStages(s, u.constants, env.file, s.numStages))
      && e.discarded == env.discarded
  {
    var f, p1, p2 := env.file, StagesProgram(s, s.numStages), FinalProgram(s);
    ExecJoin(p1, p2, env, u);
    StagesDo(s, s.numStages, f, env, u);
    var e1 := Exec(p1, env, u);
    FinalDoes(s, R.AfterStages(s, u.constants, f, s.numStages), e1, u);
    hide R.FinalColor;
    hide R.AfterStages;
    hide StagesProgram;
    hide FinalProgram;
    hide Agrees;
    hide Exec;
  }

  // ---- The variables before the stages ----

  /** The registers that have a variable of their own before the first stage, but for the copies
      of the constants. */
  predicate Live(r: Register) {
    r == REG_ZERO || r == REG_FOG || r == REG_V0 || r == REG_V1 || REG_T0 <= r < REG_T0 + 4 || r == REG_R0 || r == REG_R1
  }

  ghost predicate LiveAgree(f: R.File, g: R.File) {
    forall r {:trigger f[r]} {:trigger g[r]} :: 0 <= r < 16 && Live(r) ==> f[r] == g[r]
  }

  lemma {:induction false} FetchesDo(n: nat, env: Env, u: Uniforms)
    requires n <= 4 && env.inputs.Valid()
    ensures var e := Exec(TextureFetches(n), env, u);
      && e == env.(file := e.file)
      && forall r {:trigger e.file[r]} :: 0 <= r < 16 ==>
           e.file[r] == if REG_T0 <= r < REG_T0 + n then env.inputs.textures[r - REG_T0] else env.file[r]
  {
    if n > 0 {
      FetchesDo(n - 1, env, u);
      ExecOne(TextureFetches(n - 1), Fetch(REG_T0 + n - 1, Texture(n - 1)), env, u);
    }
  }

  lemma {:induction false} InputsDo(env: Env, u: Uniforms)
    ensures var p := [Clear(REG_ZERO), Load(REG_C0, C0(0)), Load(REG_C1, C1(0)),
                      Fetch(REG_FOG, FogInput), Fetch(REG_V0, Color0), Fetch(REG_V1, Color1)];
      var e := Exec(p, env, u);
      && e == env.(file := e.file)
      && e.file[REG_ZERO] == BLACK && e.file[REG_FOG] == env.inputs.fog
      && e.file[REG_V0] == env.inputs.v0 && e.file[REG_V1] == env.inputs.v1
  {
    var p := [Clear(REG_ZERO), Load(REG_C0, C0(0)), Load(REG_C1, C1(0)),
              Fetch(REG_FOG, FogInput), Fetch(REG_V0, Color0), Fetch(REG_V1, Color1)];
    hide Whole;
    ExecNext(p, env, u, 0);
    ExecNext(p, env, u, 1);
    ExecNext(p, env, u, 2);
    ExecNext(p, env, u, 3);
    ExecNext(p, env, u, 4);
    ExecNext(p, env, u, 5);
  }

  lemma {:induction false} TemporariesDo(s: State, env: Env, u: Uniforms)
    ensures var p := [Clear(REG_R0), SetAlpha(REG_R0, R0Start(s)), Clear(REG_R1)];
      var e := Exec(p, env, u);
      && e == env.(file := e.file) && e.file[REG_R1] == BLACK
      && e.file[REG_R0] == Vec4(Splat(0.0), if s.texture0 then env.file[REG_T0].a else 1.0)
      && forall r {:trigger e.file[r]} :: 0 <= r < 12 ==> e.file[r] == env.file[r]
  {
    var p := [Clear(REG_R0), SetAlpha(REG_R0, R0Start(s)), Clear(REG_R1)];
    ExecNext(p, env, u, 0);
    ExecNext(p, env, u, 1);
    ExecNext(p, env, u, 2);
    var e1 := ExecFirst(p, env, u, 1);
    assert Eval(R0Start(s), e1, u).r == if s.texture0 then env.file[REG_T0].a else 1.0;
    hide Eval;
  }

  /** The shader's first statements put every input into its register. */
  lemma {:induction false} PreludeDoes(s: State, env: Env, u: Uniforms)
    requires env.inputs.Valid()
    ensures var e := Exec(Prelude(s), env, u);
      e == env.(file := e.file) && LiveAgree(R.Start(s, env.inputs), e.file)
  {
    var p1 := [Clear(REG_ZERO), Load(REG_C0, C0(0)), Load(REG_C1, C1(0)),
               Fetch(REG_FOG, FogInput), Fetch(REG_V0, Color0), Fetch(REG_V1, Color1)];
    var p2, p3 := TextureFetches(4), [Clear(REG_R0), SetAlpha(REG_R0, R0Start(s)), Clear(REG_R1)];
    ExecJoin(p1, p2, env, u);
    ExecJoin(p1 + p2, p3, env, u);
    InputsDo(env, u);
    FetchesDo(4, Exec(p1, env, u), u);
    TemporariesDo(s, Exec(p2, Exec(p1, env, u), u), u);
    hide Exec, TextureFetches;
    var e := Exec(Prelude(s), env, u);
    forall r {:trigger e.file[r]} | 0 <= r < 16 && Live(r) ensures R.Start(s, env.inputs)[r] == e.file[r] {
    }
  }

  // ---- What the combiners' result depends on ----

  lemma {:induction false} LiveInput(i: Input, f: R.File, g: R.File, c0: Vec4, c1: Vec4)
    requires LiveAgree(f, g) && (Late(i.reg) ==> f[i.reg] == g[i.reg])
    ensures R.ColorInput(i, f, c0, c1) == R.ColorInput(i, g, c0, c1)
    ensures R.AlphaInput(i, f, c0, c1) == R.AlphaInput(i, g, c0, c1)
  {
    assert R.Value(f, i.reg, c0, c1) == R.Value(g, i.reg, c0, c1);
  }

  lemma {:induction false} LiveStage(s: State, g: Stage, f: R.File, h: R.File, c0: Vec4, c1: Vec4)
    requires g.Valid() && LiveAgree(f, h) && !StageNames(g)
    ensures R.StageResults(s, g, f, c0, c1) == R.StageResults(s, g, h, c0, c1)
  {
    assert f[REG_R0] == h[REG_R0];
    forall k | 0 <= k < 4
      ensures R.ColorInput(g.rgbInput[k], f, c0, c1) == R.ColorInput(g.rgbInput[k], h, c0, c1)
      ensures R.AlphaInput(g.alphaInput[k], f, c0, c1) == R.AlphaInput(g.alphaInput[k], h, c0, c1)
    {
      assert !Late(g.rgbInput[k].reg) && !Late(g.alphaInput[k].reg);
      LiveInput(g.rgbInput[k], f, h, c0, c1);
      LiveInput(g.alphaInput[k], f, h, c0, c1);
    }
    hide R.ColorInput, R.AlphaInput, R.Combined, R.Mapped, LiveAgree;
  }

  lemma {:induction false} LiveUpdated(g: Stage, r: R.Results, f: R.File, h: R.File)
    requires LiveAgree(f, h)
    ensures LiveAgree(R.Updated(g, r, f), R.Updated(g, r, h))
  {
    hide R.ColorAfter, R.AlphaAfter;
  }

  lemma {:induction false} LiveStageDoes(s: State, i: nat, k: R.Constants, f: R.File, h: R.File)
    requires s.Valid() && k.Valid() && i < s.numStages && LegalStage(s.stages[i]) && LiveAgree(f, h)
    ensures var c0, c1 := k.c0[R.C0Stage(s, i)], k.c1[R.C1Stage(s, i)];
      LiveAgree(R.Updated(s.stages[i], R.StageResults(s, s.stages[i], f, c0, c1), f),
                R.Updated(s.stages[i], R.StageResults(s, s.stages[i], h, c0, c1), h))
  {
    var g, c0, c1 := s.stages[i], k.c0[R.C0Stage(s, i)], k.c1[R.C1Stage(s, i)];
    hide R.StageResults, R.Updated, LiveAgree, StageNames;
    LiveStage(s, g, f, h, c0, c1);
    LiveUpdated(g, R.StageResults(s, g, f, c0, c1), f, h);
  }

  lemma {:induction false} LiveStages(s: State, k: R.Constants, f: R.File, h: R.File, n: nat)
    requires s.Valid() && k.Valid() && n <= s.numStages && Legal(s) && LiveAgree(f, h)
    ensures LiveAgree(R.AfterStages(s, k, f, n), R.AfterStages(s, k, h, n))
  {
    hide LegalStage, R.StageResults, R.Updated, LiveAgree;
    if n > 0 {
      LiveStages(s, k, f, h, n - 1);
      assert LegalStage(s.stages[n - 1]);
      LiveStageDoes(s, n - 1, k, R.AfterStages(s, k, f, n - 1), R.AfterStages(s, k, h, n - 1));
    }
  }

  lemma {:induction false} LiveProduct(s: State, k: R.Constants, f: R.File, h: R.File)
    requires s.Valid() && LiveAgree(f, h)
    ensures var g, g' := R.WithProduct(s, k, f), R.WithProduct(s, k, h);
      LiveAgree(g, g') && g[REG_V1R0_SUM] == g'[REG_V1R0_SUM] && g[REG_EF_PROD] == g'[REG_EF_PROD]
  {
    assert R.V1R0(s, f) == R.V1R0(s, h);
    hide R.V1R0;
    LiveInput(s.final[4], R.WithSum(s, f), R.WithSum(s, h), k.final0, k.final1);
    LiveInput(s.final[5], R.WithSum(s, f), R.WithSum(s, h), k.final0, k.final1);
    hide R.ColorInput, Mul;
  }

  lemma {:induction false} LiveFinal(s: State, k: R.Constants, f: R.File, h: R.File)
    requires s.Valid() && LiveAgree(f, h)
    ensures R.FinalColor(s, k, f) == R.FinalColor(s, k, h)
  {
    LiveProduct(s, k, f, h);
    var g, g' := R.WithProduct(s, k, f), R.WithProduct(s, k, h);
    LiveInput(s.final[0], g, g', k.final0, k.final1);
    LiveInput(s.final[1], g, g', k.final0, k.final1);
    LiveInput(s.final[2], g, g', k.final0, k.final1);
    LiveInput(s.final[3], g, g', k.final0, k.final1);
    LiveInput(s.final[6], g, g', k.final0, k.final1);
    hide R.ColorInput, R.AlphaInput, R.WithProduct, LiveAgree, Mul, Add, Sub, Clamp3;
  }

  lemma {:induction false} AlphaDoes(s: State, env: Env, u: Uniforms)
    ensures var e := Exec(AlphaTestProgram(s), env, u);
      e.result == env.result
      && e.discarded == (env.discarded || (s.alphaTest && !R.Passes(u.test, env.result.a)))
  {
    AlphaPassesIff(u.test, env.result.a);
    if s.alphaTest { ExecNext(AlphaTestProgram(s), env, u, 0); }
    hide R.Passes, AlphaPasses;
  }

  /** For every state whose stages write to registers a title may write to, every register and
      constant value, and whatever the variables hold before they are set: running the emitted
      statements in order gives the colour of the NV2A's combiners, and discards the pixel just
      when the shader is the variant with the alpha test and the test rejects it. */
  lemma {:induction false} ShaderIsCombiners(s: State, start: R.File, p: R.Interpolants, u: Uniforms)
    requires s.Valid() && Legal(s) && p.Valid() && u.Valid()
    ensures var color := R.Pixel(s, u.constants, p);
      Run(ShaderOf(s), start, p, u)
      == if s.alphaTest && !R.Passes(u.test, color.a) then Discarded else Shaded(color)
  {
    var env := Env(start, false, map[], BLACK, false, p);
    var p0, p1, p2 := Prelude(s), StagesProgram(s, s.numStages) + FinalProgram(s), AlphaTestProgram(s);
    assert ShaderOf(s) == p0 + p1 + p2;
    hide ShaderOf, R.FinalColor, R.AfterStages, R.Start, R.Passes, LiveAgree;
    PreludeDoes(s, env, u);
    var e0 := Exec(p0, env, u);
    ColorDoes(s, u, e0);
    LiveStages(s, u.constants, R.Start(s, p), e0.file, s.numStages);
    LiveFinal(s, u.constants, R.AfterStages(s, u.constants, R.Start(s, p), s.numStages),
              R.AfterStages(s, u.constants, e0.file, s.numStages));
    ExecJoin(p0, p1, env, u);
    ExecJoin(p0 + p1, p2, env, u);
    AlphaDoes(s, Exec(p1, e0, u), u);
    hide Exec, Legal, Prelude, StagesProgram, FinalProgram, AlphaTestProgram;
  }

  /** The test can reject something exactly when it is said to. */
  lemma {:induction false} CanRejectIff(t: R.AlphaTest)
    ensures R.CanReject(t) <==> exists alpha :: !R.Passes(t, alpha)
  {
    if R.CanReject(t) {
      var alpha := if t.func == 3 || t.func == 4 || t.func == 1 then t.ref + 1.0
                   else if t.func == 7 || t.func == 5 then t.ref - 1.0 else t.ref;
      assert !R.Passes(t, alpha);
    }
  }

  lemma {:induction false} StagesIgnoreTest(s: State, b: bool, k: R.Constants, f: R.File, n: nat)
    requires s.Valid() && k.Valid() && n <= s.numStages
    ensures R.AfterStages(s.(alphaTest := b), k, f, n) == R.AfterStages(s, k, f, n)
  {
    hide R.Updated;
    hide R.RawResults;
    hide R.Mapped;
    if n > 0 { StagesIgnoreTest(s, b, k, f, n - 1); }
  }

  lemma {:induction false} PixelIgnoresTest(s: State, b: bool, k: R.Constants, p: R.Interpolants)
    requires s.Valid() && k.Valid() && p.Valid()
    ensures R.Start(s.(alphaTest := b), p) == R.Start(s, p)
    ensures R.Pixel(s.(alphaTest := b), k, p) == R.Pixel(s, k, p)
  {
    StagesIgnoreTest(s, b, k, R.Start(s, p), s.numStages);
    hide R.AfterStages;
    hide R.ColorInput;
    hide R.AlphaInput;
    hide Mul;
    hide Add;
    hide Sub;
    hide Clamp3;
  }

  /** And so leaving the test out, when it cannot reject, changes no pixel. */
  lemma {:induction false} VariantsAgree(s: State, start: R.File, p: R.Interpolants, u: Uniforms)
    requires s.Valid() && Legal(s) && p.Valid() && u.Valid() && !R.CanReject(u.test)
    ensures Run(ShaderOf(s.(alphaTest := true)), start, p, u) == Run(ShaderOf(s.(alphaTest := false)), start, p, u)
  {
    var color := R.Pixel(s, u.constants, p);
    assert R.Passes(u.test, color.a);
    PixelIgnoresTest(s, true, u.constants, p);
    PixelIgnoresTest(s, false, u.constants, p);
    ShaderIsCombiners(s.(alphaTest := true), start, p, u);
    ShaderIsCombiners(s.(alphaTest := false), start, p, u);
    hide Legal;
    hide R.Pixel;
    hide R.Start;
    hide R.Passes;
    hide Run;
    hide ShaderOf;
  }

  // ---- A destination that is no register ----

  const ZERO_INPUT: Input := Input(REG_ZERO, false, UnsignedIdentity)
  const ONE_INPUT: Input := Input(REG_ZERO, false, UnsignedInvert)
  const NO_OUTPUT: Output := Output(REG_ZERO, REG_ZERO, REG_ZERO, false, false, false, OutIdentity, false, false)

  /** One stage that writes the colour 1 to number 6, and a final combiner of zeros. */
  function ReservedState(): (s: State)
    ensures s.Valid()
  {
    var zeros := [ZERO_INPUT, ZERO_INPUT, ZERO_INPUT, ZERO_INPUT];
    var g := Stage([ONE_INPUT, ONE_INPUT, ZERO_INPUT, ZERO_INPUT], zeros, NO_OUTPUT.(abDst := 6), NO_OUTPUT);
    State(1, [g, g, g, g, g, g, g, g], zeros + [ZERO_INPUT, ZERO_INPUT, ZERO_INPUT],
          CountFlags(false, false, false, false), FinalFlags(false, false, false), true, false)
  }

  /** The final combiner, with every input reading the register of zeros. */
  lemma {:induction false} FinalOfZeros(f: R.File, k: R.Constants)
    requires f[REG_ZERO].rgb == Splat(0.0) || f[REG_ZERO].rgb == Splat(1.0)
    ensures R.FinalColor(ReservedState(), k, f).rgb == f[REG_ZERO].rgb
  {
    var s := ReservedState();
    var g := R.WithProduct(s, k, f);
    assert g[REG_ZERO] == f[REG_ZERO];
    assert R.ColorInput(ZERO_INPUT, g, k.final0, k.final1) == f[REG_ZERO].rgb;
  }

  lemma {:induction false} ProductOf(g: Stage, f: R.File, mux: bool, c0: Vec4, c1: Vec4)
    requires g.Valid() && !g.rgbOutput.abDot
    ensures R.RawResults(g, f, mux, c0, c1).ab == Mul(R.ColorInput(g.rgbInput[0], f, c0, c1), R.ColorInput(g.rgbInput[1], f, c0, c1))
  {
    hide R.ColorInput;
    hide R.AlphaInput;
    hide Mul;
  }

  lemma {:induction false} OneReads(f: R.File, c0: Vec4, c1: Vec4)
    requires f[REG_ZERO] == BLACK
    ensures R.ColorInput(ONE_INPUT, f, c0, c1) == Splat(1.0)
  {
  }

  lemma {:induction false} OneTimesOne()
    ensures Mul(Splat(1.0), Splat(1.0)) == Splat(1.0)
    ensures R.OutputColor(OutIdentity, Splat(1.0)) == Splat(1.0)
  {
    TimesConst(Splat(1.0), 1.0);
    ShiftValueMaps(OutIdentity, 1.0);
    hide Mul;
    hide R.OutputValue;
  }

  lemma {:induction false} MappedAb(g: Stage, r: R.Results)
    ensures R.Mapped(g, r).ab == R.OutputColor(g.rgbOutput.outputMap, r.ab)
  {
    hide R.OutputColor;
    hide R.OutputValue;
  }

  lemma {:induction false} ReservedProduct(g: Stage, f: R.File, mux: bool, c0: Vec4, c1: Vec4)
    requires g.Valid() && !g.rgbOutput.abDot && g.rgbOutput.outputMap == OutIdentity
    requires g.rgbInput[0] == ONE_INPUT && g.rgbInput[1] == ONE_INPUT && f[REG_ZERO] == BLACK
    ensures R.Mapped(g, R.RawResults(g, f, mux, c0, c1)).ab == Splat(1.0)
  {
    hide *;
    ProductOf(g, f, mux, c0, c1);
    OneReads(f, c0, c1);
    OneTimesOne();
    MappedAb(g, R.RawResults(g, f, mux, c0, c1));
  }

  lemma {:induction false} ReservedWrite(g: Stage, env: Env, u: Uniforms)
    requires g.rgbOutput == NO_OUTPUT.(abDst := 6) && g.alphaOutput == NO_OUTPUT && AbRgb in env.locals
    ensures var e := Exec(Writes(g), env, u);
      e.file[REG_ZERO].rgb == env.locals[AbRgb] && e.discarded == env.discarded
  {
    assert Writes(g) == [SetRgb(REG_ZERO, Var(AbRgb))];
    ExecNext(Writes(g), env, u, 0);
    assert Eval(Var(AbRgb), env, u) == env.locals[AbRgb];
  }

  lemma {:induction false} ReservedProgram(env: Env, u: Uniforms)
    ensures var s := ReservedState();
      var g := s.stages[0];
      var p1 := StageHead(s, 0, 0) + RgbReads(g, 0, 0, 4) + AlphaReads(g, 0, 0, 4) + Products(g) + Mappings(g);
      Exec(ShaderOf(s), env, u) == Exec(FinalProgram(s), Exec(Writes(g), Exec(p1, Exec(Prelude(s), env, u), u), u), u)
  {
    var s := ReservedState();
    var g := s.stages[0];
    var p1 := StageHead(s, 0, 0) + RgbReads(g, 0, 0, 4) + AlphaReads(g, 0, 0, 4) + Products(g) + Mappings(g);
    assert StagesProgram(s, 1) == p1 + Writes(g) by {
      assert StagesProgram(s, 0) == [];
    }
    assert AlphaTestProgram(s) == [];
    hide Prelude;
    assert ShaderOf(s) == Prelude(s) + (p1 + Writes(g)) + FinalProgram(s);
    ExecJoin(Prelude(s) + (p1 + Writes(g)), FinalProgram(s), env, u);
    ExecJoin(Prelude(s), p1 + Writes(g), env, u);
    ExecJoin(p1, Writes(g), Exec(Prelude(s), env, u), u);
  }

  lemma {:induction false} ReservedShader(env: Env, u: Uniforms)
    requires u.Valid() && env.inputs.Valid()
    ensures var e := Exec(ShaderOf(ReservedState()), env, u);
      e.result.rgb == Splat(1.0) && e.discarded == env.discarded
  {
    var s := ReservedState();
    var g := s.stages[0];
    assert g.rgbOutput == NO_OUTPUT.(abDst := 6) && g.alphaOutput == NO_OUTPUT && g.rgbInput[0] == g.rgbInput[1] == ONE_INPUT;
    PreludeDoes(s, env, u);
    var e0 := Exec(Prelude(s), env, u);
    assert e0.file[REG_ZERO] == BLACK by { assert R.Start(s, env.inputs)[REG_ZERO] == e0.file[REG_ZERO]; }
    hide ReservedState, Prelude, R.Start, LiveAgree;
    var p1 := StageHead(s, 0, 0) + RgbReads(g, 0, 0, 4) + AlphaReads(g, 0, 0, 4) + Products(g) + Mappings(g);
    ReservedProgram(env, u);
    StageComputes(s, g, 0, 0, e0.file, e0, u);
    ReservedProduct(g, e0.file, R.MuxTakesCd(s.count, e0.file[REG_R0].a), u.constants.c0[0], u.constants.c1[0]);
    hide Exec;
    hide Agrees;
    hide R.Mapped;
    hide R.RawResults;
    var e1 := Exec(p1, e0, u);
    ReservedWrite(g, e1, u);
    var e2 := Exec(Writes(g), e1, u);
    FinalDoes(s, e2.file, e2, u);
    FinalOfZeros(e2.file, u.constants);
  }

  lemma {:induction false} ReservedPixel(p: R.Interpolants, k: R.Constants)
    requires p.Valid() && k.Valid()
    ensures R.Pixel(ReservedState(), k, p).rgb == Splat(0.0)
  {
    var s, f := ReservedState(), R.Start(ReservedState(), p);
    var r := R.StageResults(s, s.stages[0], f, k.c0[0], k.c1[0]);
    assert R.AfterStages(s, k, f, 0) == f;
    assert R.AfterStages(s, k, f, 1) == R.Updated(s.stages[0], r, f);
    hide R.StageResults;
    hide R.Updated;
    FinalOfZeros(R.AfterStages(s, k, f, 1), k);
    hide R.FinalColor;
  }

  /** Numbers 6 and 7 are printed as the register of zeros, so a shader that writes to one of
      them makes zero read as something else: here the combiners give black, the shader white. */
  lemma {:induction false} ReservedDestinationDiffers(start: R.File, p: R.Interpolants, u: Uniforms)
    requires p.Valid() && u.Valid()
    ensures var s := ReservedState();
      && R.Pixel(s, u.constants, p).rgb == Splat(0.0)
      && Run(ShaderOf(s), start, p, u).Shaded?
      && Run(ShaderOf(s), start, p, u).color.rgb == Splat(1.0)
  {
    ReservedPixel(p, u.constants);
    ReservedShader(Env(start, false, map[], BLACK, false, p), u);
    hide R.Pixel;
    hide Exec;
    hide ShaderOf;
  }
}
