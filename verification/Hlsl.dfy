/** The statements of a generated pixel shader, in the order they are emitted, and what
    running them does. A scalar is kept as three equal components. */
module Hlsl {
  import opened Colors
  import opened CombinerState
  import R = RegisterCombiners

  datatype Local =
    | InRgb(k: nat) | InAlpha(k: nat)
    | AbRgb | CdRgb | SumRgb | AbAlpha | CdAlpha | SumAlpha
    | FinalIn(k: nat)

  /** `r_...` variables go by the number of the register they hold. */
  datatype Source = Reg(n: Register) | C0(stage: nat) | C1(stage: nat) | FinalC0 | FinalC1

  /** What the rasteriser and the texture stages hand to the shader. */
  datatype PixelInput = FogInput | Color0 | Color1 | Texture(i: nat)

  datatype Swizzle = Rgb | Aaa | A | B

  datatype Expr =
    | Read(source: Source, swizzle: Swizzle)
    | Var(local: Local)
    | Const(c: real)
    | Plus(x: Expr, y: Expr)
    | Minus(x: Expr, y: Expr)
    | Times(x: Expr, y: Expr)
    | Neg(x: Expr)
    | Max0(x: Expr)
    | Saturate(x: Expr)
    | ClampOne(x: Expr)
    | DotXxx(x: Expr, y: Expr)
    | Blue(x: Expr)
    | MuxCd(x: Expr, y: Expr)

  datatype Stmt =
    | Load(reg: Register, source: Source)       // a whole register
    | Fetch(reg: Register, input: PixelInput)
    | SetMux(msb: bool)
    | Let(local: Local, e: Expr)
    | SetRgb(reg: Register, e: Expr)
    | SetAlpha(reg: Register, e: Expr)
    | ResultRgb(e: Expr)
    | ResultAlpha(e: Expr)
    | Clear(reg: Register)
    | TestAlpha

  type Program = seq<Stmt>

  /** A pixel's variables while the shader runs, and its inputs. */
  datatype Env = Env(file: R.File, mux: bool, locals: map<Local, Vec3>, result: Vec4, discarded: bool,
                     inputs: R.Interpolants)

  /** The shader's constant buffer. */
  datatype Uniforms = Uniforms(constants: R.Constants, test: R.AlphaTest) {
    ghost predicate Valid() { constants.Valid() }
  }

  function Whole(s: Source, f: R.File, u: Uniforms): Vec4 {
    match s
    case Reg(n) => f[n]
    case C0(i) => if i < |u.constants.c0| then u.constants.c0[i] else BLACK
    case C1(i) => if i < |u.constants.c1| then u.constants.c1[i] else BLACK
    case FinalC0 => u.constants.final0
    case FinalC1 => u.constants.final1
  }

  function Fetched(i: PixelInput, p: R.Interpolants): Vec4 {
    match i
    case FogInput => p.fog
    case Color0 => p.v0
    case Color1 => p.v1
    case Texture(n) => if n < |p.textures| then p.textures[n] else BLACK
  }

  function Swizzled(v: Vec4, w: Swizzle): Vec3 {
    match w
    case Rgb => v.rgb
    case Aaa => Splat(v.a)
    case A => Splat(v.a)
    case B => Splat(v.rgb.b)
  }

  function Eval(e: Expr, env: Env, u: Uniforms): Vec3 {
    match e
    case Read(s, w) => Swizzled(Whole(s, env.file, u), w)
    case Var(l) => if l in env.locals then env.locals[l] else Splat(0.0)
    case Const(c) => Splat(c)
    case Plus(x, y) => Add(Eval(x, env, u), Eval(y, env, u))
    case Minus(x, y) => Sub(Eval(x, env, u), Eval(y, env, u))
    case Times(x, y) => Mul(Eval(x, env, u), Eval(y, env, u))
    case Neg(x) => Sub(Splat(0.0), Eval(x, env, u))
    case Max0(x) => var v := Eval(x, env, u); Vec3(Max(v.r, 0.0), Max(v.g, 0.0), Max(v.b, 0.0))
    case Saturate(x) => Clamp3(Eval(x, env, u), 0.0, 1.0)
    case ClampOne(x) => Clamp3(Eval(x, env, u), -1.0, 1.0)
    case DotXxx(x, y) => Splat(Dot(Eval(x, env, u), Eval(y, env, u)))
    case Blue(x) => Splat(Eval(x, env, u).b)
    case MuxCd(x, y) => if env.mux then Eval(x, env, u) else Eval(y, env, u)
  }

  /** The shader's own alpha test, branch by branch. */
  predicate AlphaPasses(t: R.AlphaTest, alpha: real) {
    if !t.enable then true
    else if t.func == 1 then false
    else if t.func == 2 then alpha < t.ref
    else if t.func == 3 then alpha == t.ref
    else if t.func == 4 then alpha <= t.ref
    else if t.func == 5 then alpha > t.ref
    else if t.func == 6 then alpha != t.ref
    else if t.func == 7 then alpha >= t.ref
    else true
  }

  function Step(s: Stmt, env: Env, u: Uniforms): Env {
    match s
    case Load(r, source) => env.(file := env.file[r := Whole(source, env.file, u)])
    case Fetch(r, input) => env.(file := env.file[r := Fetched(input, env.inputs)])
    case SetMux(msb) =>
      env.(mux := if msb then env.file[REG_R0].a >= 0.5
                  else (Clamp(env.file[REG_R0].a, 0.0, 1.0) * 255.0 + 0.5).Floor % 2 != 0)
    case Let(l, e) => env.(locals := env.locals[l := Eval(e, env, u)])
    case SetRgb(r, e) => env.(file := env.file[r := env.file[r].(rgb := Eval(e, env, u))])
    case SetAlpha(r, e) => env.(file := env.file[r := env.file[r].(a := Eval(e, env, u).r)])
    case ResultRgb(e) => env.(result := env.result.(rgb := Eval(e, env, u)))
    case ResultAlpha(e) => env.(result := env.result.(a := Eval(e, env, u).r))
    case Clear(r) => env.(file := env.file[r := BLACK])
    case TestAlpha => if AlphaPasses(u.test, env.result.a) then env else env.(discarded := true)
  }

  /** The first `n` statements. */
  function ExecFirst(p: Program, env: Env, u: Uniforms, n: nat): Env
    requires n <= |p|
  {
    if n == 0 then env else Step(p[n - 1], ExecFirst(p, env, u, n - 1), u)
  }

  function Exec(p: Program, env: Env, u: Uniforms): Env {
    ExecFirst(p, env, u, |p|)
  }

  lemma {:induction false} ExecPrefix(p: Program, q: Program, env: Env, u: Uniforms, n: nat)
    requires n <= |p|
    ensures ExecFirst(p + q, env, u, n) == ExecFirst(p, env, u, n)
  {
    if n > 0 { ExecPrefix(p, q, env, u, n - 1); }
  }

  lemma {:induction false} ExecSuffix(p: Program, q: Program, env: Env, u: Uniforms, n: nat)
    requires n <= |q|
    ensures ExecFirst(p + q, env, u, |p| + n) == ExecFirst(q, Exec(p, env, u), u, n)
  {
    if n == 0 {
      ExecPrefix(p, q, env, u, |p|);
    } else {
      ExecSuffix(p, q, env, u, n - 1);
      assert (p + q)[|p| + n - 1] == q[n - 1];
    }
  }

  /** One program after another. */
  lemma {:induction false} ExecJoin(p: Program, q: Program, env: Env, u: Uniforms)
    ensures Exec(p + q, env, u) == Exec(q, Exec(p, env, u), u)
  {
    ExecSuffix(p, q, env, u, |q|);
  }

  lemma {:induction false} ExecOne(p: Program, s: Stmt, env: Env, u: Uniforms)
    ensures Exec(p + [s], env, u) == Step(s, Exec(p, env, u), u)
  {
    ExecPrefix(p, [s], env, u, |p|);
    assert (p + [s])[|p|] == s;
  }

  /** The pixel shader as a whole: what comes out unless the pixel is discarded. */
  datatype Outcome = Discarded | Shaded(color: Vec4)

  /** A shader run on a pixel; `start` is whatever the variables hold before. */
  function Run(p: Program, start: R.File, inputs: R.Interpolants, u: Uniforms): Outcome {
    var env := Exec(p, Env(start, false, map[], BLACK, false, inputs), u);
    if env.discarded then Discarded else Shaded(env.result)
  }
}
