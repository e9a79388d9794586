/** Drawing with the combiners: the words a title sets, the dirty flag, the shader cache and the
    uploaded constants together give each draw the NV2A's pixels. */
module CombinerDraw {
  import opened Common
  import opened Colors
  import opened CombinerState
  import opened CombinerParse
  import opened CombinerHlsl
  import opened CombinerLaws
  import opened CombinerCorrect
  import opened Hlsl
  import opened ShaderCache
  import R = RegisterCombiners

  const D3DRS_ALPHATESTENABLE: nat := 15
  const D3DRS_ALPHAREF: nat := 24
  const D3DRS_ALPHAFUNC: nat := 25

  /** A colour word: alpha, red, green and blue from the top byte down. */
  function ColorOf(w: Dword): Vec4 {
    Vec4(Vec3((w / 0x1_0000 % 0x100) as real / 255.0, (w / 0x100 % 0x100) as real / 255.0, (w % 0x100) as real / 255.0),
         (w / 0x100_0000) as real / 255.0)
  }

  function ParseConstants(rs: RenderStates): (k: R.Constants)
    ensures k.Valid()
  {
    R.Constants(seq(NV2A_MAX_COMBINER_STAGES, i requires 0 <= i < NV2A_MAX_COMBINER_STAGES => ColorOf(rs[D3DRS_PSCONSTANT0_0 + i])),
                seq(NV2A_MAX_COMBINER_STAGES, i requires 0 <= i < NV2A_MAX_COMBINER_STAGES => ColorOf(rs[D3DRS_PSCONSTANT1_0 + i])),
                ColorOf(rs[D3DRS_PSFINALCOMBINERCONSTANT0]), ColorOf(rs[D3DRS_PSFINALCOMBINERCONSTANT1]))
  }

  function TestOf(rs: RenderStates): R.AlphaTest {
    R.AlphaTest(rs[D3DRS_ALPHATESTENABLE] != 0, rs[D3DRS_ALPHAFUNC], rs[D3DRS_ALPHAREF] as real / 255.0)
  }

  /** A colour word from its bytes, and the colour they give. */
  function ColorWord(a: Byte, r: Byte, g: Byte, b: Byte): Dword {
    0x100_0000 * a + 0x1_0000 * r + 0x100 * g + b
  }

  function ByteColor(a: Byte, r: Byte, g: Byte, b: Byte): Vec4 {
    Vec4(Vec3(r as real / 255.0, g as real / 255.0, b as real / 255.0), a as real / 255.0)
  }

  lemma {:induction false} ColorRoundTrip(a: Byte, r: Byte, g: Byte, b: Byte)
    ensures ColorOf(ColorWord(a, r, g, b)) == ByteColor(a, r, g, b) == InUnit(ByteColor(a, r, g, b))
  {
    FourBytes(a, r, g, b);
    ByteInUnit(r);
    ByteInUnit(g);
    ByteInUnit(b);
  }

  lemma {:induction false} ByteInUnit(x: Byte)
    ensures 0.0 <= x as real / 255.0 <= 1.0
  {
  }

  /** Every stage has its own two constants, and the final combiner two more; the alpha test is
      that of the render states. */
  lemma {:induction false} UniformsUploaded(rs: RenderStates, i: nat)
    requires i < 8
    ensures ParseConstants(rs).c0[i] == ColorOf(rs[235 + i]) && ParseConstants(rs).c1[i] == ColorOf(rs[243 + i])
    ensures ParseConstants(rs).final0 == ColorOf(rs[198]) && ParseConstants(rs).final1 == ColorOf(rs[199])
    ensures TestOf(rs).enable <==> rs[15] != 0
    ensures TestOf(rs).func == rs[25] && TestOf(rs).ref * 255.0 == rs[24] as real
  {
    hide ColorOf;
  }

  /** The colour words end where they show: in a state that writes nothing and passes the final
      combiner's C0 or C1 on, a pixel has the bytes of its word. */
  lemma {:induction false} FinalConstantShows(token: Dword, rs: RenderStates, p: R.Interpolants, reg: Register, a: Byte,
        r: Byte, g: Byte, b: Byte)
    requires p.Valid() && Shows(ParseState(token, rs), reg)
    requires (reg == REG_C0 && rs[198] == ColorWord(a, r, g, b)) || (reg == REG_C1 && rs[199] == ColorWord(a, r, g, b))
    ensures R.Pixel(ParseState(token, rs), ParseConstants(rs), p) == ByteColor(a, r, g, b)
  {
    hide R.Pixel, ParseState, ParseConstants, Shows, ColorOf, ColorWord, ByteColor, InUnit;
    RegistersShow(ParseState(token, rs), ParseConstants(rs), p, reg);
    UniformsUploaded(rs, 0);
    ColorRoundTrip(a, r, g, b);
  }

  lemma {:induction false} ConstantsReadRange(rs: RenderStates, rs': RenderStates)
    requires forall i {:trigger rs[i]} {:trigger rs'[i]} :: 0 <= i < MAX_RENDER_STATES && InRange(i) ==> rs[i] == rs'[i]
    ensures ParseConstants(rs) == ParseConstants(rs')
  {
    hide ColorOf;
    var k, k' := ParseConstants(rs), ParseConstants(rs');
    forall i | 0 <= i < NV2A_MAX_COMBINER_STAGES ensures k.c0[i] == k'.c0[i] && k.c1[i] == k'.c1[i] {
      assert rs[D3DRS_PSCONSTANT0_0 + i] == rs'[D3DRS_PSCONSTANT0_0 + i];
      assert rs[D3DRS_PSCONSTANT1_0 + i] == rs'[D3DRS_PSCONSTANT1_0 + i];
    }
    assert k.c0 == k'.c0 && k.c1 == k'.c1;
  }

  /** The state a cached shader was generated from, and its program. */
  function StateOf(key: Key<Parsed>): State {
    key.parsed.state.(alphaTest := key.alphaTest)
  }

  function ProgramOf(key: Key<Parsed>): Program
    requires StateOf(key).Valid()
  {
    ShaderOf(StateOf(key))
  }

  /** The pixel the NV2A draws: the combiners' colour, unless the alpha test rejects it. */
  function Drawn(s: State, p: R.Interpolants, u: Uniforms): Outcome
    requires s.Valid() && p.Valid() && u.constants.Valid()
  {
    var color := R.Pixel(s, u.constants, p);
    if R.Passes(u.test, color.a) then Shaded(color) else Discarded
  }

  /** A program draws state `s` with the uploaded constants, whatever the pixel and whatever its
      variables held before. */
  ghost predicate Draws(program: Program, s: State, u: Uniforms)
    requires s.Valid() && u.Valid()
  {
    forall start: R.File, p: R.Interpolants {:trigger Run(program, start, p, u)} ::
      p.Valid() ==> Run(program, start, p, u) == Drawn(s, p, u)
  }

  lemma {:induction false} VariantDrawsPixel(s: State, start: R.File, p: R.Interpolants, u: Uniforms)
    requires s.Valid() && Legal(s) && p.Valid() && u.Valid()
    ensures Run(ShaderOf(s.(alphaTest := R.CanReject(u.test))), start, p, u) == Drawn(s, p, u)
  {
    var t := s.(alphaTest := R.CanReject(u.test));
    PixelIgnoresTest(s, t.alphaTest, u.constants, p);
    ShaderIsCombiners(t, start, p, u);
    CanRejectIff(u.test);
    hide R.Pixel, R.Start, R.Passes, R.CanReject, Run, ShaderOf, Legal;
  }

  /** The variant chosen by what the test can reject draws the state. */
  lemma {:induction false} VariantDraws(s: State, u: Uniforms)
    requires s.Valid() && Legal(s) && u.Valid()
    ensures Draws(ShaderOf(s.(alphaTest := R.CanReject(u.test))), s, u)
  {
    hide Run, ShaderOf, Drawn, R.Start, R.CanReject, Legal;
    var program := ShaderOf(s.(alphaTest := R.CanReject(u.test)));
    forall start: R.File, p: R.Interpolants {:trigger Run(program, start, p, u)} | p.Valid()
      ensures Run(program, start, p, u) == Drawn(s, p, u)
    {
      VariantDrawsPixel(s, start, p, u);
    }
  }

  lemma {:induction false} KeyDraws(parsed: Parsed, shadow: seq<bool>, u: Uniforms)
    requires parsed.state.Valid() && u.Valid()
    ensures var key := Key(parsed, shadow, R.CanReject(u.test));
      StateOf(key).Valid() && (Legal(parsed.state) ==> Draws(ProgramOf(key), parsed.state, u))
  {
    hide Draws, Legal, ShaderOf;
    if Legal(parsed.state) { VariantDraws(parsed.state, u); }
  }

  /** The device's render states and the combiners' globals. */
  class Combiners {
    const renderStates: array<Dword>
    var token: Dword
    const cache: Cache<Parsed>
    /** The constants as last parsed, which are no part of the key. */
    var constants: R.Constants

    /** While the state is not marked dirty it is what the words say. */
    ghost predicate Valid()
      reads this, renderStates, cache, cache.entries
    {
      && renderStates.Length == MAX_RENDER_STATES && cache.Valid()
      && (!cache.dirty ==> cache.current.parsed == Parse(token, renderStates[..]) && constants == ParseConstants(renderStates[..]))
    }

    constructor (hash: Key<Parsed> -> nat, start: RenderStates)
      ensures Valid() && token == 0 && renderStates[..] == start && Complete(cache.entries[..])
      ensures fresh(renderStates) && fresh(cache) && fresh(cache.entries)
    {
      renderStates := new Dword[MAX_RENDER_STATES](i requires 0 <= i < MAX_RENDER_STATES => start[i]);
      token := 0;
      cache := new Cache(hash, Key(Parse(0, start), [false, false, false, false], false));
      constants := ParseConstants(start);
      new;
      assert renderStates[..] == start;
    }

    method SetRenderState(state: Dword, value: Dword)
      requires Valid()
      modifies renderStates, cache`dirty
      ensures Valid()
      ensures renderStates[..] == if state < MAX_RENDER_STATES then old(renderStates[..])[state := value] else old(renderStates[..])
    {
      ghost var before: RenderStates := renderStates[..];
      if state < MAX_RENDER_STATES {
        renderStates[state] := value;
      }
      if D3DRS_PSFINALCOMBINERCONSTANT0 <= state <= D3DRS_PSINPUTTEXTURE {
        cache.MarkDirty();
      } else {
        ParseReadsRange(token, before, renderStates[..]);
        ConstantsReadRange(before, renderStates[..]);
      }
    }

    method SetPixelShader(token: Dword)
      requires Valid()
      modifies `token, cache`dirty
      ensures Valid() && this.token == token
    {
      if token != this.token {
        this.token := token;
        cache.MarkDirty();
      }
    }

    /** A draw: the shader bound, if there is one, draws what the token and the words now say. */
    method PrepareDraw(shadow: seq<bool>, ok: bool) returns (shader: Option<nat>)
      requires Valid() && |shadow| == 4
      modifies this`constants, cache, cache.entries
      ensures Valid()
      ensures token == 0 ==> shader.None?
      ensures token != 0 && ok && old(Complete(cache.entries[..])) ==> shader.Some? && Complete(cache.entries[..])
      ensures token != 0 ==> constants == ParseConstants(renderStates[..])
      ensures shader.Some? ==>
        var s, u := ParseState(token, renderStates[..]), Uniforms(constants, TestOf(renderStates[..]));
        shader.value in cache.made && StateOf(cache.made[shader.value]).Valid()
        && (Legal(s) ==> Draws(ProgramOf(cache.made[shader.value]), s, u))
    {
      if token == 0 {
        return None;
      }
      hide Cache.Valid, StateOf, ProgramOf, Draws, Legal, ParseState, ParseConstants, TestOf, R.CanReject, Complete;
      hide Uniforms.Valid, State.Valid;
      var parsed := Refresh();
      var test := TestOf(renderStates[..]);
      KeyDraws(parsed, shadow, Uniforms(constants, test));
      ghost var slot;
      shader, slot := cache.PrepareDraw(parsed, shadow, R.CanReject(test), ok);
    }

    /** The state and the constants, parsed again if they may have changed. */
    method Refresh() returns (parsed: Parsed)
      requires Valid()
      modifies `constants
      ensures parsed == Parse(token, renderStates[..]) && constants == ParseConstants(renderStates[..])
      ensures !cache.dirty ==> cache.current.parsed == parsed
    {
      parsed := cache.current.parsed;
      if cache.dirty {
        parsed := ParseToken(token, renderStates[..]);
        constants := ParseConstants(renderStates[..]);
      }
    }
  }
}
