/** Parsing a pixel shader's token and the device's render states into the combiners' state. */
module CombinerParse {
  import opened WholeNumbers
  import opened Common
  import opened CombinerState

  const MAX_RENDER_STATES: nat := 256

  const D3DRS_PSFINALCOMBINERCONSTANT0: nat := 198
  const D3DRS_PSFINALCOMBINERCONSTANT1: nat := 199
  const D3DRS_PSALPHAINPUTS0: nat := 200
  const D3DRS_PSFINALCOMBINERINPUTSABCD: nat := 208
  const D3DRS_PSFINALCOMBINERINPUTSEFG: nat := 209
  const D3DRS_PSRGBINPUTS0: nat := 210
  const D3DRS_PSRGBOUTPUTS0: nat := 218
  const D3DRS_PSALPHAOUTPUTS0: nat := 226
  const D3DRS_PSCOMBINERCOUNT: nat := 234
  const D3DRS_PSCONSTANT0_0: nat := 235
  const D3DRS_PSCONSTANT1_0: nat := 243
  const D3DRS_PSTEXTUREMODES: nat := 251
  const D3DRS_PSDOTMAPPING: nat := 252
  const D3DRS_PSINPUTTEXTURE: nat := 253

  const NV2A_TEXMODE_2D: nat := 0
  const NV2A_TEXMODE_3D: nat := 1
  const NV2A_TEXMODE_CUBEMAP: nat := 2
  const NV2A_TEXMODE_NONE: nat := 3
  const XTM_NONE: nat := 0
  const XTM_LAST: nat := 0x12

  type RenderStates = rs: seq<Dword> | |rs| == 256 witness Repeat(256, 0)

  /** What a title's own texture modes say, where they were given. */
  datatype XboxTextures = XboxTextures(modes: seq<nat>, dotMaps: seq<nat>, inputs: seq<nat>)

  /** What each texture stage samples, and how. */
  datatype Textures = Textures(samplers: seq<nat>, xbox: Option<XboxTextures>, flags: nat)

  /** Everything parsed that decides a shader. */
  datatype Parsed = Parsed(state: State, textures: Textures)

  // ---- Texture modes ----

  function Nibbles(w: nat): (r: seq<nat>)
    ensures |r| == 4
  {
    [w % 16, w / 0x10 % 16, w / 0x100 % 16, w / 0x1000 % 16]
  }

  /** What a stage in one of the Xbox's modes samples. */
  function SamplerOf(mode: nat): nat {
    match mode
    case 0x01 | 0x06 | 0x07 | 0x09 | 0x0F | 0x10 => NV2A_TEXMODE_2D
    case 0x02 | 0x0D => NV2A_TEXMODE_3D
    case 0x03 | 0x0B | 0x0C | 0x0E => NV2A_TEXMODE_CUBEMAP
    case _ => NV2A_TEXMODE_NONE
  }

  function XboxMode(w: nat): nat {
    if w % 0x20 <= XTM_LAST then w % 0x20 else XTM_NONE
  }

  function XboxModes(w: Dword): (r: seq<nat>)
    ensures |r| == 4
  {
    [XboxMode(w), XboxMode(w / 0x20), XboxMode(w / 0x400), XboxMode(w / 0x8000)]
  }

  /** Stages 2 and 3 read an earlier stage, stage 0 if the word names a later one. */
  function InputOf(w: nat, stage: nat): nat {
    if w % 16 >= stage then 0 else w % 16
  }

  function ParseXboxTextures(rs: RenderStates): (x: XboxTextures)
    ensures |x.modes| == 4
  {
    var dm, it := rs[D3DRS_PSDOTMAPPING], rs[D3DRS_PSINPUTTEXTURE];
    XboxTextures(XboxModes(rs[D3DRS_PSTEXTUREMODES]), [0, dm % 16, dm / 0x10 % 16, dm / 0x100 % 16],
                 [0, 0, InputOf(it / 0x1_0000, 2), InputOf(it / 0x10_0000, 3)])
  }

  /** The token's modes if it has any, else those of the render state. */
  function ParseTextures(token: Dword, rs: RenderStates): (t: Textures)
    ensures |t.samplers| == 4 && (t.xbox.Some? ==> |t.xbox.value.modes| == 4)
  {
    var flags, tm := token / 0x100_0000, rs[D3DRS_PSTEXTUREMODES];
    if Nibbles(token / 0x100) != [0, 0, 0, 0] then Textures(Nibbles(token / 0x100), None, flags)
    else if tm < 0x8000_0000 then Textures(Nibbles(tm), None, flags)
    else
      var x := ParseXboxTextures(rs);
      Textures([SamplerOf(x.modes[0]), SamplerOf(x.modes[1]), SamplerOf(x.modes[2]), SamplerOf(x.modes[3])], Some(x), flags)
  }

  predicate SamplesFirst(t: Textures)
    requires |t.samplers| == 4 && (t.xbox.Some? ==> |t.xbox.value.modes| == 4)
  {
    if t.xbox.Some? then t.xbox.value.modes[0] != XTM_NONE else t.samplers[0] != NV2A_TEXMODE_NONE
  }

  // ---- The whole state ----

  function ParseStage(rs: RenderStates, i: nat): (g: Stage)
    requires i < NV2A_MAX_COMBINER_STAGES
    ensures g.Valid()
  {
    Stage(ParseFourInputs(rs[D3DRS_PSRGBINPUTS0 + i]), ParseFourInputs(rs[D3DRS_PSALPHAINPUTS0 + i]),
          ParseOutput(rs[D3DRS_PSRGBOUTPUTS0 + i]), ParseOutput(rs[D3DRS_PSALPHAOUTPUTS0 + i]))
  }

  function ParseStages(rs: RenderStates): (r: seq<Stage>)
    ensures |r| == NV2A_MAX_COMBINER_STAGES && forall i {:trigger r[i]} :: 0 <= i < |r| ==> r[i] == ParseStage(rs, i)
  {
    seq(NV2A_MAX_COMBINER_STAGES, i requires 0 <= i < NV2A_MAX_COMBINER_STAGES => ParseStage(rs, i))
  }

  function ParseState(token: Dword, rs: RenderStates): (s: State)
    ensures s.Valid()
  {
    var final := ParseFinal(rs[D3DRS_PSFINALCOMBINERINPUTSABCD], rs[D3DRS_PSFINALCOMBINERINPUTSEFG]);
    State(ParseNumStages(token), ParseStages(rs), final.0, ParseCountFlags(rs[D3DRS_PSCOMBINERCOUNT]), final.1,
          SamplesFirst(ParseTextures(token, rs)), false)
  }

  function Parse(token: Dword, rs: RenderStates): Parsed {
    Parsed(ParseState(token, rs), ParseTextures(token, rs))
  }

  /** One range of render states is all that is read. */
  predicate InRange(state: nat) {
    D3DRS_PSFINALCOMBINERCONSTANT0 <= state <= D3DRS_PSINPUTTEXTURE
  }

  lemma {:induction false} ParseReadsRange(token: Dword, rs: RenderStates, rs': RenderStates)
    requires forall i {:trigger rs[i]} {:trigger rs'[i]} :: 0 <= i < MAX_RENDER_STATES && InRange(i) ==> rs[i] == rs'[i]
    ensures Parse(token, rs) == Parse(token, rs')
  {
    hide ParseFourInputs, ParseOutput, ParseFinal, ParseCountFlags, ParseNumStages, Nibbles, XboxModes, InputOf, SamplerOf;
    assert ParseTextures(token, rs) == ParseTextures(token, rs');
    assert ParseStages(rs) == ParseStages(rs') by {
      forall i | 0 <= i < NV2A_MAX_COMBINER_STAGES ensures ParseStages(rs)[i] == ParseStages(rs')[i] {
        assert rs[D3DRS_PSRGBINPUTS0 + i] == rs'[D3DRS_PSRGBINPUTS0 + i];
        assert rs[D3DRS_PSALPHAINPUTS0 + i] == rs'[D3DRS_PSALPHAINPUTS0 + i];
        assert rs[D3DRS_PSRGBOUTPUTS0 + i] == rs'[D3DRS_PSRGBOUTPUTS0 + i];
        assert rs[D3DRS_PSALPHAOUTPUTS0 + i] == rs'[D3DRS_PSALPHAOUTPUTS0 + i];
      }
    }
  }

  // ---- The words a title sets for a state ----

  function PackCount(c: CountFlags, numStages: nat): nat {
    if !c.known then 0
    else numStages + 0x100 * Flag(c.muxMsb) + 0x1000 * Flag(c.uniqueC0) + 0x1_0000 * Flag(c.uniqueC1)
  }

  /** The word of three bytes and three flags. */
  function EfgWord(a: Byte, b: Byte, c: Byte, x: nat, y: nat, z: nat): nat {
    0x100_0000 * a + 0x1_0000 * b + 0x100 * c + 0x80 * x + 0x40 * y + 0x20 * z
  }

  function PackEfg(e: Input, f: Input, g: Input, flags: FinalFlags): nat {
    EfgWord(PackInput(e), PackInput(f), PackInput(g), Flag(flags.clampSum), Flag(flags.complementV1), Flag(flags.complementR0))
  }

  ghost predicate PacksStage(rs: RenderStates, i: nat, g: Stage)
    requires i < NV2A_MAX_COMBINER_STAGES && g.Valid()
  {
    && rs[D3DRS_PSRGBINPUTS0 + i] == PackFourInputs(g.rgbInput[0], g.rgbInput[1], g.rgbInput[2], g.rgbInput[3])
    && rs[D3DRS_PSALPHAINPUTS0 + i] == PackFourInputs(g.alphaInput[0], g.alphaInput[1], g.alphaInput[2], g.alphaInput[3])
    && rs[D3DRS_PSRGBOUTPUTS0 + i] == PackOutput(g.rgbOutput) && rs[D3DRS_PSALPHAOUTPUTS0 + i] == PackOutput(g.alphaOutput)
  }

  /** The token and the render states are those a title sets for state `s`. */
  ghost predicate Packs(token: Dword, rs: RenderStates, s: State)
    requires s.Valid()
  {
    && token % 16 == s.numStages && SamplesFirst(ParseTextures(token, rs)) == s.texture0
    && (forall i {:trigger s.stages[i]} :: 0 <= i < NV2A_MAX_COMBINER_STAGES ==> PacksStage(rs, i, s.stages[i]))
    && rs[D3DRS_PSCOMBINERCOUNT] == PackCount(s.count, s.numStages)
    && rs[D3DRS_PSFINALCOMBINERINPUTSABCD] == PackFourInputs(s.final[0], s.final[1], s.final[2], s.final[3])
    && rs[D3DRS_PSFINALCOMBINERINPUTSEFG] == PackEfg(s.final[4], s.final[5], s.final[6], s.finalFlags)
  }

  lemma {:induction false} StageRoundTrip(rs: RenderStates, i: nat, g: Stage)
    requires i < NV2A_MAX_COMBINER_STAGES && g.Valid() && PacksStage(rs, i, g)
    ensures ParseStage(rs, i) == g
  {
    FourInputsRoundTrip(g.rgbInput[0], g.rgbInput[1], g.rgbInput[2], g.rgbInput[3]);
    FourInputsRoundTrip(g.alphaInput[0], g.alphaInput[1], g.alphaInput[2], g.alphaInput[3]);
    OutputRoundTrip(g.rgbOutput);
    OutputRoundTrip(g.alphaOutput);
    hide ParseFourInputs, ParseOutput, PackFourInputs, PackOutput;
  }

  lemma {:induction false} CountRoundTrip(c: CountFlags, n: nat)
    requires 1 <= n <= NV2A_MAX_COMBINER_STAGES
    ensures ParseCountFlags(PackCount(c, n)) == if c.known then c else CountFlags(false, false, false, false)
  {
    if c.known {
      var m, u, v := Flag(c.muxMsb), Flag(c.uniqueC0), Flag(c.uniqueC1);
      Parts(m + 0x10 * u + 0x100 * v, 0x100, n);
      Parts(u + 0x10 * v, 2, m);
      Parts(u + 0x10 * v, 0x1000, n + 0x100 * m);
      Parts(v, 0x1_0000, n + 0x100 * m + 0x1000 * u);
    }
  }

  /** The three flags below three bytes. */
  lemma {:induction false} EfgBits(high: nat, x: nat, y: nat, z: nat)
    requires x < 2 && y < 2 && z < 2
    ensures var w := 0x100 * high + 0x80 * x + 0x40 * y + 0x20 * z;
      Bit(w, 0x80) == (x == 1) && Bit(w, 0x40) == (y == 1) && Bit(w, 0x20) == (z == 1)
  {
    Parts(2 * high + x, 0x80, 0x40 * y + 0x20 * z);
    Parts(high, 2, x);
    Parts(4 * high + 2 * x + y, 0x40, 0x20 * z);
    Parts(2 * high + x, 2, y);
    Parts(8 * high + 4 * x + 2 * y + z, 0x20, 0);
    Parts(4 * high + 2 * x + y, 2, z);
  }

  lemma {:induction false} ThreeInputs(a: Byte, b: Byte, c: Byte, d: Byte)
    ensures var w := 0x100_0000 * a + 0x1_0000 * b + 0x100 * c + d;
      w < 0x1_0000_0000 && ParseFourInputs(w)[..3] == [ParseCombinerInput(a), ParseCombinerInput(b), ParseCombinerInput(c)]
  {
    FourBytes(a, b, c, d);
    hide ParseCombinerInput;
  }

  lemma {:induction false} EfgWordReads(a: Byte, b: Byte, c: Byte, x: nat, y: nat, z: nat)
    requires x < 2 && y < 2 && z < 2
    ensures var w := EfgWord(a, b, c, x, y, z);
      && w < 0x1_0000_0000 && ParseFourInputs(w)[..3] == [ParseCombinerInput(a), ParseCombinerInput(b), ParseCombinerInput(c)]
      && Bit(w, 0x80) == (x == 1) && Bit(w, 0x40) == (y == 1) && Bit(w, 0x20) == (z == 1)
  {
    hide ParseCombinerInput, ParseFourInputs, Bit;
    EfgBits(0x1_0000 * a + 0x100 * b + c, x, y, z);
    ThreeInputs(a, b, c, 0x80 * x + 0x40 * y + 0x20 * z);
  }

  lemma {:induction false} EfgRoundTrip(e: Input, f: Input, g: Input, flags: FinalFlags)
    ensures var w := PackEfg(e, f, g, flags);
      w < 0x1_0000_0000 && ParseFourInputs(w)[..3] == [e, f, g]
      && FinalFlags(Bit(w, 0x80), Bit(w, 0x40), Bit(w, 0x20)) == flags
  {
    InputRoundTrip(e);
    InputRoundTrip(f);
    InputRoundTrip(g);
    EfgWordReads(PackInput(e), PackInput(f), PackInput(g), Flag(flags.clampSum), Flag(flags.complementV1), Flag(flags.complementR0));
    hide EfgWord, PackInput, ParseCombinerInput, ParseFourInputs, Bit;
  }

  lemma {:induction false} WordsRoundTrip(final: seq<Input>, flags: FinalFlags, abcd: Dword, efg: Dword)
    requires |final| == 7 && abcd == PackFourInputs(final[0], final[1], final[2], final[3])
    requires efg == PackEfg(final[4], final[5], final[6], flags)
    ensures ParseFinalWords(abcd, efg) == (final, flags)
  {
    FourInputsRoundTrip(final[0], final[1], final[2], final[3]);
    EfgRoundTrip(final[4], final[5], final[6], flags);
    hide ParseFourInputs, PackFourInputs, PackEfg, Bit;
    assert final == [final[0], final[1], final[2], final[3]] + [final[4], final[5], final[6]];
  }

  /** What the final combiner's words are read as. */
  lemma {:induction false} FinalRoundTrip(final: seq<Input>, flags: FinalFlags, abcd: Dword, efg: Dword)
    requires |final| == 7 && abcd == PackFourInputs(final[0], final[1], final[2], final[3])
    requires efg == PackEfg(final[4], final[5], final[6], flags)
    ensures ParseFinal(abcd, efg) == (final, flags) <==> abcd != 0 || efg != 0
  {
    WordsRoundTrip(final, flags, abcd, efg);
    UnsetDiffers();
    hide ParseFinalWords, PackFourInputs, PackEfg;
  }

  lemma {:induction false} UnsetDiffers()
    ensures ParseFinalWords(0x0C, 0x1C00) != ParseFinalWords(0, 0)
  {
    assert ParseFinalWords(0x0C, 0x1C00).0[3].reg == REG_R0;
    assert ParseFinalWords(0, 0).0[3].reg == REG_ZERO;
  }

  /** The words a title sets for a state are read back as that state, if and only if the state
      has no alpha test, which is taken over with each draw; a combiner count that was given, or
      no flags of one; and a final combiner that is not all zeros, which is read as one that was
      never set. */
  lemma {:induction false} StateRoundTripIff(token: Dword, rs: RenderStates, s: State)
    requires s.Valid() && Packs(token, rs, s)
    ensures ParseState(token, rs) == s <==>
      && !s.alphaTest && (s.count.known || s.count == CountFlags(false, false, false, false))
      && (rs[D3DRS_PSFINALCOMBINERINPUTSABCD] != 0 || rs[D3DRS_PSFINALCOMBINERINPUTSEFG] != 0)
  {
    forall i | 0 <= i < NV2A_MAX_COMBINER_STAGES ensures ParseStages(rs)[i] == s.stages[i] {
      StageRoundTrip(rs, i, s.stages[i]);
    }
    assert ParseStages(rs) == s.stages;
    CountRoundTrip(s.count, s.numStages);
    FinalRoundTrip(s.final, s.finalFlags, rs[D3DRS_PSFINALCOMBINERINPUTSABCD], rs[D3DRS_PSFINALCOMBINERINPUTSEFG]);
    hide ParseFinal, ParseCountFlags, ParseStages, ParseTextures, SamplesFirst, PackCount, PackEfg, PackFourInputs, PacksStage;
  }

  // ---- Texture modes, back from the words a title sets ----

  /** Four fields of `unit` values each, below a rest. */
  lemma {:induction false} FourFields(a: nat, b: nat, c: nat, d: nat, rest: nat, unit: nat)
    requires unit == 16 || unit == 32
    requires a < unit && b < unit && c < unit && d < unit
    ensures var w := a + unit * (b + unit * (c + unit * (d + unit * rest)));
      && w % unit == a && w / unit % unit == b && w / (unit * unit) % unit == c && w / (unit * unit * unit) % unit == d
  {
    var w3 := d + unit * rest;
    var w2 := c + unit * w3;
    var w1 := b + unit * w2;
    var w := a + unit * w1;
    Parts(w1, unit, a);
    Parts(w2, unit, b);
    Parts(w3, unit, c);
    Parts(rest, unit, d);
    DivDiv(w, unit, unit);
    DivDiv(w, unit * unit, unit);
  }

  /** A token: the number of stages below, a texture mode for each stage, flags on top. */
  predicate IsToken(token: Dword, numStages: nat, low: nat, a: nat, b: nat, c: nat, d: nat, flags: nat) {
    && numStages < 16 && low < 16 && a < 16 && b < 16 && c < 16 && d < 16
    && token == 0x100_0000 * flags + 0x100 * (a + 0x10 * b + 0x100 * c + 0x1000 * d) + low * 16 + numStages
  }

  lemma {:induction false} TokenFields(token: Dword, numStages: nat, low: nat, a: nat, b: nat, c: nat, d: nat, flags: nat)
    requires IsToken(token, numStages, low, a, b, c, d, flags)
    ensures Nibbles(token / 0x100) == [a, b, c, d] && token / 0x100_0000 == flags && token % 16 == numStages
  {
    var modes := a + 0x10 * b + 0x100 * c + 0x1000 * d;
    Parts(0x1_0000 * flags + modes, 0x100, low * 16 + numStages);
    Parts(flags, 0x100_0000, 0x100 * modes + low * 16 + numStages);
    Parts(0x10_0000 * flags + 0x10 * modes + low, 16, numStages);
    FourFields(a, b, c, d, flags, 16);
  }

  /** The modes of a token that has any are its stages', and its number of stages is taken into
      1 to 8. */
  lemma {:induction false} TokenRoundTrip(token: Dword, rs: RenderStates, numStages: nat, low: nat, a: nat, b: nat, c: nat,
        d: nat, flags: nat)
    requires IsToken(token, numStages, low, a, b, c, d, flags)
    ensures ParseState(token, rs).numStages == if numStages == 0 then 1 else if numStages < 8 then numStages else 8
    ensures ParseTextures(token, rs).flags == flags
    ensures a != 0 || b != 0 || c != 0 || d != 0 ==>
      ParseTextures(token, rs) == Textures([a, b, c, d], None, flags)
      && (ParseState(token, rs).texture0 <==> a != NV2A_TEXMODE_NONE)
  {
    TokenFields(token, numStages, low, a, b, c, d, flags);
    hide Nibbles, ParseXboxTextures, ParseStages, ParseFinal, ParseCountFlags, SamplerOf;
  }

  /** Without them the four fields of the render state are, if a title has not set its own. */
  lemma {:induction false} PlainModesRoundTrip(token: Dword, rs: RenderStates, numStages: nat, low: nat, a: nat, b: nat,
        c: nat, d: nat, rest: nat, flags: nat)
    requires IsToken(token, numStages, low, 0, 0, 0, 0, flags) && a < 16 && b < 16 && c < 16 && d < 16 && rest < 0x8000
    requires rs[D3DRS_PSTEXTUREMODES] == a + 0x10 * b + 0x100 * c + 0x1000 * d + 0x1_0000 * rest
    ensures ParseTextures(token, rs) == Textures([a, b, c, d], None, flags)
    ensures ParseState(token, rs).texture0 <==> a != NV2A_TEXMODE_NONE
  {
    TokenFields(token, numStages, low, 0, 0, 0, 0, flags);
    FourFields(a, b, c, d, rest, 16);
    hide ParseXboxTextures, ParseStages, ParseFinal, ParseCountFlags, SamplerOf, ParseNumStages;
  }

  /** A mode there is none of counts as no mode. */
  function Known(mode: nat): nat {
    if mode < 0x13 then mode else 0
  }

  /** The kind of texture a mode samples, by number as PS_TEXTUREMODES has them. */
  predicate Samples(mode: nat, sampler: nat) {
    match sampler
    case 0 => mode in {0x01, 0x06, 0x07, 0x09, 0x0F, 0x10}
    case 1 => mode in {0x02, 0x0D}
    case 2 => mode in {0x03, 0x0B, 0x0C, 0x0E}
    case 3 => mode in {0x00, 0x04, 0x05, 0x08, 0x0A, 0x11, 0x12}
    case _ => false
  }

  lemma {:induction false} SamplerSamples(mode: nat)
    ensures Samples(Known(mode), SamplerOf(Known(mode)))
  {
  }

  lemma {:induction false} XboxModesRoundTrip(a: nat, b: nat, c: nat, d: nat)
    requires a < 32 && b < 32 && c < 32 && d < 32
    ensures XboxModes(0x8000_0000 + a + 0x20 * b + 0x400 * c + 0x8000 * d) == [Known(a), Known(b), Known(c), Known(d)]
  {
    FourFields(a, b, c, d, 0x800, 32);
  }

  lemma {:induction false} DotFields(dot1: nat, dot2: nat, dot3: nat, rest: nat, w: nat)
    requires dot1 < 16 && dot2 < 16 && dot3 < 16 && w == dot1 + 0x10 * dot2 + 0x100 * dot3 + 0x1000 * rest
    ensures w % 16 == dot1 && w / 0x10 % 16 == dot2 && w / 0x100 % 16 == dot3
  {
    FourFields(dot1, dot2, dot3, rest % 16, rest / 16, 16);
  }

  lemma {:induction false} InputFields(input2: nat, input3: nat, low: nat, rest: nat, w: nat)
    requires input2 < 16 && input3 < 16 && low < 0x1_0000 && w == low + 0x1_0000 * input2 + 0x10_0000 * input3 + 0x100_0000 * rest
    ensures w / 0x1_0000 % 16 == input2 && w / 0x10_0000 % 16 == input3
  {
    Parts(input2 + 0x10 * input3 + 0x100 * rest, 0x1_0000, low);
    Parts(input3 + 0x10 * rest, 16, input2);
    Parts(input3 + 0x10 * rest, 0x10_0000, low + 0x1_0000 * input2);
    Parts(rest, 16, input3);
  }

  /** A title's own modes, five bits a stage from stage 0 up, come back with the sampler of each;
      so do the dot mappings of stages 1 to 3 and the stages 2 and 3 read from, which are earlier
      ones. */
  lemma {:induction false} XboxRoundTrip(token: Dword, rs: RenderStates, numStages: nat, bits: nat, flags: nat,
        modes: seq<nat>, dots: seq<nat>, inputs: (nat, nat), rest: nat, low: nat, high: nat)
    requires IsToken(token, numStages, bits, 0, 0, 0, 0, flags) && low < 0x1_0000 && inputs.0 < 16 && inputs.1 < 16
    requires |modes| == 4 && forall i {:trigger modes[i]} :: 0 <= i < 4 ==> modes[i] < 32
    requires |dots| == 3 && forall i {:trigger dots[i]} :: 0 <= i < 3 ==> dots[i] < 16
    requires rs[D3DRS_PSTEXTUREMODES] == 0x8000_0000 + modes[0] + 0x20 * modes[1] + 0x400 * modes[2] + 0x8000 * modes[3]
    requires rs[D3DRS_PSDOTMAPPING] == dots[0] + 0x10 * dots[1] + 0x100 * dots[2] + 0x1000 * rest
    requires rs[D3DRS_PSINPUTTEXTURE] == low + 0x1_0000 * inputs.0 + 0x10_0000 * inputs.1 + 0x100_0000 * high
    ensures var t := ParseTextures(token, rs);
      && t.xbox.Some? && t.flags == flags && |t.xbox.value.dotMaps| == |t.xbox.value.inputs| == 4
      && (forall i {:trigger t.samplers[i]} :: 0 <= i < 4 ==>
           t.xbox.value.modes[i] == Known(modes[i]) && Samples(Known(modes[i]), t.samplers[i]))
      && t.xbox.value.dotMaps[1..] == dots
      && t.xbox.value.inputs[2] == (if inputs.0 < 2 then inputs.0 else 0)
      && t.xbox.value.inputs[3] == (if inputs.1 < 3 then inputs.1 else 0)
    ensures ParseState(token, rs).texture0 <==> Known(modes[0]) != XTM_NONE
  {
    TokenFields(token, numStages, bits, 0, 0, 0, 0, flags);
    XboxModesRoundTrip(modes[0], modes[1], modes[2], modes[3]);
    DotFields(dots[0], dots[1], dots[2], rest, rs[D3DRS_PSDOTMAPPING]);
    InputFields(inputs.0, inputs.1, low, high, rs[D3DRS_PSINPUTTEXTURE]);
    SamplerSamples(modes[0]);
    SamplerSamples(modes[1]);
    SamplerSamples(modes[2]);
    SamplerSamples(modes[3]);
    hide Nibbles, XboxModes, SamplerOf, Samples, Known, ParseStages, ParseFinal, ParseCountFlags, ParseNumStages;
  }

  // ---- The same, as the program does it ----

  const BLANK_INPUT: Input := Input(REG_ZERO, false, UnsignedIdentity)
  const BLANK_OUTPUT: Output := Output(REG_ZERO, REG_ZERO, REG_ZERO, false, false, false, OutIdentity, false, false)

  /** The loops over the stages: all inputs, then all outputs. */
  method ReadStages(rs: RenderStates) returns (stages: seq<Stage>)
    ensures stages == ParseStages(rs)
  {
    hide ParseFourInputs, ParseOutput;
    var blanks := [BLANK_INPUT, BLANK_INPUT, BLANK_INPUT, BLANK_INPUT];
    stages := Repeat(NV2A_MAX_COMBINER_STAGES, Stage(blanks, blanks, BLANK_OUTPUT, BLANK_OUTPUT));
    for i := 0 to NV2A_MAX_COMBINER_STAGES
      invariant |stages| == NV2A_MAX_COMBINER_STAGES
      invariant forall k {:trigger stages[k]} :: 0 <= k < i ==>
        stages[k].rgbInput == ParseStage(rs, k).rgbInput && stages[k].alphaInput == ParseStage(rs, k).alphaInput
    {
      stages := stages[i := stages[i].(
        rgbInput := ParseFourInputs(rs[D3DRS_PSRGBINPUTS0 + i]), alphaInput := ParseFourInputs(rs[D3DRS_PSALPHAINPUTS0 + i]))];
    }
    for i := 0 to NV2A_MAX_COMBINER_STAGES
      invariant |stages| == NV2A_MAX_COMBINER_STAGES
      invariant forall k {:trigger stages[k]} :: 0 <= k < NV2A_MAX_COMBINER_STAGES ==>
        stages[k].rgbInput == ParseStage(rs, k).rgbInput && stages[k].alphaInput == ParseStage(rs, k).alphaInput
      invariant forall k {:trigger stages[k]} :: 0 <= k < i ==> stages[k] == ParseStage(rs, k)
    {
      stages := stages[i := stages[i].(
        rgbOutput := ParseOutput(rs[D3DRS_PSRGBOUTPUTS0 + i]), alphaOutput := ParseOutput(rs[D3DRS_PSALPHAOUTPUTS0 + i]))];
    }
  }

  /** The loop over the Xbox's modes, which shifts five bits at a time. */
  method ReadTextures(token: Dword, rs: RenderStates) returns (t: Textures)
    ensures t == ParseTextures(token, rs)
  {
    var samplers, xbox := Nibbles(token / 0x100), None;
    if samplers == [0, 0, 0, 0] {
      var tm := rs[D3DRS_PSTEXTUREMODES];
      if tm >= 0x8000_0000 {
        var x := ParseXboxTextures(rs);
        xbox := Some(x);
        for i := 0 to 4
          invariant |samplers| == 4 && forall k {:trigger samplers[k]} :: 0 <= k < i ==> samplers[k] == SamplerOf(x.modes[k])
        {
          samplers := samplers[i := SamplerOf(x.modes[i])];
        }
      } else {
        samplers := Nibbles(tm);
      }
    }
    t := Textures(samplers, xbox, token / 0x100_0000);
  }

  method ParseToken(token: Dword, rs: RenderStates) returns (p: Parsed)
    ensures p == Parse(token, rs)
  {
    var stages := ReadStages(rs);
    var textures := ReadTextures(token, rs);
    var final := ParseFinal(rs[D3DRS_PSFINALCOMBINERINPUTSABCD], rs[D3DRS_PSFINALCOMBINERINPUTSEFG]);
    p := Parsed(State(ParseNumStages(token), stages, final.0, ParseCountFlags(rs[D3DRS_PSCOMBINERCOUNT]), final.1,
                      SamplesFirst(textures), false), textures);
  }
}
