/** The register-combiner configuration of the NV2A, and how it is unpacked from the words a
    title sets. */
module CombinerState {
  import opened WholeNumbers

  const NV2A_MAX_COMBINER_STAGES: nat := 8

  const REG_ZERO: nat := 0
  const REG_C0: nat := 1
  const REG_C1: nat := 2
  const REG_FOG: nat := 3
  const REG_V0: nat := 4
  const REG_V1: nat := 5
  const REG_T0: nat := 8
  const REG_R0: nat := 12
  const REG_R1: nat := 13
  const REG_V1R0_SUM: nat := 14
  const REG_EF_PROD: nat := 15

  type Dword = w: nat | w < 0x1_0000_0000
  type Byte = b: nat | b < 256
  type Register = r: nat | r < 16

  datatype Mapping =
    | UnsignedIdentity | UnsignedInvert | ExpandNormal | ExpandNegate
    | HalfbiasNormal | HalfbiasNegate | SignedIdentity | SignedNegate

  datatype OutputMapping =
    | OutIdentity | OutBias | ShiftLeft1 | ShiftLeft1Bias
    | ShiftLeft2 | ShiftLeft2Bias | ShiftRight1 | ShiftRight1Bias

  datatype Input = Input(reg: Register, alphaRep: bool, mapping: Mapping)

  datatype Output = Output(abDst: Register, cdDst: Register, sumDst: Register, abDot: bool, cdDot: bool, muxSum: bool,
                           outputMap: OutputMapping, abBlueToAlpha: bool, cdBlueToAlpha: bool)

  /** One stage: inputs A, B, C and D of each portion, and its outputs. */
  datatype Stage = Stage(rgbInput: seq<Input>, alphaInput: seq<Input>, rgbOutput: Output, alphaOutput: Output) {
    ghost predicate Valid() { |rgbInput| == 4 && |alphaInput| == 4 }
  }

  /** The flags of the combiner count: whether it was given, and its three bits. */
  datatype CountFlags = CountFlags(known: bool, muxMsb: bool, uniqueC0: bool, uniqueC1: bool)

  datatype FinalFlags = FinalFlags(clampSum: bool, complementV1: bool, complementR0: bool)

  /** What decides the shader: `final` are inputs A to G; `texture0` says whether stage 0
      samples anything. */
  datatype State = State(numStages: nat, stages: seq<Stage>, final: seq<Input>, count: CountFlags,
                         finalFlags: FinalFlags, texture0: bool, alphaTest: bool) {
    ghost predicate Valid() {
      && 1 <= numStages <= NV2A_MAX_COMBINER_STAGES && |stages| == NV2A_MAX_COMBINER_STAGES && |final| == 7
      && forall i {:trigger stages[i]} :: 0 <= i < |stages| ==> stages[i].Valid()
    }
  }

  // ---- Unpacking ----

  function MappingOf(n: nat): Mapping {
    match n
    case 0 => UnsignedIdentity
    case 1 => UnsignedInvert
    case 2 => ExpandNormal
    case 3 => ExpandNegate
    case 4 => HalfbiasNormal
    case 5 => HalfbiasNegate
    case 6 => SignedIdentity
    case _ => SignedNegate
  }

  function OutputMappingOf(n: nat): OutputMapping {
    match n
    case 0 => OutIdentity
    case 1 => OutBias
    case 2 => ShiftLeft1
    case 3 => ShiftLeft1Bias
    case 4 => ShiftLeft2
    case 5 => ShiftLeft2Bias
    case 6 => ShiftRight1
    case _ => ShiftRight1Bias
  }

  predicate Bit(w: nat, unit: nat)
    requires unit > 0
  {
    w / unit % 2 == 1
  }

  function ParseCombinerInput(packed: Byte): Input {
    Input(packed % 16, Bit(packed, 16), MappingOf(packed / 32))
  }

  /** A is packed in the most significant byte. */
  function ParseFourInputs(w: Dword): (r: seq<Input>)
    ensures |r| == 4
  {
    [ParseCombinerInput(w / 0x100_0000), ParseCombinerInput(w / 0x1_0000 % 0x100),
     ParseCombinerInput(w / 0x100 % 0x100), ParseCombinerInput(w % 0x100)]
  }

  function ParseOutput(w: Dword): Output {
    Output(w / 0x10 % 16, w % 16, w / 0x100 % 16, Bit(w, 0x2000), Bit(w, 0x1000), Bit(w, 0x4000),
           OutputMappingOf(w / 0x8000 % 8), Bit(w, 0x8_0000), Bit(w, 0x4_0000))
  }

  function ParseNumStages(w: Dword): (n: nat)
    ensures 1 <= n <= NV2A_MAX_COMBINER_STAGES
  {
    if w % 16 < 1 then 1 else if w % 16 > NV2A_MAX_COMBINER_STAGES then NV2A_MAX_COMBINER_STAGES else w % 16
  }

  function ParseCountFlags(w: Dword): CountFlags {
    CountFlags(w != 0, Bit(w, 0x100), Bit(w, 0x1000), Bit(w, 0x1_0000))
  }

  /** The final combiner's two words; with neither set, colour is R0 and alpha is R0's. */
  function ParseFinal(abcd: Dword, efg: Dword): (r: (seq<Input>, FinalFlags))
    ensures |r.0| == 7
  {
    if abcd == 0 && efg == 0 then ParseFinalWords(0x0C, 0x1C00) else ParseFinalWords(abcd, efg)
  }

  function ParseFinalWords(abcd: Dword, efg: Dword): (r: (seq<Input>, FinalFlags))
    ensures |r.0| == 7
  {
    (ParseFourInputs(abcd) + ParseFourInputs(efg)[..3], FinalFlags(Bit(efg, 0x80), Bit(efg, 0x40), Bit(efg, 0x20)))
  }

  // ---- Packing, as the Xbox's macros do it ----

  function MappingBits(m: Mapping): (n: nat)
    ensures n < 8 && MappingOf(n) == m
  {
    match m
    case UnsignedIdentity => 0
    case UnsignedInvert => 1
    case ExpandNormal => 2
    case ExpandNegate => 3
    case HalfbiasNormal => 4
    case HalfbiasNegate => 5
    case SignedIdentity => 6
    case SignedNegate => 7
  }

  function OutputMappingBits(m: OutputMapping): (n: nat)
    ensures n < 8 && OutputMappingOf(n) == m
  {
    match m
    case OutIdentity => 0
    case OutBias => 1
    case ShiftLeft1 => 2
    case ShiftLeft1Bias => 3
    case ShiftLeft2 => 4
    case ShiftLeft2Bias => 5
    case ShiftRight1 => 6
    case ShiftRight1Bias => 7
  }

  function Flag(b: bool): (n: nat)
    ensures n < 2
  {
    if b then 1 else 0
  }

  function PackInput(i: Input): Byte {
    i.reg + 16 * Flag(i.alphaRep) + 32 * MappingBits(i.mapping)
  }

  function PackFourInputs(a: Input, b: Input, c: Input, d: Input): Dword {
    0x100_0000 * PackInput(a) + 0x1_0000 * PackInput(b) + 0x100 * PackInput(c) + PackInput(d)
  }

  /** The flags sit above the three destinations: CD, AB, sum from the low nibble up. */
  function OutputFlags(o: Output): nat {
    Flag(o.cdDot) + 2 * Flag(o.abDot) + 4 * Flag(o.muxSum) + 8 * OutputMappingBits(o.outputMap)
    + 0x40 * Flag(o.cdBlueToAlpha) + 0x80 * Flag(o.abBlueToAlpha)
  }

  function PackOutput(o: Output): Dword {
    FlagsOf(o);
    o.cdDst + 0x10 * o.abDst + 0x100 * o.sumDst + 0x1000 * OutputFlags(o)
  }

  lemma {:induction false} FlagsOf(o: Output)
    ensures var f := OutputFlags(o);
      && f < 0x100 && Bit(f, 1) == o.cdDot && Bit(f, 2) == o.abDot && Bit(f, 4) == o.muxSum
      && f / 8 % 8 == OutputMappingBits(o.outputMap) && Bit(f, 0x40) == o.cdBlueToAlpha && Bit(f, 0x80) == o.abBlueToAlpha
  {
    OutputFlagBits(Flag(o.cdDot), Flag(o.abDot), Flag(o.muxSum), OutputMappingBits(o.outputMap),
                   Flag(o.cdBlueToAlpha), Flag(o.abBlueToAlpha));
  }

  /** A number put together from a high and a low part. */
  lemma {:induction false} Parts(high: nat, unit: nat, low: nat)
    requires low < unit
    ensures (high * unit + low) / unit == high && (high * unit + low) % unit == low
  {
    DivUnique(high * unit + low, unit, high, low);
  }

  /** Every input comes back from its byte, and every byte from its input. */
  lemma {:induction false} InputRoundTrip(i: Input)
    ensures ParseCombinerInput(PackInput(i)) == i
  {
  }

  lemma {:induction false} ByteRoundTrip(b: Byte)
    ensures PackInput(ParseCombinerInput(b)) == b
  {
    var high := b / 16;
    assert b == 16 * high + b % 16 && high == 2 * (high / 2) + high % 2;
    DivDiv(b, 16, 2);
    assert MappingBits(MappingOf(b / 32)) == b / 32;
  }

  lemma {:induction false} FourBytes(a: nat, b: nat, c: nat, d: nat)
    requires a < 256 && b < 256 && c < 256 && d < 256
    ensures var w := 0x100_0000 * a + 0x1_0000 * b + 0x100 * c + d;
      w / 0x100_0000 == a && w / 0x1_0000 % 0x100 == b && w / 0x100 % 0x100 == c && w % 0x100 == d
  {
    Parts(a, 0x100_0000, 0x1_0000 * b + 0x100 * c + d);
    Parts(a * 0x100 + b, 0x1_0000, 0x100 * c + d);
    Parts(a, 0x100, b);
    Parts(a * 0x1_0000 + b * 0x100 + c, 0x100, d);
    Parts(a * 0x100 + b, 0x100, c);
  }

  lemma {:induction false} FourInputsRoundTrip(a: Input, b: Input, c: Input, d: Input)
    ensures ParseFourInputs(PackFourInputs(a, b, c, d)) == [a, b, c, d]
  {
    InputRoundTrip(a);
    InputRoundTrip(b);
    InputRoundTrip(c);
    InputRoundTrip(d);
    hide ParseCombinerInput;
    FourBytes(PackInput(a), PackInput(b), PackInput(c), PackInput(d));
    hide PackInput;
  }

  lemma {:induction false} OutputNibbles(cd: nat, ab: nat, sum: nat, flags: nat)
    requires cd < 16 && ab < 16 && sum < 16
    ensures var w := cd + 0x10 * ab + 0x100 * sum + 0x1000 * flags;
      && w % 16 == cd && w / 0x10 % 16 == ab && w / 0x100 % 16 == sum && w / 0x1000 == flags
      && w / 0x2000 == flags / 2 && w / 0x4000 == flags / 4 && w / 0x8000 == flags / 8
      && w / 0x4_0000 == flags / 0x40 && w / 0x8_0000 == flags / 0x80
  {
    var w := cd + 0x10 * ab + 0x100 * sum + 0x1000 * flags;
    Parts(ab + 0x10 * sum + 0x100 * flags, 16, cd);
    Parts(sum + 0x10 * flags, 16, ab);
    Parts(sum + 0x10 * flags, 0x100, cd + 0x10 * ab);
    Parts(flags, 16, sum);
    Parts(flags, 0x1000, cd + 0x10 * ab + 0x100 * sum);
    DivDiv(w, 0x1000, 2);
    DivDiv(w, 0x1000, 4);
    DivDiv(w, 0x1000, 8);
    DivDiv(w, 0x1000, 0x40);
    DivDiv(w, 0x1000, 0x80);
  }

  lemma {:induction false} OutputFlagBits(cd: nat, ab: nat, mux: nat, mapping: nat, cdBlue: nat, abBlue: nat)
    requires cd < 2 && ab < 2 && mux < 2 && mapping < 8 && cdBlue < 2 && abBlue < 2
    ensures var f := cd + 2 * ab + 4 * mux + 8 * mapping + 0x40 * cdBlue + 0x80 * abBlue;
      && f < 0x100 && f % 2 == cd && f / 2 % 2 == ab && f / 4 % 2 == mux && f / 8 % 8 == mapping
      && f / 0x40 % 2 == cdBlue && f / 0x80 % 2 == abBlue
  {
    var top := cdBlue + 2 * abBlue;
    Parts(ab + 2 * mux + 4 * mapping + 0x20 * top, 2, cd);
    Parts(mux + 2 * mapping + 0x10 * top, 2, ab);
    Parts(mux + 2 * mapping + 0x10 * top, 4, cd + 2 * ab);
    Parts(mapping + 8 * top, 2, mux);
    Parts(mapping + 8 * top, 8, cd + 2 * ab + 4 * mux);
    Parts(top, 8, mapping);
    Parts(top, 0x40, cd + 2 * ab + 4 * mux + 8 * mapping);
    Parts(abBlue, 2, cdBlue);
    Parts(abBlue, 0x80, cd + 2 * ab + 4 * mux + 8 * mapping + 0x40 * cdBlue);
  }

  /** Every output comes back from its word. */
  lemma {:induction false} OutputRoundTrip(o: Output)
    ensures ParseOutput(PackOutput(o)) == o
  {
    FlagsOf(o);
    hide OutputFlags;
    hide OutputMappingOf;
    OutputNibbles(o.cdDst, o.abDst, o.sumDst, OutputFlags(o));
  }
}
