/** The decoders that step over a trapped load or store: by how many bytes they move the
    instruction pointer, and how wide an access they take it for, against the encoding of
    x86-64 instructions (Intel 64 and IA-32 Architectures Software Developer's Manual, volume
    2A, sections 2.1.3 to 2.1.5 and 2.2.1). */
module StoreDecoder {
  import opened WholeNumbers

  type Byte = b: nat | b < 256

  // ---- Encoding ----

  /** The legacy prefixes the decoders know. */
  datatype Prefix = OperandSize | RepNe | Rep

  datatype Rex = NoRex | Rex(w: bool, r: bool, x: bool, b: bool)

  /** A memory operand and the register field beside it: the SIB byte is there if rm is 4. */
  datatype Operand = Operand(mod: nat, reg: nat, rm: nat, sib: Byte, disp: seq<Byte>) {
    ghost predicate Valid() {
      mod < 3 && reg < 8 && rm < 8 && |disp| == DispLength(mod, rm, sib)
    }
  }

  /** A 32-bit displacement stands in for the base where there is none: rm 5, or SIB base 5,
      with mod 0. */
  function DispLength(mod: nat, rm: nat, sib: Byte): nat {
    if mod == 1 then 1
    else if mod == 2 then 4
    else if rm == 5 || (rm == 4 && sib % 8 == 5) then 4
    else 0
  }

  datatype Form =
    | StoreReg8 | StoreReg | StoreImm8 | StoreImm | LoadReg8 | LoadReg | MovzxByte | MovzxWord
    | Test8 | Test | Cmp8 | Cmp | Or8 | Or | And8 | And | Group1Imm8

  function Opcode(f: Form): (bytes: seq<Byte>)
    ensures 1 <= |bytes| <= 2 && !IsPrefix(bytes[0])
  {
    match f
    case StoreReg8 => [0x88]
    case StoreReg => [0x89]
    case StoreImm8 => [0xC6]
    case StoreImm => [0xC7]
    case LoadReg8 => [0x8A]
    case LoadReg => [0x8B]
    case MovzxByte => [0x0F, 0xB6]
    case MovzxWord => [0x0F, 0xB7]
    case Test8 => [0x84]
    case Test => [0x85]
    case Cmp8 => [0x38]
    case Cmp => [0x39]
    case Or8 => [0x08]
    case Or => [0x09]
    case And8 => [0x20]
    case And => [0x21]
    case Group1Imm8 => [0x80]
  }

  datatype Instruction = Instruction(prefixes: seq<Prefix>, rex: Rex, form: Form, operand: Operand, imm: seq<Byte>) {
    ghost predicate Valid() {
      operand.Valid() && |imm| == ImmLength(this)
    }
  }

  predicate Wide(i: Instruction) {
    i.rex.Rex? && i.rex.w
  }

  predicate Short(i: Instruction) {
    OperandSize in i.prefixes
  }

  /** REX.W takes precedence over the operand-size prefix, and an immediate is never longer
      than 32 bits. */
  function ImmLength(i: Instruction): nat {
    if i.form.StoreImm8? || i.form.Group1Imm8? then 1
    else if i.form.StoreImm? then (if Short(i) && !Wide(i) then 2 else 4)
    else 0
  }

  /** The width of the memory access. */
  function Width(i: Instruction): nat {
    match i.form
    case MovzxWord => 2
    case StoreReg | StoreImm | LoadReg | Test | Cmp | Or | And => if Wide(i) then 8 else if Short(i) then 2 else 4
    case _ => 1
  }

  /** An access is as wide as the immediate that would be stored by it, but that one of 64 bits
      takes an immediate of 32: the forms for bytes are one byte wide, MOVZX as its name says, and
      all the others alike. */
  lemma {:induction false} AccessWidth(i: Instruction)
    requires i.Valid()
    ensures i.form.StoreImm8? || i.form.Group1Imm8? || i.form.StoreImm? ==> |i.imm| == if Width(i) == 8 then 4 else Width(i)
    ensures Width(i.(form := StoreImm)) == 8 <==> i.rex.Rex? && i.rex.w
    ensures i.form in {StoreReg, LoadReg, Test, Cmp, Or, And} ==> Width(i) == Width(i.(form := StoreImm))
    ensures i.form in {StoreReg8, LoadReg8, Test8, Cmp8, Or8, And8, MovzxByte} ==> Width(i) == Width(i.(form := StoreImm8))
    ensures i.form == MovzxWord ==> Width(i) == 2
  {
  }

  function PrefixByte(p: Prefix): Byte {
    match p
    case OperandSize => 0x66
    case RepNe => 0xF2
    case Rep => 0xF3
  }

  function One(b: bool): (n: nat)
    ensures n < 2
  {
    if b then 1 else 0
  }

  function RexBytes(r: Rex): seq<Byte> {
    match r
    case NoRex => []
    case Rex(w, r, x, b) => [0x40 + 8 * One(w) + 4 * One(r) + 2 * One(x) + One(b)]
  }

  function PrefixBytes(prefixes: seq<Prefix>): (bytes: seq<Byte>)
    ensures |bytes| == |prefixes|
    ensures forall k {:trigger bytes[k]} :: 0 <= k < |bytes| ==> bytes[k] == PrefixByte(prefixes[k])
  {
    if prefixes == [] then [] else PrefixBytes(prefixes[..|prefixes| - 1]) + [PrefixByte(prefixes[|prefixes| - 1])]
  }

  function OperandBytes(o: Operand): seq<Byte>
    requires o.Valid()
  {
    [o.mod * 64 + o.reg * 8 + o.rm] + (if o.rm == 4 then [o.sib] else []) + o.disp
  }

  /** The bytes up to the opcode: legacy prefixes in any order, then REX. */
  function Head(i: Instruction): seq<Byte> {
    PrefixBytes(i.prefixes) + RexBytes(i.rex)
  }

  function Encode(i: Instruction): seq<Byte>
    requires i.Valid()
  {
    Head(i) + Opcode(i.form) + OperandBytes(i.operand) + i.imm
  }

  type Memory = nat -> Byte

  /** The bytes stand in memory from `at` on. */
  ghost predicate StandsAt(m: Memory, at: nat, bytes: seq<Byte>) {
    forall k {:trigger bytes[k]} :: 0 <= k < |bytes| ==> m(at + k) == bytes[k]
  }

  // ---- Decoding ----

  predicate IsRex(b: Byte) {
    0x40 <= b <= 0x4F
  }

  predicate IsPrefix(b: Byte) {
    b == 0x66 || b == 0xF2 || b == 0xF3 || IsRex(b)
  }

  /** The length of the ModRM byte, the SIB byte and the displacement at `at`. */
  function DecodeModrmLen(m: Memory, at: nat): nat {
    var mod, rm := m(at) / 64, m(at) % 8;
    if mod == 3 then 1
    else
      var sib := if rm == 4 then 1 + (if mod == 0 && m(at + 1) % 8 == 5 then 4 else 0) else 0;
      var disp := if mod == 0 && rm == 5 then 4 else if mod == 1 then 1 else if mod == 2 then 4 else 0;
      1 + sib + disp
  }

  lemma {:induction false} ModrmLenIsOperand(m: Memory, at: nat, o: Operand)
    requires o.Valid() && StandsAt(m, at, OperandBytes(o))
    ensures DecodeModrmLen(m, at) == |OperandBytes(o)|
    ensures m(at) / 8 % 8 == o.reg
  {
    var bytes := OperandBytes(o);
    assert m(at + 0) == bytes[0] == o.mod * 64 + o.reg * 8 + o.rm;
    DivUnique(bytes[0], 64, o.mod, o.reg * 8 + o.rm);
    DivUnique(bytes[0], 8, o.mod * 8 + o.reg, o.rm);
    DivUnique(o.mod * 8 + o.reg, 8, o.mod, o.reg);
    if o.rm == 4 { assert m(at + 1) == bytes[1] == o.sib; }
  }

  lemma {:induction false} StandsPart(m: Memory, at: nat, a: seq<Byte>, b: seq<Byte>)
    requires StandsAt(m, at, a + b)
    ensures StandsAt(m, at, a) && StandsAt(m, at + |a|, b)
  {
    forall k {:trigger a[k]} | 0 <= k < |a| ensures m(at + k) == a[k] {
      assert (a + b)[k] == a[k];
    }
    forall k {:trigger b[k]} | 0 <= k < |b| ensures m(at + |a| + k) == b[k] {
      assert (a + b)[|a| + k] == b[k];
    }
  }

  /** Where the parts of an instruction stand. */
  lemma {:induction false} Parts(m: Memory, at: nat, i: Instruction)
    requires i.Valid() && StandsAt(m, at, Encode(i))
    ensures var h := |Head(i)|;
      var o := h + |Opcode(i.form)|;
      && StandsAt(m, at, Head(i)) && StandsAt(m, at + h, Opcode(i.form)) && StandsAt(m, at + o, OperandBytes(i.operand))
      && StandsAt(m, at + o + |OperandBytes(i.operand)|, i.imm)
      && |Encode(i)| == o + |OperandBytes(i.operand)| + |i.imm|
  {
    var a, b, c, d := Head(i), Opcode(i.form), OperandBytes(i.operand), i.imm;
    StandsPart(m, at, a + b + c, d);
    StandsPart(m, at, a + b, c);
    StandsPart(m, at, a, b);
  }

  lemma {:induction false} RexByte(r: Rex)
    requires r.Rex?
    ensures var b := RexBytes(r)[0];
      && IsRex(b) && (b / 8 % 2 == 1 <==> r.w) && (b / 4 % 2 == 1 <==> r.r) && (b % 2 == 1 <==> r.b)
  {
    var w, q, x, b := One(r.w), One(r.r), One(r.x), One(r.b);
    var n := 0x40 + 8 * w + 4 * q + 2 * x + b;
    DivUnique(n, 8, 8 + w, 4 * q + 2 * x + b);
    DivUnique(n, 4, 16 + 2 * w + q, 2 * x + b);
    DivUnique(8 + w, 2, 4, w);
    DivUnique(16 + 2 * w + q, 2, 8 + w, q);
    DivUnique(n, 2, 32 + 4 * w + 2 * q + x, b);
  }

  /** What the prefix loop makes of the bytes up to the opcode. */
  /** The bytes taken for a REX prefix are those that encode one. */
  lemma {:induction false} RexIsEncoded(b: Byte)
    ensures IsRex(b) <==> exists r: Rex {:trigger RexBytes(r)} :: r.Rex? && RexBytes(r) == [b]
  {
    if IsRex(b) {
      var r := Rex(b / 8 % 2 == 1, b / 4 % 2 == 1, b / 2 % 2 == 1, b % 2 == 1);
      assert RexBytes(r) == [b];
    }
    forall r: Rex {:trigger RexBytes(r)} | r.Rex? && RexBytes(r) == [b] ensures IsRex(b) {
      RexByte(r);
    }
  }

  datatype Flags = Flags(length: nat, has66: bool, rexW: bool, rexR: bool, rexB: bool)

  function FlagsOf(i: Instruction): Flags {
    Flags(|Head(i)|, Short(i), Wide(i), i.rex.Rex? && i.rex.r, i.rex.Rex? && i.rex.b)
  }

  function SizeOf(f: Flags): nat {
    if f.rexW then 8 else if f.has66 then 2 else 4
  }

  /** The immediate the decoders step over: they do not ask whether REX.W is there too. */
  function TakenImm(i: Instruction): nat {
    if i.form.StoreImm8? || i.form.Group1Imm8? then 1
    else if i.form.StoreImm? then (if Short(i) then 2 else 4)
    else 0
  }

  /** How far a decoder moves past an instruction it handles. */
  function Advance(i: Instruction): nat
    requires i.Valid()
  {
    |Head(i)| + |Opcode(i.form)| + |OperandBytes(i.operand)| + TakenImm(i)
  }

  predicate IsMovStore(f: Form) {
    f.StoreReg8? || f.StoreReg? || f.StoreImm8? || f.StoreImm?
  }

  /** A decoder moves by the true length of every instruction but one: an immediate store with
      both the operand-size prefix and REX.W has four immediate bytes, and the decoders take two. */
  lemma {:induction false} LengthIsRightIff(i: Instruction)
    requires i.Valid()
    ensures Advance(i) == |Encode(i)| <==> !(i.form.StoreImm? && Short(i) && Wide(i))
  {
  }

  class Context {
    var rip: nat
    const memory: Memory

    constructor (memory: Memory, rip: nat)
      ensures this.memory == memory && this.rip == rip
    {
      this.memory := memory;
      this.rip := rip;
    }

    /** The loop over the prefixes. */
    method ScanPrefixes(ghost i: Instruction) returns (f: Flags)
      requires StandsAt(memory, rip, Head(i)) && !IsPrefix(memory(rip + |Head(i)|))
      ensures f == FlagsOf(i)
    {
      var length, has66, rex, hasRex := 0, false, 0, false;
      ghost var n := |i.prefixes|;
      while true
        invariant 0 <= length <= |Head(i)|
        invariant has66 == (OperandSize in i.prefixes[..if length < n then length else n])
        invariant hasRex <==> length > n
        invariant hasRex ==> rex == RexBytes(i.rex)[0]
        decreases |Head(i)| - length
      {
        var b := memory(rip + length);
        if !IsPrefix(b) {
          assert length == |Head(i)| by {
            if length < |Head(i)| { HeadByte(i, length); }
          }
          break;
        }
        HeadByte(i, length);
        assert Head(i)[length] == b;
        if length < n {
          assert i.prefixes[..length + 1] == i.prefixes[..length] + [i.prefixes[length]];
        }
        if b == 0x66 {
          has66 := true;
        } else if IsRex(b) {
          rex := b;
          hasRex := true;
        }
        length := length + 1;
      }
      assert i.prefixes[..n] == i.prefixes;
      if i.rex.Rex? { RexByte(i.rex); }
      f := Flags(length, has66, hasRex && rex / 8 % 2 == 1, hasRex && rex / 4 % 2 == 1, hasRex && rex % 2 == 1);
    }

    /** Decodes the width of a store to the AC'97 or NV2A page, and steps over it. */
    method DecodeWriteValue(ghost i: Instruction) returns (ok: bool, size: nat)
      requires i.Valid() && StandsAt(memory, rip, Encode(i))
      modifies this`rip
      ensures ok <==> IsMovStore(i.form)
      ensures ok ==> size == Width(i) && rip == old(rip) + Advance(i)
      ensures !ok ==> rip == old(rip)
    {
      Parts(memory, rip, i);
      OpcodeStands(memory, rip + |Head(i)|, i.form);
      var f := ScanPrefixes(i);
      var opcode := rip + f.length;
      size := SizeOf(f);
      ModrmLenIsOperand(memory, rip + |Head(i)| + |Opcode(i.form)|, i.operand);
      hide StandsAt, Encode, OperandBytes, DecodeModrmLen, Head, Opcode;
      var modrmLen := DecodeModrmLen(memory, opcode + 1);
      if memory(opcode) == 0x89 || memory(opcode) == 0x88 {
        if memory(opcode) == 0x88 {
          size := 1;
        }
        rip := rip + f.length + 1 + modrmLen;
        return true, size;
      }
      if memory(opcode) == 0xC7 {
        rip := rip + f.length + 1 + modrmLen + (if f.has66 then 2 else 4);
        return true, size;
      }
      if memory(opcode) == 0xC6 {
        rip := rip + f.length + 1 + modrmLen + 1;
        return true, 1;
      }
      return false, 0;
    }

    /** The AC'97 page's own decoder, which also knows the byte forms of ADD, OR, AND, SUB and
        XOR with an immediate; `stored` is whether the store itself succeeded. */
    method Ac97HandleWrite(ghost i: Instruction, stored: bool) returns (ok: bool, size: nat)
      requires i.Valid() && StandsAt(memory, rip, Encode(i))
      modifies this`rip
      ensures ok <==> stored && (IsMovStore(i.form) || (i.form.Group1Imm8? && i.operand.reg !in {2, 3, 7}))
      ensures ok ==> size == Width(i) && rip == old(rip) + Advance(i)
      ensures !ok ==> rip == old(rip)
    {
      Parts(memory, rip, i);
      OpcodeStands(memory, rip + |Head(i)|, i.form);
      var f := ScanPrefixes(i);
      var opcode := rip + f.length;
      size := SizeOf(f);
      ModrmLenIsOperand(memory, rip + |Head(i)| + |Opcode(i.form)|, i.operand);
      hide StandsAt, Encode, OperandBytes, DecodeModrmLen, Head, Opcode;
      var modrmLen := DecodeModrmLen(memory, opcode + 1);
      if memory(opcode) == 0x89 || memory(opcode) == 0x88 {
        if memory(opcode) == 0x88 {
          size := 1;
        }
        if !stored {
          return false, size;
        }
        rip := rip + f.length + 1 + modrmLen;
        return true, size;
      }
      if memory(opcode) == 0xC7 {
        if !stored {
          return false, size;
        }
        rip := rip + f.length + 1 + modrmLen + (if f.has66 then 2 else 4);
        return true, size;
      }
      if memory(opcode) == 0x80 {
        var op := memory(opcode + 1) / 8 % 8;
        if op == 7 || op == 2 || op == 3 {
          return false, 1;
        }
        if !stored {
          return false, 1;
        }
        rip := rip + f.length + 1 + modrmLen + 1;
        return true, 1;
      }
      if memory(opcode) == 0xC6 {
        if !stored {
          return false, 1;
        }
        rip := rip + f.length + 1 + modrmLen + 1;
        return true, 1;
      }
      return false, 0;
    }

    /** The APU page's decoder: stores, loads and the read-modify-write forms. */
    method ApuDecodeAndHandle(ghost i: Instruction, attached: bool) returns (ok: bool, size: nat)
      requires i.Valid() && StandsAt(memory, rip, Encode(i))
      modifies this`rip
      ensures ok <==> attached && !i.form.Group1Imm8?
      ensures ok ==> size == Width(i) && rip == old(rip) + Advance(i)
      ensures !ok ==> rip == old(rip)
    {
      if !attached {
        return false, 0;
      }
      Parts(memory, rip, i);
      OpcodeStands(memory, rip + |Head(i)|, i.form);
      var f := ScanPrefixes(i);
      var opcode := rip + f.length;
      size := SizeOf(f);
      ModrmLenIsOperand(memory, rip + |Head(i)| + |Opcode(i.form)|, i.operand);
      hide StandsAt, Encode, OperandBytes, DecodeModrmLen, Head, Opcode;
      var b := memory(opcode);
      if b == 0x89 || b == 0x88 {
        if b == 0x88 {
          size := 1;
        }
        rip := rip + f.length + 1 + DecodeModrmLen(memory, opcode + 1);
        return true, size;
      }
      if b == 0xC7 {
        rip := rip + f.length + 1 + DecodeModrmLen(memory, opcode + 1) + (if f.has66 then 2 else 4);
        return true, size;
      }
      if b == 0xC6 {
        rip := rip + f.length + 1 + DecodeModrmLen(memory, opcode + 1) + 1;
        return true, 1;
      }
      if b == 0x0F && memory(opcode + 1) == 0xB6 {
        rip := rip + f.length + 2 + DecodeModrmLen(memory, opcode + 2);
        return true, 1;
      }
      if b == 0x0F && memory(opcode + 1) == 0xB7 {
        rip := rip + f.length + 2 + DecodeModrmLen(memory, opcode + 2);
        return true, 2;
      }
      if b == 0x8B || b == 0x8A || b == 0x85 || b == 0x84 || b == 0x39 || b == 0x38 || b == 0x09 || b == 0x08 || b == 0x21 || b == 0x20 {
        if b == 0x8A || b == 0x84 || b == 0x38 || b == 0x08 || b == 0x20 {
          size := 1;
        }
        rip := rip + f.length + 1 + DecodeModrmLen(memory, opcode + 1);
        return true, size;
      }
      return false, 0;
    }
  }

  lemma {:induction false} HeadByte(i: Instruction, k: nat)
    requires k < |Head(i)|
    ensures k < |i.prefixes| ==> Head(i)[k] == PrefixByte(i.prefixes[k])
    ensures k >= |i.prefixes| ==> i.rex.Rex? && k == |i.prefixes| && Head(i)[k] == RexBytes(i.rex)[0] && IsRex(Head(i)[k])
    ensures IsPrefix(Head(i)[k])
  {
    if k >= |i.prefixes| { RexByte(i.rex); }
  }

  lemma {:induction false} OpcodeStands(m: Memory, at: nat, f: Form)
    requires StandsAt(m, at, Opcode(f))
    ensures |Opcode(f)| == (if m(at) == 0x0F then 2 else 1)
    ensures m(at) == 0x88 <==> f.StoreReg8?
    ensures m(at) == 0x89 <==> f.StoreReg?
    ensures m(at) == 0xC6 <==> f.StoreImm8?
    ensures m(at) == 0xC7 <==> f.StoreImm?
    ensures m(at) == 0x80 <==> f.Group1Imm8?
    ensures m(at) == 0x0F && m(at + 1) == 0xB6 <==> f.MovzxByte?
    ensures m(at) == 0x0F && m(at + 1) == 0xB7 <==> f.MovzxWord?
    ensures m(at) in {0x8B, 0x85, 0x39, 0x09, 0x21} <==> f.LoadReg? || f.Test? || f.Cmp? || f.Or? || f.And?
    ensures m(at) in {0x8A, 0x84, 0x38, 0x08, 0x20} <==> f.LoadReg8? || f.Test8? || f.Cmp8? || f.Or8? || f.And8?
  {
    assert m(at + 0) == Opcode(f)[0];
    if |Opcode(f)| == 2 { assert m(at + 1) == Opcode(f)[1]; }
  }
}
