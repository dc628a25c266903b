/** One CPU of the board: its instruction set, its registers, and what one instruction or one trap
    does to them. Everything outside the core is a parameter: `Bus` holds what the board answers to
    the accesses of one instruction, `Fpu` the floating-point unit, whose registers hold bits. */
module Cpu {
  import opened Words

  type uint64 = x: int | 0 <= x < 0x1_0000_0000_0000_0000
  type ScalarFile = r: seq<int64> | |r| == 16 witness seq(16, i => 0)
  type FloatFile = f: seq<uint32> | |f| == 16 witness seq(16, i => 0)
  type Row = v: seq<uint32> | |v| == 64 witness seq(64, i => 0)
  type VectorFile = v: seq<Row> | |v| == 8 witness ZERO_ROWS
  type Mask = m: seq<bool> | |m| == 64 witness seq(64, i => false)
  type VLen = n: int | 0 <= n <= 64

  const VLMAX := 64
  const MAX_INSTR := 4096
  const ZERO_ROW: Row := seq(64, i => 0)
  const ZERO_ROWS: seq<Row> := seq<Row>(8, i => ZERO_ROW)

  /** The program status word: its four named bits, and the others, which software may use. */
  datatype Psw = Psw(ie: bool, vdirty: bool, fdirty: bool, bank: bool, high: High)
  type High = h: int | 0 <= h < 0x1000_0000_0000_0000

  function PswOf(w: uint64): Psw {
    var (w1, w2, w3) := (w / 2, w / 2 / 2, w / 2 / 2 / 2);
    Psw(w % 2 == 1, w1 % 2 == 1, w2 % 2 == 1, w3 % 2 == 1, w3 / 2)
  }

  function Bit(b: bool): int { if b then 1 else 0 }

  function PswWord(p: Psw): uint64 {
    Bit(p.ie) + 2 * (Bit(p.vdirty) + 2 * (Bit(p.fdirty) + 2 * (Bit(p.bank) + 2 * p.high)))
  }

  lemma UnsignedOfWrap(w: uint64)
    ensures Unsigned(Wrap64(w)) == w
  {
  }

  lemma Halve(b: bool, h: nat)
    ensures (Bit(b) + 2 * h) % 2 == Bit(b) && (Bit(b) + 2 * h) / 2 == h
  {
  }

  /** Reading the status word into a register and writing it back loses nothing. */
  lemma PswRoundTrip(p: Psw)
    ensures PswOf(Unsigned(Wrap64(PswWord(p)))) == p
  {
    UnsignedOfWrap(PswWord(p));
    var w3 := Bit(p.bank) + 2 * p.high;
    var w2 := Bit(p.fdirty) + 2 * w3;
    var w1 := Bit(p.vdirty) + 2 * w2;
    Halve(p.ie, w1);
    Halve(p.vdirty, w2);
    Halve(p.fdirty, w3);
    Halve(p.bank, p.high);
  }

  datatype Dirt = NoDirt | VectorDirt | FloatDirt

  function Soil(p: Psw, d: Dirt): Psw {
    match d
    case NoDirt => p
    case VectorDirt => p.(vdirty := true)
    case FloatDirt => p.(fdirty := true)
  }

  datatype Op =
    | LI | MOV | ADD | SUB | MUL | ADDI | SLLI | SRLI | SRAI | AND | OR | XOR | DIV | REM
    | FLI | FLW | FSW | FADD | FMUL | FMACC | FMOV | FMIN | FMAX | FSUB | FDIV | FNEG | FSQRT
    | LW | SW | LD | SD | SETVL
    | BEQ | BNE | BLT | J | JAL | JALR
    | STI | CLI | RETI | MARK | SETHANDLER | SETTIMER
    | MFCAUSE | MFPSW | MTPSW | MFEPC | MTEPC | MFEPSW | MTEPSW | MFVL | MTVL | MFVMASK | MTVMASK
    | HALT
    | VLOAD | VLOADS | VSTORE | VLOADX | VSTOREX | VADD | VSUB | VMUL | VMACC | VSCALE
    | VREDSUM | VREDMAX | VREDMIN | VSPLAT | VCVT | VADDS | VMIN | VMAX
    | VMSLT | VMSGT | VMSEQ | VMERGE | VADDM | VSUBM | VMULM | VSTOREM
    | DUMPS | DUMPF | DUMPV | DUMPM | DUMPMASK

  datatype Instr = Instr(op: Op, a: int, b: int, c: int, imm: int, fimm: uint64, target: int32)

  // The register file an operand field indexes.
  datatype Kind = Free | Sc | Fl | Ve

  predicate InFile(k: Kind, i: int) {
    match k
    case Free => true
    case Sc => 0 <= i < 16
    case Fl => 0 <= i < 16
    case Ve => 0 <= i < 8
  }

  function Kinds(op: Op): (Kind, Kind, Kind) {
    match op
    case LI | MFCAUSE | MFPSW | MFEPC | MFEPSW | MFVL | MFVMASK | JAL => (Sc, Free, Free)
    case MOV | ADDI | SLLI | SRLI | SRAI | LW | SW | LD | SD | SETVL | JALR => (Sc, Sc, Free)
    case ADD | SUB | MUL | AND | OR | XOR | DIV | REM => (Sc, Sc, Sc)
    case FLI => (Fl, Free, Free)
    case FLW | FSW => (Fl, Sc, Free)
    case FADD | FMUL | FMACC | FMIN | FMAX | FSUB | FDIV => (Fl, Fl, Fl)
    case FMOV | FNEG | FSQRT => (Fl, Fl, Free)
    case BEQ | BNE | BLT => (Free, Sc, Sc)
    case SETTIMER | MTPSW | MTEPC | MTEPSW | MTVL | MTVMASK | DUMPS | DUMPM => (Free, Sc, Free)
    case VLOAD | VSTORE | VSTOREM => (Ve, Sc, Free)
    case VLOADS => (Ve, Sc, Sc)
    case VLOADX | VSTOREX => (Ve, Sc, Ve)
    case VADD | VSUB | VMUL | VMIN | VMAX | VMERGE | VADDM | VSUBM | VMULM => (Ve, Ve, Ve)
    case VMACC => (Ve, Fl, Ve)
    case VSCALE | VADDS => (Ve, Ve, Fl)
    case VREDSUM | VREDMAX | VREDMIN => (Fl, Ve, Free)
    case VSPLAT => (Ve, Fl, Free)
    case VCVT => (Ve, Ve, Free)
    case VMSLT | VMSGT | VMSEQ => (Free, Ve, Ve)
    case DUMPF => (Free, Fl, Free)
    case DUMPV => (Ve, Free, Free)
    case J | STI | CLI | RETI | MARK | SETHANDLER | HALT | DUMPMASK => (Free, Free, Free)
  }

  /** What the assembler's register parser guarantees of every instruction it encodes. */
  predicate Encoded(ins: Instr) {
    var (ka, kb, kc) := Kinds(ins.op);
    InFile(ka, ins.a) && InFile(kb, ins.b) && InFile(kc, ins.c)
  }

  /** What the board answers during one instruction: a word, a doubleword, the i-th float read,
      and whether the marker accepted a `mark`. */
  datatype Bus = Bus(word: int32, dword: int64, float: nat -> uint32, markOk: bool)

  datatype Fpu = Fpu(
    ofDouble: uint64 -> uint32, ofInt: int32 -> uint32,
    add: (uint32, uint32) -> uint32, sub: (uint32, uint32) -> uint32,
    mul: (uint32, uint32) -> uint32, div: (uint32, uint32) -> uint32,
    neg: uint32 -> uint32, sqrt: uint32 -> uint32,
    lt: (uint32, uint32) -> bool, eq: (uint32, uint32) -> bool,
    sum: seq<uint32> -> uint32, isZero: uint32 -> bool)

  datatype State = State(
    r: ScalarFile, f: FloatFile, altR: ScalarFile, altF: FloatFile,
    v: VectorFile, vl: VLen, vmask: Mask,
    pc: int64, halted: bool, psw: Psw, epc: int64, epsw: Psw, cause: int, handler: int32,
    timerPeriod: int64, timerNext: nat, trapDepth: nat, cycles: nat)

  /** A 64-bit word as the register holds it, read as unsigned. */
  function Unsigned(x: int64): uint64 { (x as int) % TWO64 }

  /** Bit i of a word, for every i. */
  function BitsOf(x: int64): Mask {
    seq(64, i requires 0 <= i < 64 => Unsigned(x) / Pow2(i) % 2 == 1)
  }

  function BitSum(bits: seq<bool>): nat {
    if bits == [] then 0 else (if bits[0] then 1 else 0) + 2 * BitSum(bits[1..])
  }

  function WordOf(m: Mask): int64 { Wrap64(BitSum(m)) }

  function And(x: int64, y: int64): int64 { WordOf(seq(64, i requires 0 <= i < 64 => BitsOf(x)[i] && BitsOf(y)[i])) }

  function Or(x: int64, y: int64): int64 { WordOf(seq(64, i requires 0 <= i < 64 => BitsOf(x)[i] || BitsOf(y)[i])) }

  function Xor(x: int64, y: int64): int64 { WordOf(seq(64, i requires 0 <= i < 64 => BitsOf(x)[i] != BitsOf(y)[i])) }

  function R(s: State, k: int): int
    requires 0 <= k < 16
  {
    s.r[k]
  }

  // r0 is hardwired to zero.
  function SetR(s: State, rd: int, x: int64): State
    requires 0 <= rd < 16
  {
    if rd == 0 then s else s.(r := s.r[rd := x])
  }

  function SetF(s: State, fd: int, x: uint32): State
    requires 0 <= fd < 16
  {
    s.(f := s.f[fd := x])
  }

  function Lane(row: Row, i: nat): uint32 { if i < 64 then row[i] else 0 }

  function Pick(first: bool, x: uint32, y: uint32): uint32 { if first then x else y }

  predicate MaskBit(m: Mask, i: nat) { i < 64 && m[i] }

  function Magnitude(x: int): (m: nat)
    ensures x != 0 ==> m > 0
  {
    if x < 0 then -x else x
  }

  // C division truncates toward zero; a zero divisor gives 0 here.
  function Quotient(x: int64, y: int64): int64 {
    if y == 0 then 0
    else
      var q := Magnitude(x) / Magnitude(y);
      Wrap64(if (x < 0) == (y < 0) then q else -q)
  }

  function Remainder(x: int64, y: int64): int64 {
    if y == 0 then 0 else Wrap64((x as int) - (y as int) * (Quotient(x, y) as int))
  }

  function Shl(x: int64, n: int): int64 { Wrap64((x as int) * Pow2(n % 64)) }

  function Shr(x: int64, n: int): int64 { Wrap64(Unsigned(x) / Pow2(n % 64)) }

  /** The arithmetic right shift, written as the division toward minus infinity it is. */
  function FloorShift(x: int64, n: int): int64 { Wrap64(x / Pow2(n % 64)) }

  function Pow2(n: nat): (p: nat)
    ensures p > 0
  {
    if n == 0 then 1 else 2 * Pow2(n - 1)
  }

  function ClampVl(x: int64): VLen { if x < 0 then 0 else if x > VLMAX then VLMAX else x }

  function Extreme(fpu: Fpu, row: Row, n: VLen, largest: bool): uint32 {
    if n == 0 then 0
    else if n == 1 then row[0]
    else
      var acc := Extreme(fpu, row, n - 1, largest);
      if (if largest then fpu.lt(acc, row[n - 1]) else fpu.lt(row[n - 1], acc)) then row[n - 1] else acc
  }

  // --- the banked registers ---------------------------------------------------------------

  predicate Banked(k: int) { 2 <= k < 16 && k != 14 }

  /** The register file with every banked entry taken from `alt`. */
  function Exchanged(r: ScalarFile, alt: ScalarFile): ScalarFile {
    seq(16, k requires 0 <= k < 16 => if Banked(k) then alt[k] else r[k])
  }

  function SwapBanks(s: State): State {
    s.(r := Exchanged(s.r, s.altR), altR := Exchanged(s.altR, s.r), f := s.altF, altF := s.f)
  }

  /** The whole status word is written: if the bank bit changes, the registers change. */
  function WritePsw(s: State, psw: Psw): State {
    (if s.psw.bank != psw.bank then SwapBanks(s) else s).(psw := psw)
  }

  // --- one instruction ----------------------------------------------------------------------

  /** The dirty bit an opcode raises before it executes. */
  function Dirties(op: Op): Dirt {
    match op
    case VLOAD | VLOADS | VLOADX | VADD | VSUB | VMUL | VMACC | VSCALE | VSPLAT | VADDS
      | VMIN | VMAX | VMERGE | VADDM | VSUBM | VMULM | VCVT | VMSLT | VMSGT | VMSEQ | SETVL => VectorDirt
    case FLI | FLW | FADD | FMUL | FMACC | FMOV | FMIN | FMAX | FSUB | FDIV | FNEG | FSQRT
      | VREDSUM | VREDMAX | VREDMIN => FloatDirt
    case _ => NoDirt
  }

  function TreeDepth(n: nat): nat { if n > 1 then 1 + TreeDepth((n + 1) / 2) else 0 }

  /** Cycles of one instruction; vector instructions pay a startup plus one cycle per lane. */
  function Cost(op: Op, vl: VLen): nat {
    match op
    case DIV | REM => 20
    case FLW | FSW | LW | SW | LD | SD => 4
    case FADD | FMUL | FMACC | FMOV | FMIN | FMAX | FSUB | FDIV | FNEG | FSQRT => 4
    case VLOAD | VLOADS | VSTORE | VSTOREM => 12 + vl
    case VLOADX | VSTOREX => 12 + 2 * vl
    case VADD | VSUB | VMUL | VMACC | VSCALE | VSPLAT | VADDS | VMIN | VMAX
      | VMSLT | VMSGT | VMSEQ | VMERGE | VADDM | VSUBM | VMULM | VCVT => 6 + vl
    case VREDSUM | VREDMAX | VREDMIN => 6 + vl + TreeDepth(vl)
    case DUMPS | DUMPF | DUMPV | DUMPM | DUMPMASK => 0
    case _ => 1
  }

  /** The value an integer instruction leaves in its destination register. */
  function IntegerResult(s: State, bus: Bus, ins: Instr): int64
    requires Encoded(ins)
  {
    match ins.op
    case LI => Wrap64(ins.imm)
    case MOV => s.r[ins.b]
    case ADD => Wrap64(R(s, ins.b) + R(s, ins.c))
    case SUB => Wrap64(R(s, ins.b) - R(s, ins.c))
    case MUL => Wrap64(R(s, ins.b) * R(s, ins.c))
    case ADDI => Wrap64(R(s, ins.b) + ins.imm)
    case SLLI => Shl(s.r[ins.b], ins.imm)
    case SRLI => Shr(s.r[ins.b], ins.imm)
    case SRAI => FloorShift(s.r[ins.b], ins.imm)
    case AND => And(s.r[ins.b], s.r[ins.c])
    case OR => Or(s.r[ins.b], s.r[ins.c])
    case XOR => Xor(s.r[ins.b], s.r[ins.c])
    case DIV => Quotient(s.r[ins.b], s.r[ins.c])
    case REM => Remainder(s.r[ins.b], s.r[ins.c])
    case LW => bus.word
    case LD => bus.dword
    case SETVL => ClampVl(s.r[ins.b])
    case MFCAUSE => Wrap64(s.cause)
    case MFPSW => Wrap64(PswWord(s.psw))
    case MFEPC => s.epc
    case MFEPSW => Wrap64(PswWord(s.epsw))
    case MFVL => s.vl
    case MFVMASK => WordOf(s.vmask)
    case _ => 0
  }

  function ExecInteger(s: State, bus: Bus, ins: Instr): State
    requires Encoded(ins) && UnitOf(ins.op) == IntegerUnit
  {
    SetR(if ins.op == SETVL then s.(vl := ClampVl(s.r[ins.b])) else s, ins.a, IntegerResult(s, bus, ins))
  }

  function ExecJump(s: State, ins: Instr): State
    requires Encoded(ins)
  {
    match ins.op
    case BEQ => if s.r[ins.b] == s.r[ins.c] then s.(pc := ins.target) else s
    case BNE => if s.r[ins.b] != s.r[ins.c] then s.(pc := ins.target) else s
    case BLT => if s.r[ins.b] < s.r[ins.c] then s.(pc := ins.target) else s
    case J => s.(pc := ins.target)
    case JAL => SetR(s, ins.a, s.pc).(pc := ins.target)
    case JALR => SetR(s, ins.a, s.pc).(pc := s.r[ins.b])
    case _ => s
  }

  /** After a `reti`. */
  function Unwound(s: State): State {
    var t := WritePsw(s.(pc := s.epc), s.epsw);
    t.(trapDepth := if t.trapDepth > 0 then t.trapDepth - 1 else 0)
  }

  function ExecStatus(s: State, ins: Instr): State
    requires Encoded(ins)
  {
    match ins.op
    case STI => s.(psw := s.psw.(ie := true))
    case CLI => s.(psw := s.psw.(ie := false))
    case RETI => Unwound(s)
    case MTPSW => WritePsw(s, PswOf(Unsigned(s.r[ins.b])))
    case MTEPC => s.(epc := s.r[ins.b])
    case MTEPSW => s.(epsw := PswOf(Unsigned(s.r[ins.b])))
    case _ => s
  }

  function ExecSystem(s: State, bus: Bus, ins: Instr): State
    requires Encoded(ins)
  {
    match ins.op
    case MARK => if bus.markOk then s else s.(halted := true)
    case SETHANDLER => s.(handler := ins.target)
    case SETTIMER =>
      s.(timerPeriod := s.r[ins.b], timerNext := s.cycles + if s.r[ins.b] > 0 then s.r[ins.b] else 0)
    case MTVL => s.(vl := ClampVl(s.r[ins.b]), psw := s.psw.(vdirty := true))
    case MTVMASK => s.(vmask := BitsOf(s.r[ins.b]), psw := s.psw.(vdirty := true))
    case HALT => s.(halted := true)
    case _ => s
  }

  function FloatResult(s: State, fpu: Fpu, bus: Bus, ins: Instr): uint32
    requires Encoded(ins)
  {
    match ins.op
    case FLI => fpu.ofDouble(ins.fimm)
    case FLW => bus.float(0)
    case FADD => fpu.add(s.f[ins.b], s.f[ins.c])
    case FMUL => fpu.mul(s.f[ins.b], s.f[ins.c])
    case FMACC => fpu.add(s.f[ins.a], fpu.mul(s.f[ins.b], s.f[ins.c]))
    case FMOV => s.f[ins.b]
    case FMIN => if fpu.lt(s.f[ins.b], s.f[ins.c]) then s.f[ins.b] else s.f[ins.c]
    case FMAX => if fpu.lt(s.f[ins.c], s.f[ins.b]) then s.f[ins.b] else s.f[ins.c]
    case FSUB => fpu.sub(s.f[ins.b], s.f[ins.c])
    case FDIV => if fpu.isZero(s.f[ins.c]) then 0 else fpu.div(s.f[ins.b], s.f[ins.c])
    case FNEG => fpu.neg(s.f[ins.b])
    case FSQRT => fpu.sqrt(s.f[ins.b])
    case VREDSUM => fpu.sum(s.v[ins.b][..s.vl])
    case VREDMAX => Extreme(fpu, s.v[ins.b], s.vl, true)
    case VREDMIN => Extreme(fpu, s.v[ins.b], s.vl, false)
    case _ => 0
  }

  /** What a vector instruction computes for each lane. */
  function LaneResult(s: State, fpu: Fpu, bus: Bus, ins: Instr, i: nat): uint32
    requires Encoded(ins)
  {
    match ins.op
    case VLOAD | VLOADS | VLOADX => bus.float(i)
    case VADD => fpu.add(Lane(s.v[ins.b], i), Lane(s.v[ins.c], i))
    case VSUB => fpu.sub(Lane(s.v[ins.b], i), Lane(s.v[ins.c], i))
    case VMUL => fpu.mul(Lane(s.v[ins.b], i), Lane(s.v[ins.c], i))
    case VMACC => fpu.add(Lane(s.v[ins.a], i), fpu.mul(s.f[ins.b], Lane(s.v[ins.c], i)))
    case VSCALE => fpu.mul(Lane(s.v[ins.b], i), s.f[ins.c])
    case VSPLAT => s.f[ins.b]
    case VCVT => fpu.ofInt(Wrap32(Lane(s.v[ins.b], i)))
    case VADDS => fpu.add(Lane(s.v[ins.b], i), s.f[ins.c])
    case VMIN =>
      Pick(fpu.lt(Lane(s.v[ins.b], i), Lane(s.v[ins.c], i)), Lane(s.v[ins.b], i), Lane(s.v[ins.c], i))
    case VMAX =>
      Pick(fpu.lt(Lane(s.v[ins.c], i), Lane(s.v[ins.b], i)), Lane(s.v[ins.b], i), Lane(s.v[ins.c], i))
    case VMERGE =>
      Pick(MaskBit(s.vmask, i), Lane(s.v[ins.b], i), Lane(s.v[ins.c], i))
    case VADDM =>
      Pick(MaskBit(s.vmask, i), fpu.add(Lane(s.v[ins.b], i), Lane(s.v[ins.c], i)), Lane(s.v[ins.a], i))
    case VSUBM =>
      Pick(MaskBit(s.vmask, i), fpu.sub(Lane(s.v[ins.b], i), Lane(s.v[ins.c], i)), Lane(s.v[ins.a], i))
    case VMULM =>
      Pick(MaskBit(s.vmask, i), fpu.mul(Lane(s.v[ins.b], i), Lane(s.v[ins.c], i)), Lane(s.v[ins.a], i))
    case _ => 0
  }

  /** What a comparison leaves in each bit of vmask. */
  function MaskResult(s: State, fpu: Fpu, ins: Instr, i: nat): bool
    requires Encoded(ins)
  {
    match ins.op
    case VMSLT => fpu.lt(Lane(s.v[ins.b], i), Lane(s.v[ins.c], i))
    case VMSGT => fpu.lt(Lane(s.v[ins.c], i), Lane(s.v[ins.b], i))
    case VMSEQ => fpu.eq(Lane(s.v[ins.b], i), Lane(s.v[ins.c], i))
    case _ => false
  }

  /** The first `vl` lanes of the destination recomputed, the others kept. */
  function Lanes(s: State, fpu: Fpu, bus: Bus, ins: Instr): Row
    requires Encoded(ins) && UnitOf(ins.op) == VectorUnit
  {
    seq(64, i requires 0 <= i < 64 => if i < s.vl then LaneResult(s, fpu, bus, ins, i) else s.v[ins.a][i])
  }

  /** vmask with the first `vl` bits set or cleared by the comparison. */
  function Compared(s: State, fpu: Fpu, ins: Instr): Mask
    requires Encoded(ins)
  {
    seq(64, i requires 0 <= i < 64 => if i < s.vl then MaskResult(s, fpu, ins, i) else s.vmask[i])
  }

  datatype Unit = IntegerUnit | JumpUnit | StatusUnit | SystemUnit | FloatUnit | VectorUnit | MaskUnit | NoUnit

  function UnitOf(op: Op): Unit {
    match op
    case LI | MOV | ADD | SUB | MUL | ADDI | SLLI | SRLI | SRAI | AND | OR | XOR | DIV | REM | LW | LD
      | SETVL | MFCAUSE | MFPSW | MFEPC | MFEPSW | MFVL | MFVMASK => IntegerUnit
    case BEQ | BNE | BLT | J | JAL | JALR => JumpUnit
    case STI | CLI | RETI | MTPSW | MTEPC | MTEPSW => StatusUnit
    case MARK | SETHANDLER | SETTIMER | MTVL | MTVMASK | HALT => SystemUnit
    case FLI | FLW | FADD | FMUL | FMACC | FMOV | FMIN | FMAX | FSUB | FDIV | FNEG | FSQRT
      | VREDSUM | VREDMAX | VREDMIN => FloatUnit
    case VLOAD | VLOADS | VLOADX | VADD | VSUB | VMUL | VMACC | VSCALE | VSPLAT | VCVT | VADDS
      | VMIN | VMAX | VMERGE | VADDM | VSUBM | VMULM => VectorUnit
    case VMSLT | VMSGT | VMSEQ => MaskUnit
    case FSW | SW | SD | VSTORE | VSTOREX | VSTOREM | DUMPS | DUMPF | DUMPV | DUMPM | DUMPMASK => NoUnit
  }

  function Exec(s: State, fpu: Fpu, bus: Bus, ins: Instr): State
    requires Encoded(ins)
  {
    match UnitOf(ins.op)
    case IntegerUnit => ExecInteger(s, bus, ins)
    case JumpUnit => ExecJump(s, ins)
    case StatusUnit => ExecStatus(s, ins)
    case SystemUnit => ExecSystem(s, bus, ins)
    case FloatUnit => SetF(s, ins.a, FloatResult(s, fpu, bus, ins))
    case VectorUnit => s.(v := s.v[ins.a := Lanes(s, fpu, bus, ins)])
    case MaskUnit => s.(vmask := Compared(s, fpu, ins))
    case NoUnit => s
  }

  /** What happens before the instruction proper: pc, cycles, dirty bits. */
  function Fetched(s: State, ins: Instr): State {
    s.(pc := Wrap64(s.pc + 1), cycles := s.cycles + Cost(ins.op, s.vl), psw := Soil(s.psw, Dirties(ins.op)))
  }

  function Step(s: State, fpu: Fpu, bus: Bus, ins: Instr): State
    requires Encoded(ins)
  {
    Exec(Fetched(s, ins), fpu, bus, ins)
  }

  /** A core: what one instruction makes of a state, given what comes from outside. */
  type Stepper<!I> = (State, I, Instr) -> State

  /** Everything is 0 before a program is loaded. */
  function PowerOn(): State {
    var none: ScalarFile, floats: FloatFile := seq(16, i => 0), seq(16, i => 0);
    State(none, floats, none, floats, ZERO_ROWS, 0, seq(64, i => false), 0, false, PswOf(0), 0, PswOf(0),
      0, 0, 0, 0, 0, 0)
  }

  /** A trap saves pc and status word, closes interrupts and jumps to the vector. It is free. */
  function Trap(s: State, cause: int): State {
    s.(epc := s.pc, epsw := s.psw, psw := s.psw.(ie := false), trapDepth := s.trapDepth + 1, cause := cause,
      pc := s.handler)
  }
}
