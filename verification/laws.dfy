/** Laws of the instruction set: what instructions promise of one another, whatever their encodings. */
module InstructionLaws {
  import opened Words
  import opened Cpu

  function Of(op: Op, a: int, b: int, c: int, imm: int, target: int32): Instr { Instr(op, a, b, c, imm, 0, target) }

  // --- branches -------------------------------------------------------------------------------------

  /** Whether a branch on registers x and y goes to its target. */
  predicate Jumps(s: State, fpu: Fpu, bus: Bus, op: Op, x: int, y: int, target: int32)
    requires op in {BEQ, BNE, BLT} && 0 <= x < 16 && 0 <= y < 16
  {
    Step(s, fpu, bus, Of(op, 0, x, y, 0, target)).pc == target
  }

  lemma JumpsWhen(s: State, fpu: Fpu, bus: Bus, op: Op, x: int, y: int, target: int32)
    requires op in {BEQ, BNE, BLT} && 0 <= x < 16 && 0 <= y < 16 && target != Wrap64(s.pc + 1)
    ensures Jumps(s, fpu, bus, op, x, y, target) ==
      if op == BEQ then s.r[x] == s.r[y] else if op == BNE then s.r[x] != s.r[y] else s.r[x] < s.r[y]
  {
  }

  /** Of `beq x, y`, `blt x, y` and `blt y, x` exactly one jumps, and `bne x, y` jumps when `beq x, y` does
      not; `blt` compares as signed 64-bit numbers. */
  lemma BranchesAreExclusive(s: State, fpu: Fpu, bus: Bus, x: int, y: int, target: int32)
    requires 0 <= x < 16 && 0 <= y < 16 && target != Wrap64(s.pc + 1)
    ensures var (eq, ne) := (Jumps(s, fpu, bus, BEQ, x, y, target), Jumps(s, fpu, bus, BNE, x, y, target));
      var (lt, gt) := (Jumps(s, fpu, bus, BLT, x, y, target), Jumps(s, fpu, bus, BLT, y, x, target));
      && (eq || lt || gt) && !(eq && lt) && !(eq && gt) && !(lt && gt) && ne == !eq
      && eq == (s.r[x] == s.r[y]) && lt == (s.r[x] < s.r[y]) && gt == (s.r[y] < s.r[x])
  {
    JumpsWhen(s, fpu, bus, BEQ, x, y, target);
    JumpsWhen(s, fpu, bus, BNE, x, y, target);
    JumpsWhen(s, fpu, bus, BLT, x, y, target);
    JumpsWhen(s, fpu, bus, BLT, y, x, target);
  }

  /** A branch taken or not changes only pc, and costs one cycle. */
  lemma BranchesOnlyGo(s: State, fpu: Fpu, bus: Bus, ins: Instr)
    requires Encoded(ins) && ins.op in {BEQ, BNE, BLT, J}
    ensures var t := Step(s, fpu, bus, ins);
      t == s.(pc := t.pc, cycles := s.cycles + 1) && t.pc in {ins.target as int, Wrap64(s.pc + 1)}
    ensures ins.op == J ==> Step(s, fpu, bus, ins).pc == ins.target
  {
  }

  /** A call leaves the address after it, and a jump to that register returns there. */
  lemma CallsReturn(s: State, fpu: Fpu, bus: Bus, ra: int, target: int32)
    requires 0 < ra < 16
    ensures var t := Step(s, fpu, bus, Of(JAL, ra, 0, 0, 0, target));
      t.pc == target && Step(t, fpu, bus, Of(JALR, 0, ra, 0, 0, 0)).pc == Wrap64(s.pc + 1)
  {
    JalLinks(s, fpu, bus, ra, target);
  }

  lemma JalLinks(s: State, fpu: Fpu, bus: Bus, ra: int, target: int32)
    requires 0 < ra < 16
    ensures Step(s, fpu, bus, Of(JAL, ra, 0, 0, 0, target)) ==
      s.(pc := target, r := s.r[ra := Wrap64(s.pc + 1)], cycles := s.cycles + 1)
  {
  }

  /** `jalr r, r` goes where the register pointed and leaves in it the address after itself. */
  lemma JalrExchanges(s: State, fpu: Fpu, bus: Bus, x: int)
    requires 0 < x < 16
    ensures var t := Step(s, fpu, bus, Of(JALR, x, x, 0, 0, 0));
      t.pc == s.r[x] && t.r == s.r[x := Wrap64(s.pc + 1)]
  {
  }

  // --- constants and sums ------------------------------------------------------------------------------

  /** `addi` adds what `li` loads. */
  lemma AddiAddsLi(s: State, t: State, bus: Bus, a: int, b: int, x: int, imm: int)
    requires 0 <= a < 16 && 0 <= b < 16 && 0 <= x < 16
    requires t.r[b] == s.r[b] && t.r[x] == IntegerResult(s, bus, Of(LI, x, 0, 0, imm, 0))
    ensures IntegerResult(t, bus, Of(ADD, a, b, x, 0, 0)) == IntegerResult(s, bus, Of(ADDI, a, b, 0, imm, 0))
  {
    WrapAdds(s.r[b], imm);
  }

  /** `li` leaves its constant, and r0 as it is. */
  lemma LiLoads(s: State, fpu: Fpu, bus: Bus, x: int, imm: int)
    requires 0 <= x < 16
    ensures Step(s, fpu, bus, Of(LI, x, 0, 0, imm, 0)).r == if x == 0 then s.r else s.r[x := Wrap64(imm)]
  {
  }

  /** `mov` is adding nothing. */
  lemma MovAddsNothing(s: State, fpu: Fpu, bus: Bus, a: int, b: int)
    requires 0 <= a < 16 && 0 <= b < 16
    ensures Step(s, fpu, bus, Of(MOV, a, b, 0, 0, 0)) == Step(s, fpu, bus, Of(ADDI, a, b, 0, 0, 0))
  {
  }

  lemma WrapAdds(x: int, y: int)
    ensures Wrap64(x + Wrap64(y)) == Wrap64(x + y)
  {
    var k := (y - Wrap64(y)) / TWO64;
    assert y == Wrap64(y) + k * TWO64;
    assert x + y + 0x8000_0000_0000_0000 == x + Wrap64(y) + 0x8000_0000_0000_0000 + k * TWO64;
  }

  /** Sums and products do not depend on the order. */
  lemma SumsCommute(s: State, fpu: Fpu, bus: Bus, op: Op, a: int, b: int, c: int)
    requires 0 < a < 16 && 0 <= b < 16 && 0 <= c < 16 && op in {ADD, MUL}
    ensures Step(s, fpu, bus, Of(op, a, b, c, 0, 0)) == Step(s, fpu, bus, Of(op, a, c, b, 0, 0))
  {
    var (i, k) := (Of(op, a, b, c, 0, 0), Of(op, a, c, b, 0, 0));
    assert Fetched(s, i) == Fetched(s, k);
    assert IntegerResult(Fetched(s, i), bus, i) == IntegerResult(Fetched(s, i), bus, k);
  }

  /** Shifts, bits and divisions by name: what each instruction asks of the two operands. */
  lemma NamedShifts(s: State, bus: Bus, a: int, b: int, n: int)
    requires 0 <= a < 16 && 0 <= b < 16
    ensures IntegerResult(s, bus, Of(SLLI, a, b, 0, n, 0)) == Shl(s.r[b], n)
    ensures IntegerResult(s, bus, Of(SRLI, a, b, 0, n, 0)) == Shr(s.r[b], n)
    ensures IntegerResult(s, bus, Of(SRAI, a, b, 0, n, 0)) == FloorShift(s.r[b], n)
  {
  }

  lemma NamedOperations(s: State, bus: Bus, a: int, b: int, c: int)
    requires 0 <= a < 16 && 0 <= b < 16 && 0 <= c < 16
    ensures IntegerResult(s, bus, Of(AND, a, b, c, 0, 0)) == And(s.r[b], s.r[c])
    ensures IntegerResult(s, bus, Of(OR, a, b, c, 0, 0)) == Or(s.r[b], s.r[c])
    ensures IntegerResult(s, bus, Of(XOR, a, b, c, 0, 0)) == Xor(s.r[b], s.r[c])
    ensures IntegerResult(s, bus, Of(DIV, a, b, c, 0, 0)) == Quotient(s.r[b], s.r[c])
    ensures IntegerResult(s, bus, Of(REM, a, b, c, 0, 0)) == Remainder(s.r[b], s.r[c])
  {
  }

  /** Multiplying by two adds a number to itself. */
  lemma TwiceIsDouble(s: State, bus: Bus, a: int, b: int, c: int)
    requires 0 <= a < 16 && 0 <= b < 16 && 0 <= c < 16 && s.r[c] == 2
    ensures IntegerResult(s, bus, Of(MUL, a, b, c, 0, 0)) == IntegerResult(s, bus, Of(ADD, a, b, b, 0, 0))
  {
  }

  lemma WrapShift(x: int, k: int)
    ensures Wrap64(x + k * TWO64) == Wrap64(x)
  {
  }

  lemma WrapTimes(x: int, y: int)
    ensures Wrap64(x * Wrap64(y)) == Wrap64(x * y)
  {
    var k := (y - Wrap64(y)) / TWO64;
    assert y == Wrap64(y) + k * TWO64;
    assert x * y == x * Wrap64(y) + (x * k) * TWO64;
    WrapShift(x * Wrap64(y), x * k);
  }

  /** Nothing times a number is nothing, and one time more is that number more. */
  lemma ProductsGrow(s: State, t: State, bus: Bus, a: int, b: int, c: int)
    requires 0 <= a < 16 && 0 <= b < 16 && 0 <= c < 16
    requires t.r[b] == s.r[b] && t.r[c] == Wrap64((s.r[c] as int) + 1)
    ensures var p := IntegerResult(s, bus, Of(MUL, a, b, c, 0, 0));
      && (s.r[c] == 0 ==> p == 0)
      && IntegerResult(t, bus, Of(MUL, a, b, c, 0, 0)) == Wrap64(p + s.r[b])
  {
    var (x, y) := (s.r[b] as int, s.r[c] as int);
    WrapTimes(x, y + 1);
    assert x * (y + 1) == x * y + x;
    WrapAdds(x, x * y);
  }

  /** Division and remainder by zero leave 0. */
  lemma DivisionByZero(s: State, fpu: Fpu, bus: Bus, a: int, b: int, c: int)
    requires 0 < a < 16 && 0 <= b < 16 && 0 <= c < 16 && s.r[c] == 0
    ensures Step(s, fpu, bus, Of(DIV, a, b, c, 0, 0)).r == s.r[a := 0]
    ensures Step(s, fpu, bus, Of(REM, a, b, c, 0, 0)).r == s.r[a := 0]
  {
  }

  // --- system registers ----------------------------------------------------------------------------------

  lemma WordOfPsw(w: uint64)
    ensures PswWord(PswOf(w)) == w
  {
    var (w1, w2, w3) := (w / 2, w / 2 / 2, w / 2 / 2 / 2);
    assert w == w % 2 + 2 * w1 && w1 == w1 % 2 + 2 * w2 && w2 == w2 % 2 + 2 * w3;
  }

  lemma WrapOfUnsigned(x: int64)
    ensures Wrap64(Unsigned(x)) == x
  {
  }

  /** What a system register holds, as a general register shows it. */
  function Shown(s: State, op: Op): int
    requires op in {MFEPC, MFEPSW, MFPSW, MFCAUSE}
  {
    match op
    case MFEPC => s.epc
    case MFEPSW => Wrap64(PswWord(s.epsw))
    case MFPSW => Wrap64(PswWord(s.psw))
    case _ => Wrap64(s.cause)
  }

  /** What is written to a system register is what it shows, */
  lemma EpcTakes(s: State, fpu: Fpu, bus: Bus, b: int)
    requires 0 <= b < 16
    ensures Shown(Step(s, fpu, bus, Of(MTEPC, 0, b, 0, 0, 0)), MFEPC) == s.r[b]
  {
  }

  lemma EpswTakes(s: State, fpu: Fpu, bus: Bus, b: int)
    requires 0 <= b < 16
    ensures Shown(Step(s, fpu, bus, Of(MTEPSW, 0, b, 0, 0, 0)), MFEPSW) == s.r[b]
  {
    WordOfPsw(Unsigned(s.r[b]));
    WrapOfUnsigned(s.r[b]);
  }

  lemma PswTakes(s: State, fpu: Fpu, bus: Bus, b: int)
    requires 0 <= b < 16
    ensures Shown(Step(s, fpu, bus, Of(MTPSW, 0, b, 0, 0, 0)), MFPSW) == s.r[b]
  {
    WordOfPsw(Unsigned(s.r[b]));
    WrapOfUnsigned(s.r[b]);
  }

  /** and what is read is what it shows. */
  lemma SystemRegisterGives(s: State, fpu: Fpu, bus: Bus, read: Op, a: int)
    requires read in {MFEPC, MFEPSW, MFPSW, MFCAUSE} && 0 < a < 16
    ensures Step(s, fpu, bus, Of(read, a, 0, 0, 0, 0)).r == s.r[a := Shown(s, read)]
  {
  }

  function Clamped(x: int): int { if x < 0 then 0 else if x <= 64 then x else 64 }

  /** The vector length is what was asked, between 0 and 64, whichever way it is set; `setvl` also says it. */
  lemma SetvlClamps(s: State, fpu: Fpu, bus: Bus, a: int, b: int)
    requires 0 < a < 16 && 0 <= b < 16
    ensures var t := Step(s, fpu, bus, Of(SETVL, a, b, 0, 0, 0));
      t.vl == Clamped(s.r[b]) && t.r == s.r[a := t.vl]
  {
  }

  lemma MtvlClamps(s: State, fpu: Fpu, bus: Bus, b: int)
    requires 0 <= b < 16
    ensures Step(s, fpu, bus, Of(MTVL, 0, b, 0, 0, 0)).vl == Clamped(s.r[b])
  {
  }

  lemma MfvlReads(s: State, fpu: Fpu, bus: Bus, a: int)
    requires 0 < a < 16
    ensures Step(s, fpu, bus, Of(MFVL, a, 0, 0, 0, 0)).r == s.r[a := s.vl]
  {
  }

  /** `sti` and `cli` open and close interrupts, and change nothing else of the status word. */
  lemma InterruptsOpenAndClose(s: State, fpu: Fpu, bus: Bus, open: bool)
    ensures Step(s, fpu, bus, Of(if open then STI else CLI, 0, 0, 0, 0, 0)).psw == s.psw.(ie := open)
  {
  }

  /** A trap goes to the handler set last, with interrupts closed; it records why and where from. */
  lemma TrapsGoToTheHandler(s: State, fpu: Fpu, bus: Bus, handler: int32, cause: int32)
    ensures var t := Trap(Step(s, fpu, bus, Of(SETHANDLER, 0, 0, 0, 0, handler)), cause);
      && t.pc == handler && !t.psw.ie && t.trapDepth == s.trapDepth + 1
      && Shown(t, MFCAUSE) == cause && Shown(t, MFEPC) == Wrap64(s.pc + 1)
      && Shown(t, MFEPSW) == Wrap64(PswWord(s.psw))
  {
  }

  /** `halt` stops, and so does a `mark` that is refused; one that is accepted only passes. */
  lemma HaltStops(s: State, fpu: Fpu, bus: Bus, mark: bool)
    ensures Step(s, fpu, bus, Of(if mark then MARK else HALT, 0, 0, 0, 0, 0)).halted ==
      (s.halted || !mark || !bus.markOk)
  {
  }

  // --- vectors, lane by lane -------------------------------------------------------------------------------

  /** The scalar instruction that does to two floats what a vector instruction does to two rows. */
  function ScalarFor(op: Op): Op
    requires op in {VADD, VSUB, VMUL, VMIN, VMAX}
  {
    match op
    case VADD => FADD
    case VSUB => FSUB
    case VMUL => FMUL
    case VMIN => FMIN
    case _ => FMAX
  }

  /** What the scalar arithmetic is: the unit's operation on the second and the third operand. */
  lemma ScalarsAsk(s: State, fpu: Fpu, bus: Bus, a: int, b: int, c: int)
    requires 0 <= a < 16 && 0 <= b < 16 && 0 <= c < 16
    ensures FloatResult(s, fpu, bus, Of(FADD, a, b, c, 0, 0)) == fpu.add(s.f[b], s.f[c])
    ensures FloatResult(s, fpu, bus, Of(FSUB, a, b, c, 0, 0)) == fpu.sub(s.f[b], s.f[c])
    ensures FloatResult(s, fpu, bus, Of(FMUL, a, b, c, 0, 0)) == fpu.mul(s.f[b], s.f[c])
    ensures FloatResult(s, fpu, bus, Of(FDIV, a, b, c, 0, 0)) ==
      if fpu.isZero(s.f[c]) then 0 else fpu.div(s.f[b], s.f[c])
  {
  }

  /** A float instruction leaves its result in its register, and changes no other. */
  lemma FloatsStep(s: State, fpu: Fpu, bus: Bus, ins: Instr)
    requires Encoded(ins) && UnitOf(ins.op) == FloatUnit
    ensures Exec(s, fpu, bus, ins) == s.(f := s.f[ins.a := FloatResult(s, fpu, bus, ins)])
  {
  }

  /** Lane i of a vector instruction is what the scalar one makes of the lanes i of its operands. */
  lemma LanesAreScalars(s: State, t: State, fpu: Fpu, bus: Bus, op: Op, a: int, b: int, c: int, i: nat)
    requires op in {VADD, VSUB, VMUL, VMIN, VMAX} && 0 <= a < 8 && 0 <= b < 8 && 0 <= c < 8 && i < s.vl
    requires t.f[1] == s.v[b][i] && t.f[2] == s.v[c][i]
    ensures LaneResult(s, fpu, bus, Of(op, a, b, c, 0, 0), i)
         == FloatResult(t, fpu, bus, Of(ScalarFor(op), 0, 1, 2, 0, 0))
  {
  }

  /** A vector instruction leaves those lanes, and the ones from vl on as they were. */
  lemma VectorsStep(s: State, fpu: Fpu, bus: Bus, ins: Instr, i: nat)
    requires Encoded(ins) && UnitOf(ins.op) == VectorUnit && i < 64
    ensures Step(s, fpu, bus, ins).v[ins.a][i] ==
      if i < s.vl then LaneResult(Fetched(s, ins), fpu, bus, ins, i) else s.v[ins.a][i]
  {
  }

  predicate SplatFor(scaled: Op, plain: Op) {
    (scaled == VSCALE && plain == VMUL) || (scaled == VADDS && plain == VADD)
  }

  /** With one float operand: the same as with a row that holds it in every lane. */
  lemma ScalarsAreSplat(
      s: State, t: State, fpu: Fpu, bus: Bus, scaled: Op, plain: Op, a: int, b: int, k: int, c: int, i: nat)
    requires SplatFor(scaled, plain) && 0 <= a < 8 && 0 <= b < 8 && 0 <= c < 8 && 0 <= k < 16 && i < s.vl
    requires t.v[b] == s.v[b] && t.v[c][i] == s.f[k]
    ensures LaneResult(s, fpu, bus, Of(scaled, a, b, k, 0, 0), i)
         == LaneResult(t, fpu, bus, Of(plain, a, b, c, 0, 0), i)
  {
  }

  lemma SplatFills(s: State, fpu: Fpu, bus: Bus, c: int, k: int, i: nat)
    requires 0 <= c < 8 && 0 <= k < 16 && i < s.vl
    ensures LaneResult(s, fpu, bus, Of(VSPLAT, c, k, 0, 0, 0), i) == s.f[k]
  {
  }

  /** Multiply and accumulate is a product and a sum, in lanes and in scalars. */
  lemma AccumulatesProducts(s: State, fpu: Fpu, bus: Bus, a: int, b: int, c: int, va: int, vc: int, i: nat)
    requires 0 <= a < 16 && 0 <= b < 16 && 0 <= c < 16 && 0 <= va < 8 && 0 <= vc < 8 && i < s.vl
    ensures FloatResult(s, fpu, bus, Of(FMACC, a, b, c, 0, 0)) == fpu.add(s.f[a], fpu.mul(s.f[b], s.f[c]))
    ensures LaneResult(s, fpu, bus, Of(VMACC, va, b, vc, 0, 0), i) ==
      fpu.add(s.v[va][i], fpu.mul(s.f[b], s.v[vc][i]))
  {
  }

  function Masked(op: Op): Op
    requires op in {VADDM, VSUBM, VMULM}
  {
    if op == VADDM then VADD else if op == VSUBM then VSUB else VMUL
  }

  /** A masked instruction is the plain one in the lanes whose bit is set, and nothing in the others. */
  lemma MasksChooseLanes(s: State, fpu: Fpu, bus: Bus, op: Op, a: int, b: int, c: int, i: nat)
    requires op in {VADDM, VSUBM, VMULM} && 0 <= a < 8 && 0 <= b < 8 && 0 <= c < 8 && i < s.vl
    ensures LaneResult(s, fpu, bus, Of(op, a, b, c, 0, 0), i) ==
      if s.vmask[i] then LaneResult(s, fpu, bus, Of(Masked(op), a, b, c, 0, 0), i) else s.v[a][i]
  {
  }

  /** Comparing and merging is choosing: `vmslt b, c` and `vmerge a, b, c` are `vmin a, b, c`, */
  lemma MergingTakesTheLesser(s: State, t: State, fpu: Fpu, bus: Bus, a: int, b: int, c: int, i: nat)
    requires 0 <= a < 8 && 0 <= b < 8 && 0 <= c < 8 && i < s.vl && t.v == s.v
    requires t.vmask[i] == MaskResult(s, fpu, Of(VMSLT, 0, b, c, 0, 0), i)
    ensures LaneResult(t, fpu, bus, Of(VMERGE, a, b, c, 0, 0), i) == LaneResult(s, fpu, bus, Of(VMIN, a, b, c, 0, 0), i)
  {
  }

  /** and with `vmsgt b, c` they are `vmax`. */
  lemma MergingTakesTheGreater(s: State, t: State, fpu: Fpu, bus: Bus, a: int, b: int, c: int, i: nat)
    requires 0 <= a < 8 && 0 <= b < 8 && 0 <= c < 8 && i < s.vl && t.v == s.v
    requires t.vmask[i] == MaskResult(s, fpu, Of(VMSGT, 0, b, c, 0, 0), i)
    ensures LaneResult(t, fpu, bus, Of(VMERGE, a, b, c, 0, 0), i) == LaneResult(s, fpu, bus, Of(VMAX, a, b, c, 0, 0), i)
  {
  }

  /** A comparison leaves the bits of the lanes in use, and the others as they were. */
  lemma ComparisonsStep(s: State, fpu: Fpu, bus: Bus, ins: Instr, i: nat)
    requires Encoded(ins) && UnitOf(ins.op) == MaskUnit && i < 64
    ensures Step(s, fpu, bus, ins).vmask[i] ==
      if i < s.vl then MaskResult(Fetched(s, ins), fpu, ins, i) else s.vmask[i]
  {
  }

  lemma ComparisonsAsk(s: State, fpu: Fpu, b: int, c: int, i: nat)
    requires 0 <= b < 8 && 0 <= c < 8 && i < s.vl
    ensures MaskResult(s, fpu, Of(VMSLT, 0, b, c, 0, 0), i) == fpu.lt(s.v[b][i], s.v[c][i])
    ensures MaskResult(s, fpu, Of(VMSGT, 0, b, c, 0, 0), i) == fpu.lt(s.v[c][i], s.v[b][i])
    ensures MaskResult(s, fpu, Of(VMSEQ, 0, b, c, 0, 0), i) == fpu.eq(s.v[b][i], s.v[c][i])
  {
  }

  /** One float stands before another: less, or greater when the greatest is sought. */
  predicate Before(fpu: Fpu, largest: bool, x: uint32, y: uint32) { if largest then fpu.lt(y, x) else fpu.lt(x, y) }

  /** The unit orders these floats: none before itself, and what is not before one does not come before what
      that one is not before. */
  ghost predicate Ordered(fpu: Fpu, largest: bool, xs: set<uint32>) {
    && (forall x | x in xs :: !Before(fpu, largest, x, x))
    && (forall x, y | x in xs && y in xs && Before(fpu, largest, x, y) :: !Before(fpu, largest, y, x))
    && (forall x, y, z | x in xs && y in xs && z in xs && !Before(fpu, largest, x, y) && !Before(fpu, largest, y, z) ::
          !Before(fpu, largest, x, z))
  }

  function Firsts(row: Row, n: VLen): set<uint32> { set i | 0 <= i < n :: row[i] }

  ghost predicate NoneBefore(fpu: Fpu, largest: bool, xs: set<uint32>, x: uint32) {
    forall y | y in xs :: !Before(fpu, largest, y, x)
  }

  lemma OneMoreLane(fpu: Fpu, largest: bool, xs: set<uint32>, acc: uint32, x: uint32)
    requires Ordered(fpu, largest, xs + {x}) && acc in xs && NoneBefore(fpu, largest, xs, acc)
    ensures NoneBefore(fpu, largest, xs + {x}, if Before(fpu, largest, x, acc) then x else acc)
  {
    forall y | y in xs + {x}
      ensures !Before(fpu, largest, y, if Before(fpu, largest, x, acc) then x else acc)
    {
      if Before(fpu, largest, x, acc) && y in xs && y != x {
        assert !Before(fpu, largest, y, acc) && !Before(fpu, largest, acc, x);
      }
    }
  }

  /** The reductions give a lane that no other lane comes before. */
  lemma {:induction false} ReductionIsExtreme(fpu: Fpu, row: Row, n: VLen, largest: bool)
    requires n > 0 && Ordered(fpu, largest, Firsts(row, n))
    ensures var x := Extreme(fpu, row, n, largest);
      x in Firsts(row, n) && NoneBefore(fpu, largest, Firsts(row, n), x)
    decreases n
  {
    if n > 1 {
      assert Firsts(row, n) == Firsts(row, n - 1) + {row[n - 1]};
      ReductionIsExtreme(fpu, row, n - 1, largest);
      OneMoreLane(fpu, largest, Firsts(row, n - 1), Extreme(fpu, row, n - 1, largest), row[n - 1]);
    } else {
      assert Firsts(row, n) == {row[0]};
    }
  }

  /** Which reduction is which; the sum is one operation of the unit on the lanes in use. */
  lemma MaximaAreExtreme(s: State, fpu: Fpu, bus: Bus, largest: bool, a: int, b: int)
    requires 0 <= a < 16 && 0 <= b < 8
    ensures FloatResult(s, fpu, bus, Of(if largest then VREDMAX else VREDMIN, a, b, 0, 0, 0)) ==
      Extreme(fpu, s.v[b], s.vl, largest)
  {
  }

  lemma SumsAreOfLanes(s: State, fpu: Fpu, bus: Bus, a: int, b: int)
    requires 0 <= a < 16 && 0 <= b < 8
    ensures FloatResult(s, fpu, bus, Of(VREDSUM, a, b, 0, 0, 0)) == fpu.sum(s.v[b][..s.vl])
  {
  }

  // --- time --------------------------------------------------------------------------------------------------

  /** What instructions cost, relative to one another: a division is twenty sums, an access four, */
  lemma ScalarCosts(vl: VLen)
    ensures Cost(ADD, vl) == 1 && Cost(BEQ, vl) == 1 && Cost(RETI, vl) == 1 && Cost(HALT, vl) == 1
    ensures Cost(DIV, vl) == 20 && Cost(REM, vl) == 20
  {
  }

  lemma AccessCosts(vl: VLen, op: Op)
    requires op in {LW, SW, LD, SD, FLW, FSW, FADD, FDIV, FSQRT}
    ensures Cost(op, vl) == 4
  {
  }

  /** a vector its lanes, whether masked or not, and a reduction its tree besides, */
  lemma VectorCosts(vl: VLen)
    ensures Cost(VADD, vl) == 6 + vl && Cost(VADDM, vl) == Cost(VADD, vl)
    ensures Cost(VREDSUM, vl) == Cost(VADD, vl) + TreeDepth(vl)
  {
  }

  /** a vector access six more, and a gather its lanes twice. */
  lemma VectorAccessCosts(vl: VLen)
    ensures Cost(VLOAD, vl) == 12 + vl && Cost(VSTORE, vl) == Cost(VLOAD, vl)
    ensures Cost(VLOADX, vl) == Cost(VLOAD, vl) + vl && Cost(VSTOREX, vl) == Cost(VLOADX, vl)
  {
  }

  lemma DepthsOfTrees()
    ensures TreeDepth(0) == 0 && TreeDepth(1) == 0 && TreeDepth(2) == 1 && TreeDepth(3) == 2 && TreeDepth(64) == 6
  {
    assert TreeDepth(4) == 2 && TreeDepth(8) == 3 && TreeDepth(16) == 4 && TreeDepth(32) == 5;
  }

  // --- what comes from outside -----------------------------------------------------------------------------------

  /** Loads take what the board answers, lane by lane for vectors; a constant float is converted. */
  lemma LoadsTakeTheAnswer(s: State, fpu: Fpu, bus: Bus, a: int, b: int)
    requires 0 <= a < 8 && 0 <= b < 16
    ensures IntegerResult(s, bus, Of(LW, a, b, 0, 0, 0)) == bus.word
    ensures IntegerResult(s, bus, Of(LD, a, b, 0, 0, 0)) == bus.dword
    ensures FloatResult(s, fpu, bus, Of(FLW, a, b, 0, 0, 0)) == bus.float(0)
  {
  }

  lemma VectorLoadsTakeTheirLanes(s: State, fpu: Fpu, bus: Bus, op: Op, a: int, b: int, c: int, i: nat)
    requires op in {VLOAD, VLOADS, VLOADX} && 0 <= a < 8 && 0 <= b < 8 && 0 <= c < 8
    ensures LaneResult(s, fpu, bus, Of(op, a, b, c, 0, 0), i) == bus.float(i)
  {
  }

  /** Conversions: a double to a float, the word of a lane to a float. */
  lemma Conversions(s: State, fpu: Fpu, bus: Bus, a: int, b: int, x: uint64, i: nat)
    requires 0 <= a < 8 && 0 <= b < 8 && i < 64
    ensures FloatResult(s, fpu, bus, Instr(FLI, a, 0, 0, 0, x, 0)) == fpu.ofDouble(x)
    ensures LaneResult(s, fpu, bus, Of(VCVT, a, b, 0, 0, 0), i) == fpu.ofInt(Wrap32(s.v[b][i]))
  {
  }

  /** Of two floats `fmin` leaves one that the other is not less than, `fmax` one that is not less than the
      other, where the unit does not call each less than the other. */
  lemma LesserAndGreater(s: State, fpu: Fpu, bus: Bus, a: int, b: int, c: int)
    requires 0 <= a < 16 && 0 <= b < 16 && 0 <= c < 16
    requires !(fpu.lt(s.f[b], s.f[c]) && fpu.lt(s.f[c], s.f[b])) && !fpu.lt(s.f[b], s.f[b]) && !fpu.lt(s.f[c], s.f[c])
    ensures var x := FloatResult(s, fpu, bus, Of(FMIN, a, b, c, 0, 0));
      x in {s.f[b], s.f[c]} && !fpu.lt(s.f[b], x) && !fpu.lt(s.f[c], x)
    ensures var y := FloatResult(s, fpu, bus, Of(FMAX, a, b, c, 0, 0));
      y in {s.f[b], s.f[c]} && !fpu.lt(y, s.f[b]) && !fpu.lt(y, s.f[c])
  {
  }

  lemma OneOperand(s: State, fpu: Fpu, bus: Bus, a: int, b: int)
    requires 0 <= a < 16 && 0 <= b < 16
    ensures FloatResult(s, fpu, bus, Of(FMOV, a, b, 0, 0, 0)) == s.f[b]
    ensures FloatResult(s, fpu, bus, Of(FNEG, a, b, 0, 0, 0)) == fpu.neg(s.f[b])
    ensures FloatResult(s, fpu, bus, Of(FSQRT, a, b, 0, 0, 0)) == fpu.sqrt(s.f[b])
  {
  }

  /** The mask is written and read as the bits of a word. */
  lemma MaskTakes(s: State, fpu: Fpu, bus: Bus, b: int)
    requires 0 <= b < 16
    ensures Step(s, fpu, bus, Of(MTVMASK, 0, b, 0, 0, 0)).vmask == BitsOf(s.r[b])
  {
  }

  lemma MaskGives(s: State, fpu: Fpu, bus: Bus, a: int)
    requires 0 < a < 16
    ensures Step(s, fpu, bus, Of(MFVMASK, a, 0, 0, 0, 0)).r == s.r[a := WordOf(s.vmask)]
  {
  }
}
