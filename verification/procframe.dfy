/** `.proc`: the assembler scans a procedure's body for the scalar registers it writes and wraps it
    in code that saves and restores exactly those, each as a whole doubleword. */
module ProcFrame {
  import opened Words
  import opened Cpu
  import opened Memory
  import opened Folding

  const SP := 14
  const RA := 15

  // --- the scan and the code it produces ---------------------------------------------------

  /** The mnemonics the scan knows to write their first operand. */
  predicate Recognised(op: Op) {
    op in {LI, MOV, ADD, SUB, MUL, ADDI, SLLI, SRLI, SRAI, AND, OR, XOR, DIV, REM, LW, LD, SETVL,
      MFPSW, MFEPC, MFEPSW, MFVL, MFVMASK}
  }

  /** They are all that leave an integer in a register, but one. */
  lemma AllButOne(op: Op)
    ensures Recognised(op) <==> UnitOf(op) == IntegerUnit && op != MFCAUSE
  {
  }

  /** A line of the body: the instruction the assembler makes of it, and what its first operand has
      after the number. The assembler reads a register up to its last digit and does not look further,
      so `r5x` is r5 to it. */
  datatype Line = Line(ins: Instr, tail: string)

  function Instrs(body: seq<Line>): (code: seq<Instr>)
    ensures |code| == |body|
  {
    seq(|body|, i requires 0 <= i < |body| => body[i].ins)
  }

  /** The scalar register, r1 to r13, that the scan sees a line write. The scan wants the operand to end
      with the number. */
  function ScalarDest(l: Line): int {
    if Recognised(l.ins.op) && l.tail == "" && 1 <= l.ins.a <= 13 then l.ins.a else -1
  }

  ghost predicate Writes(body: seq<Line>, r: int) { exists i | 0 <= i < |body| :: ScalarDest(body[i]) == r }

  function Plain(op: Op, a: int, b: int, imm: int): Instr { Instr(op, a, b, 0, imm, 0, 0) }

  function Push(r: int): seq<Instr> { [Plain(ADDI, SP, SP, -8), Plain(SD, r, SP, 0)] }

  function Pop(r: int): seq<Instr> { [Plain(LD, r, SP, 0), Plain(ADDI, SP, SP, 8)] }

  const RETURN := Plain(JALR, 0, RA, 0)

  function Save(regs: seq<int>): seq<Instr> {
    if regs == [] then [] else Push(regs[0]) + Save(regs[1..])
  }

  function Restore(regs: seq<int>): seq<Instr> {
    if regs == [] then [] else Restore(regs[1..]) + Pop(regs[0])
  }

  type Flags = f: seq<bool> | |f| == 14 witness seq(14, i => false)

  /** Which registers the scan of a body marks. */
  ghost function Scanned(body: seq<Line>): Flags { seq(14, r => Writes(body, r)) }

  /** The marked registers from r on, ascending. */
  function UsedFrom(flags: Flags, r: nat): seq<int>
    decreases |flags| - r
  {
    if r > 13 then [] else if flags[r] then [r] + UsedFrom(flags, r + 1) else UsedFrom(flags, r + 1)
  }

  function Saved(flags: Flags): seq<int> { [RA] + UsedFrom(flags, 1) }

  function ProcCode(flags: Flags, body: seq<Line>): seq<Instr> {
    Save(Saved(flags)) + Instrs(body) + Restore(Saved(flags)) + [RETURN]
  }

  lemma {:induction false} SaveSplit(x: seq<int>, y: seq<int>)
    ensures Save(x + y) == Save(x) + Save(y)
  {
    if x == [] {
      assert x + y == y;
    } else {
      SaveSplit(x[1..], y);
      assert (x + y)[1..] == x[1..] + y;
    }
  }

  lemma {:induction false} FrameLength(regs: seq<int>)
    ensures |Save(regs)| == 2 * |regs| && |Restore(regs)| == 2 * |regs|
  {
    if regs != [] {
      FrameLength(regs[1..]);
    }
  }

  /** The code lines of a unit under assembly. */
  class Listing {
    var code: seq<Instr>

    constructor ()
      ensures code == []
    {
      code := [];
    }

    method Emit(ins: Instr) returns (ok: bool)
      modifies this
      ensures ok == (|old(code)| < MAX_INSTR)
      ensures code == if ok then old(code) + [ins] else old(code)
    {
      ok := |code| < MAX_INSTR;
      if ok {
        code := code + [ins];
      }
    }

    method EmitAll(lines: seq<Instr>) returns (ok: bool)
      requires |code| <= MAX_INSTR
      modifies this
      ensures ok == (|old(code)| + |lines| <= MAX_INSTR) && |code| <= MAX_INSTR
      ensures ok ==> code == old(code) + lines
    {
      ok := true;
      for i := 0 to |lines|
        invariant |code| <= MAX_INSTR && code == old(code) + lines[..i]
      {
        ok := Emit(lines[i]);
        if !ok {
          return;
        }
      }
    }

    method ScanBody(body: seq<Line>) returns (used: array<bool>)
      ensures fresh(used) && used[..] == Scanned(body)
    {
      used := new bool[14](i => false);
      for i := 0 to |body|
        invariant forall r | 0 <= r < 14 :: used[r] == exists k | 0 <= k < i :: ScalarDest(body[k]) == r
      {
        var r := ScalarDest(body[i]);
        if 1 <= r <= 13 {
          used[r] := true;
        }
      }
      assert forall r | 0 <= r < 14 :: used[r] == Writes(body, r);
    }

    method EmitPrologue(used: array<bool>) returns (ok: bool)
      requires |code| <= MAX_INSTR && used.Length == 14
      modifies this
      ensures ok == (|old(code)| + |Save(Saved(used[..]))| <= MAX_INSTR) && |code| <= MAX_INSTR
      ensures ok ==> code == old(code) + Save(Saved(used[..]))
    {
      ghost var all := Saved(used[..]);
      FrameLength(all);
      ok := EmitAll(Push(RA));
      if !ok { return; }
      ghost var done := [RA];
      assert Save(done) == Push(RA);
      for r := 1 to 14
        invariant |code| <= MAX_INSTR && code == old(code) + Save(done)
        invariant all == done + UsedFrom(used[..], r)
      {
        if used[r] {
          SaveGrows(old(code), done, r);
          assert all == done + [r] + UsedFrom(used[..], r + 1);
          ok := EmitAll(Push(r));
          if !ok { return; }
          done := done + [r];
        }
      }
      assert done == all;
      ok := true;
    }

    method EmitEpilogue(used: array<bool>) returns (ok: bool)
      requires |code| <= MAX_INSTR && used.Length == 14
      modifies this
      ensures ok == (|old(code)| + |Restore(Saved(used[..]))| + 1 <= MAX_INSTR) && |code| <= MAX_INSTR
      ensures ok ==> code == old(code) + Restore(Saved(used[..])) + [RETURN]
    {
      ghost var all := Saved(used[..]);
      FrameLength(all);
      ghost var popped: seq<int> := [];
      var r := 13;
      while r >= 1
        invariant 0 <= r <= 13 && |code| <= MAX_INSTR
        invariant popped == UsedFrom(used[..], r + 1) && code == old(code) + Restore(popped)
      {
        UsedSuffix(used[..], r);
        if used[r] {
          RestoreGrows(old(code), popped, r);
          ok := EmitAll(Pop(r));
          if !ok { return; }
          popped := [r] + popped;
        }
        r := r - 1;
      }
      RestoreGrows(old(code), popped, RA);
      ok := EmitAll(Pop(RA) + [RETURN]);
    }

    /** `.endproc`: scans the buffered body, then emits prologue, body and matching epilogue. */
    method CloseProc(body: seq<Line>) returns (ok: bool)
      requires |code| <= MAX_INSTR
      modifies this
      ensures ok == (|old(code)| + |ProcCode(Scanned(body), body)| <= MAX_INSTR)
      ensures ok ==> code == old(code) + ProcCode(Scanned(body), body)
    {
      var used := ScanBody(body);
      ok := EmitPrologue(used);
      if !ok { return; }
      ok := EmitAll(Instrs(body));
      if !ok { return; }
      ok := EmitEpilogue(used);
    }
  }

  lemma SaveGrows(code: seq<Instr>, done: seq<int>, r: int)
    ensures code + Save(done) + Push(r) == code + Save(done + [r])
    ensures |Save(done)| == 2 * |done|
  {
    SaveSplit(done, [r]);
    FrameLength(done);
    assert Save([r]) == Push(r);
  }

  lemma RestoreGrows(code: seq<Instr>, popped: seq<int>, r: int)
    ensures code + Restore(popped) + Pop(r) == code + Restore([r] + popped)
    ensures |Restore(popped)| == 2 * |popped|
  {
    assert ([r] + popped)[1..] == popped;
    FrameLength(popped);
  }

  /** The suffixes of the used list are no longer than the list. */
  lemma {:induction false} UsedSuffix(flags: Flags, r: nat)
    requires 1 <= r <= 13
    ensures |UsedFrom(flags, r)| <= |UsedFrom(flags, 1)|
    decreases r
  {
    if r > 1 {
      UsedSuffix(flags, r - 1);
    }
  }

  lemma {:induction false} UsedIsExact(flags: Flags, r: nat)
    requires 1 <= r
    ensures forall k :: k in UsedFrom(flags, r) <==> r <= k <= 13 && flags[k]
    ensures forall i, j | 0 <= i < j < |UsedFrom(flags, r)| :: UsedFrom(flags, r)[i] < UsedFrom(flags, r)[j]
    decreases |flags| - r
  {
    if r <= 13 {
      UsedIsExact(flags, r + 1);
      var rest := UsedFrom(flags, r + 1);
      assert forall j | 0 <= j < |rest| :: rest[j] in rest && r < rest[j];
    }
  }

  // --- running the frame ---------------------------------------------------------------------

  type SizedRam = m: Ram | Sized(m) witness EmptyRam()

  datatype Machine = Machine(c: State, m: SizedRam)

  function Answer(d: int64): Bus { Bus(0, d, i => 0, true) }

  /** One instruction of a prologue or epilogue, on a CPU and its memory. */
  function FrameStep(x: Machine, fpu: Fpu, ins: Instr): Machine
    requires Encoded(ins) && ins.op in {ADDI, SD, LD, JALR}
  {
    var addr := Wrap64(R(x.c, ins.b) + ins.imm);
    if ins.op == LD then Machine(Step(x.c, fpu, Answer(Load64(x.m, addr)), ins), AfterLoad64(x.m, addr))
    else if ins.op == SD then Machine(Step(x.c, fpu, Answer(0), ins), Store64(x.m, addr, x.c.r[ins.a]))
    else Machine(Step(x.c, fpu, Answer(0), ins), x.m)
  }

  // An instruction of another kind stops the machine where it is: frames contain none.
  function FrameStepper(fpu: Fpu): (Machine, Instr) -> Machine {
    (x: Machine, ins: Instr) =>
      if Encoded(ins) && ins.op in {ADDI, SD, LD, JALR} then FrameStep(x, fpu, ins) else x
  }

  function FrameRun(x: Machine, fpu: Fpu, code: seq<Instr>): Machine { Fold(FrameStepper(fpu), x, code) }

  predicate Saveable(r: int) { 1 <= r <= 15 && r != SP }

  /** The j-th doubleword below sp. */
  function SlotAddr(sp: int, j: int): int { sp - 8 * (j + 1) }

  /** The n doublewords below sp are RAM. */
  ghost predicate Stack(sp: int, n: nat) { forall j | 0 <= j < n :: InRam(SlotAddr(sp, j), 8) }

  lemma StackBelow(sp: int, n: nat)
    requires n > 0 && Stack(sp, n)
    ensures InRam(sp - 8, 8) && Stack(sp - 8, n - 1)
  {
    assert SlotAddr(sp, 0) == sp - 8;
    assert forall j {:trigger SlotAddr(sp - 8, j)} | 0 <= j < n - 1 :: SlotAddr(sp - 8, j) == SlotAddr(sp, j + 1);
  }

  // The code runs on from pc to pc + n without wrapping.
  predicate Onward(pc: int, n: nat) { 0 <= pc && pc + n < 0x8000_0000 }

  lemma OneStep(x: Machine, fpu: Fpu, ins: Instr)
    requires Encoded(ins) && ins.op in {ADDI, SD, LD, JALR}
    ensures FrameRun(x, fpu, [ins]) == FrameStep(x, fpu, ins)
  {
    FoldOne(FrameStepper(fpu), x, ins);
  }

  lemma AddiRun(x: Machine, fpu: Fpu, imm: int)
    requires Onward(x.c.pc, 1)
    requires -0x8000_0000_0000_0000 <= R(x.c, SP) + imm < 0x8000_0000_0000_0000
    ensures var y := FrameRun(x, fpu, [Plain(ADDI, SP, SP, imm)]);
      y.c.r == x.c.r[SP := R(x.c, SP) + imm] && y.c.pc == x.c.pc + 1 && y.c.cause == x.c.cause && y.m == x.m
  {
    OneStep(x, fpu, Plain(ADDI, SP, SP, imm));
  }

  lemma SdRun(x: Machine, fpu: Fpu, r: int)
    requires Saveable(r) && Onward(x.c.pc, 1)
    ensures var y := FrameRun(x, fpu, [Plain(SD, r, SP, 0)]);
      && y.c.r == x.c.r && y.c.pc == x.c.pc + 1 && y.c.cause == x.c.cause
      && y.m == Store64(x.m, R(x.c, SP), x.c.r[r])
  {
    OneStep(x, fpu, Plain(SD, r, SP, 0));
  }

  lemma LdRun(x: Machine, fpu: Fpu, r: int)
    requires Saveable(r) && Onward(x.c.pc, 1)
    ensures var y := FrameRun(x, fpu, [Plain(LD, r, SP, 0)]);
      && y.c.r == x.c.r[r := Load64(x.m, R(x.c, SP))] && y.c.pc == x.c.pc + 1
      && y.m == AfterLoad64(x.m, R(x.c, SP))
  {
    OneStep(x, fpu, Plain(LD, r, SP, 0));
  }

  lemma ReturnStep(x: Machine, fpu: Fpu)
    ensures var y := FrameStep(x, fpu, RETURN); y.c.pc == x.c.r[RA] && y.c.r == x.c.r && y.m == x.m
  {
    var c := Fetched(x.c, RETURN);
    assert Exec(c, fpu, Answer(0), RETURN) == ExecJump(c, RETURN);
    assert ExecJump(c, RETURN).pc == c.r[RA];
  }

  lemma ReturnRun(x: Machine, fpu: Fpu)
    ensures var y := FrameRun(x, fpu, [RETURN]); y.c.pc == x.c.r[RA] && y.c.r == x.c.r && y.m == x.m
  {
    OneStep(x, fpu, RETURN);
    ReturnStep(x, fpu);
  }

  lemma PushRun(x: Machine, fpu: Fpu, r: int)
    requires Saveable(r) && InRam(R(x.c, SP) - 8, 8) && Onward(x.c.pc, 2)
    ensures var y := FrameRun(x, fpu, Push(r));
      && y.c.r == x.c.r[SP := R(x.c, SP) - 8] && y.c.pc == x.c.pc + 2 && y.c.cause == x.c.cause
      && y.m == Store64(x.m, R(x.c, SP) - 8, x.c.r[r])
  {
    FoldSplit(FrameStepper(fpu), x, [Plain(ADDI, SP, SP, -8)], [Plain(SD, r, SP, 0)]);
    AddiRun(x, fpu, -8);
    SdRun(FrameRun(x, fpu, [Plain(ADDI, SP, SP, -8)]), fpu, r);
  }

  lemma PopRun(x: Machine, fpu: Fpu, r: int)
    requires Saveable(r) && InRam(R(x.c, SP), 8) && Onward(x.c.pc, 2)
    ensures var y := FrameRun(x, fpu, Pop(r));
      && y.c.r == x.c.r[r := Load64(x.m, R(x.c, SP))][SP := R(x.c, SP) + 8] && y.c.pc == x.c.pc + 2
      && y.m == x.m
  {
    FoldSplit(FrameStepper(fpu), x, [Plain(LD, r, SP, 0)], [Plain(ADDI, SP, SP, 8)]);
    LdRun(x, fpu, r);
    AddiRun(FrameRun(x, fpu, [Plain(LD, r, SP, 0)]), fpu, 8);
  }

  ghost predicate AllSaveable(regs: seq<int>) { forall i | 0 <= i < |regs| :: Saveable(regs[i]) }

  /** `w` is `m` with the registers stored in the slots below sp, and nothing else in RAM changed. */
  ghost predicate Holds(m: Ram, w: Ram, r: ScalarFile, regs: seq<int>, sp: int)
    requires Sized(m) && Sized(w) && AllSaveable(regs)
  {
    && w.fault == m.fault
    && (forall j | 0 <= j < |regs| :: Load64(w, SlotAddr(sp, j)) == r[regs[j]])
    && (forall a | InRam(a, 8) && a >= sp :: Load64(w, a) == Load64(m, a))
  }

  lemma HoldsOneMore(m: Ram, w: Ram, r: ScalarFile, regs: seq<int>, sp: int)
    requires Sized(m) && Sized(w) && AllSaveable(regs) && regs != [] && InRam(sp - 8, 8)
    requires var m1 := Store64(m, sp - 8, r[regs[0]]); Holds(m1, w, r, regs[1..], sp - 8)
    ensures Holds(m, w, r, regs, sp)
  {
    var m1 := Store64(m, sp - 8, r[regs[0]]);
    Doubleword(m, sp - 8, r[regs[0]]);
    forall j | 0 <= j < |regs|
      ensures Load64(w, SlotAddr(sp, j)) == r[regs[j]]
    {
      if j > 0 {
        assert SlotAddr(sp, j) == SlotAddr(sp - 8, j - 1) && regs[j] == regs[1..][j - 1];
      } else {
        assert SlotAddr(sp, 0) == sp - 8;
      }
    }
    forall a | InRam(a, 8) && a >= sp
      ensures Load64(w, a) == Load64(m, a)
    {
      assert Apart(sp - 8, a, 8);
    }
  }

  /** The first register in its slot and the others, saved from a file that differs in r14, in theirs. */
  lemma HoldsPush(m: Ram, w: Ram, r: ScalarFile, q: ScalarFile, regs: seq<int>, sp: int)
    requires Sized(m) && Sized(w) && AllSaveable(regs) && regs != [] && InRam(sp - 8, 8)
    requires q == r[SP := q[SP]] && Holds(Store64(m, sp - 8, r[regs[0]]), w, q, regs[1..], sp - 8)
    ensures Holds(m, w, r, regs, sp)
  {
    forall j | 0 <= j < |regs| - 1
      ensures q[regs[1..][j]] == r[regs[1..][j]]
    {
      assert Saveable(regs[j + 1]);
    }
    HoldsOneMore(m, w, r, regs, sp);
  }

  /** `y` is `x` with the registers pushed: r14 below them, pc after the pushes. */
  ghost predicate Pushed(x: Machine, y: Machine, regs: seq<int>)
    requires AllSaveable(regs)
  {
    && R(y.c, SP) == R(x.c, SP) - 8 * |regs| && y.c.r == x.c.r[SP := y.c.r[SP]]
    && y.c.pc == x.c.pc + 2 * |regs| && y.c.cause == x.c.cause
    && Holds(x.m, y.m, x.c.r, regs, R(x.c, SP))
  }

  lemma PushedOneMore(x: Machine, x1: Machine, y: Machine, regs: seq<int>)
    requires AllSaveable(regs) && regs != [] && InRam(R(x.c, SP) - 8, 8)
    requires x1.c.r == x.c.r[SP := R(x.c, SP) - 8] && x1.c.pc == x.c.pc + 2 && x1.c.cause == x.c.cause
    requires x1.m == Store64(x.m, R(x.c, SP) - 8, x.c.r[regs[0]]) && Pushed(x1, y, regs[1..])
    ensures Pushed(x, y, regs)
  {
    HoldsPush(x.m, y.m, x.c.r, x1.c.r, regs, R(x.c, SP));
  }

  /** The prologue leaves every saved register whole in its slot and touches nothing at or above sp. */
  lemma {:induction false} SaveRun(x: Machine, fpu: Fpu, regs: seq<int>)
    requires AllSaveable(regs) && Stack(R(x.c, SP), |regs|) && Onward(x.c.pc, 2 * |regs|)
    ensures Pushed(x, FrameRun(x, fpu, Save(regs)), regs)
    decreases |regs|
  {
    if regs != [] {
      StackBelow(R(x.c, SP), |regs|);
      PushRun(x, fpu, regs[0]);
      var x1 := FrameRun(x, fpu, Push(regs[0]));
      SaveRun(x1, fpu, regs[1..]);
      FoldSplit(FrameStepper(fpu), x, Push(regs[0]), Save(regs[1..]));
      PushedOneMore(x, x1, FrameRun(x1, fpu, Save(regs[1..])), regs);
    }
  }

  ghost predicate Distinct(regs: seq<int>) { forall i, j | 0 <= i < j < |regs| :: regs[i] != regs[j] }

  /** The registers after the epilogue: the saved ones from their slots, the others as they were. */
  function Restored(r: ScalarFile, m: Ram, regs: seq<int>, sp: int): seq<int>
    requires Sized(m)
  {
    seq(16, k requires 0 <= k < 16 => if k == SP then sp else Slot(r[k], m, regs, sp, k))
  }

  function Slot(kept: int, m: Ram, regs: seq<int>, sp: int, k: int): int
    requires Sized(m)
  {
    if regs == [] then kept
    else if regs[0] == k then Load64(m, sp - 8)
    else Slot(kept, m, regs[1..], sp - 8, k)
  }

  lemma {:induction false} SlotAbsent(kept: int, m: Ram, regs: seq<int>, sp: int, k: int)
    requires Sized(m) && k !in regs
    ensures Slot(kept, m, regs, sp, k) == kept
    decreases |regs|
  {
    if regs != [] {
      SlotAbsent(kept, m, regs[1..], sp - 8, k);
    }
  }

  lemma {:induction false} SlotOf(kept: int, m: Ram, regs: seq<int>, sp: int, j: nat)
    requires Sized(m) && j < |regs| && Distinct(regs)
    ensures Slot(kept, m, regs, sp, regs[j]) == Load64(m, SlotAddr(sp, j))
    decreases |regs|
  {
    if j > 0 {
      assert regs[0] != regs[j];
      assert forall a, b | 0 <= a < b < |regs[1..]| :: regs[1..][a] == regs[a + 1] && regs[1..][b] == regs[b + 1];
      SlotOf(kept, m, regs[1..], sp - 8, j - 1);
    }
  }

  /** Popping the first register on top of the others. */
  lemma PopRestores(r: ScalarFile, q: ScalarFile, m: Ram, regs: seq<int>, sp: int)
    requires Sized(m) && regs != [] && AllSaveable(regs) && q == Restored(r, m, regs[1..], sp - 8)
    ensures q[regs[0] := Load64(m, sp - 8)][SP := sp] == Restored(r, m, regs, sp)
  {
    assert Saveable(regs[0]);
    var (a, b) := (q[regs[0] := Load64(m, sp - 8)][SP := sp], Restored(r, m, regs, sp));
    forall k | 0 <= k < 16
      ensures a[k] == b[k]
    {
    }
  }

  lemma RunThenPop(x: Machine, fpu: Fpu, code: seq<Instr>, r: int)
    requires var x1 := FrameRun(x, fpu, code); Saveable(r) && InRam(R(x1.c, SP), 8) && Onward(x1.c.pc, 2)
    ensures var (x1, y) := (FrameRun(x, fpu, code), FrameRun(x, fpu, code + Pop(r)));
      && y.c.r == x1.c.r[r := Load64(x1.m, R(x1.c, SP))][SP := R(x1.c, SP) + 8] && y.c.pc == x1.c.pc + 2
      && y.m == x1.m
  {
    FoldSplit(FrameStepper(fpu), x, code, Pop(r));
    PopRun(FrameRun(x, fpu, code), fpu, r);
  }

  lemma {:induction false} RestoreRun(x: Machine, fpu: Fpu, regs: seq<int>, sp: int)
    requires AllSaveable(regs) && Stack(sp, |regs|) && Onward(x.c.pc, 2 * |regs|)
    requires R(x.c, SP) == sp - 8 * |regs| && x.c.r[0] == 0
    ensures var y := FrameRun(x, fpu, Restore(regs));
      y.c.r == Restored(x.c.r, x.m, regs, sp) && y.c.pc == x.c.pc + 2 * |regs| && y.m == x.m
    decreases |regs|
  {
    if regs != [] {
      var rest := regs[1..];
      StackBelow(sp, |regs|);
      RestoreRun(x, fpu, rest, sp - 8);
      var x1 := FrameRun(x, fpu, Restore(rest));
      assert R(x1.c, SP) == sp - 8;
      RunThenPop(x, fpu, Restore(rest), regs[0]);
      PopRestores(x.c.r, x1.c.r, x.m, regs, sp);
    }
  }

  // --- the body ------------------------------------------------------------------------------

  /** A straight-line instruction: no transfer of control and no change of bank. */
  predicate Linear(ins: Instr) { Encoded(ins) && UnitOf(ins.op) != JumpUnit && ins.op !in {RETI, MTPSW} }

  ghost predicate LinearBody(body: seq<Line>) { forall i | 0 <= i < |body| :: Linear(body[i].ins) }

  /** The body on the CPU, the board answering its accesses as it likes. */
  ghost function BodyRun(c: State, fpu: Fpu, body: seq<Line>, buses: seq<Bus>): State
    requires LinearBody(body) && |buses| == |body|
    decreases |body|
  {
    if body == [] then c else BodyRun(Step(c, fpu, buses[0], body[0].ins), fpu, body[1..], buses[1..])
  }

  /** `mfcause` writes its register, and the scan does not know it. */
  predicate TakesCause(l: Line, r: int) { l.ins.op == MFCAUSE && l.ins.a == r }

  /** The destination is spelt in a way the scan passes over. */
  predicate Misspelt(l: Line, r: int) { Recognised(l.ins.op) && l.tail != "" && l.ins.a == r }

  predicate Unseen(l: Line, r: int) { TakesCause(l, r) || Misspelt(l, r) }

  ghost predicate Taken(body: seq<Line>, r: int) { exists i | 0 <= i < |body| :: Unseen(body[i], r) }

  lemma LinearStep(c: State, fpu: Fpu, bus: Bus, l: Line)
    requires Linear(l.ins)
    ensures forall k | 1 <= k <= 13 && ScalarDest(l) != k && !Unseen(l, k) :: Step(c, fpu, bus, l.ins).r[k] == c.r[k]
    ensures Step(c, fpu, bus, l.ins).r[0] == c.r[0]
  {
    var c1 := Fetched(c, l.ins);
    match UnitOf(l.ins.op)
    case IntegerUnit => IntegerStep(c1, bus, l);
    case StatusUnit => assert Exec(c1, fpu, bus, l.ins).r == c1.r;
    case SystemUnit => assert Exec(c1, fpu, bus, l.ins).r == c1.r;
    case _ =>
  }

  lemma IntegerStep(c: State, bus: Bus, l: Line)
    requires Linear(l.ins) && UnitOf(l.ins.op) == IntegerUnit
    ensures forall k | 1 <= k <= 13 && ScalarDest(l) != k && !Unseen(l, k) :: ExecInteger(c, bus, l.ins).r[k] == c.r[k]
    ensures ExecInteger(c, bus, l.ins).r[0] == c.r[0]
  {
  }

  lemma LinearStepGoesOn(c: State, fpu: Fpu, bus: Bus, l: Line)
    requires Linear(l.ins) && Onward(c.pc, 1)
    ensures Step(c, fpu, bus, l.ins).pc == c.pc + 1
  {
    var c1 := Fetched(c, l.ins);
    match UnitOf(l.ins.op)
    case IntegerUnit => assert Exec(c1, fpu, bus, l.ins) == ExecInteger(c1, bus, l.ins);
    case _ =>
  }

  /** Only traps change the cause. */
  lemma CauseStep(c: State, fpu: Fpu, bus: Bus, l: Line)
    requires Linear(l.ins)
    ensures Step(c, fpu, bus, l.ins).cause == c.cause
    ensures forall k | 1 <= k <= 13 && TakesCause(l, k) :: Step(c, fpu, bus, l.ins).r[k] == Wrap64(c.cause)
  {
    var c1 := Fetched(c, l.ins);
    match UnitOf(l.ins.op)
    case IntegerUnit => assert Exec(c1, fpu, bus, l.ins) == ExecInteger(c1, bus, l.ins);
    case StatusUnit => assert Exec(c1, fpu, bus, l.ins).cause == c1.cause;
    case SystemUnit => assert Exec(c1, fpu, bus, l.ins).cause == c1.cause;
    case _ =>
  }

  /** A register the scan neither marks nor misses is not written by the body. */
  lemma {:induction false} BodyKeeps(c: State, fpu: Fpu, body: seq<Line>, buses: seq<Bus>)
    requires LinearBody(body) && |buses| == |body|
    ensures var d := BodyRun(c, fpu, body, buses);
      && d.r[0] == c.r[0] && (Onward(c.pc, |body|) ==> d.pc == c.pc + |body|)
      && forall k | 1 <= k <= 13 && !Writes(body, k) && !Taken(body, k) :: d.r[k] == c.r[k]
    decreases |body|
  {
    if body != [] {
      LinearStep(c, fpu, buses[0], body[0]);
      if Onward(c.pc, |body|) {
        LinearStepGoesOn(c, fpu, buses[0], body[0]);
      }
      BodyKeeps(Step(c, fpu, buses[0], body[0].ins), fpu, body[1..], buses[1..]);
      forall k | 1 <= k <= 13 && !Writes(body, k) && !Taken(body, k)
        ensures !Writes(body[1..], k) && !Taken(body[1..], k) && ScalarDest(body[0]) != k && !Unseen(body[0], k)
      {
        FirstOrLater(body, k);
      }
    }
  }

  /** A register that only `mfcause` writes holds the cause in the end. */
  lemma {:induction false} BodyTakesCause(c: State, fpu: Fpu, body: seq<Line>, buses: seq<Bus>, k: int)
    requires LinearBody(body) && |buses| == |body| && 1 <= k <= 13 && !Writes(body, k)
    requires forall i | 0 <= i < |body| :: !Misspelt(body[i], k)
    ensures BodyRun(c, fpu, body, buses).r[k] == if Taken(body, k) then Wrap64(c.cause) else c.r[k]
    decreases |body|
  {
    if body != [] {
      LinearStep(c, fpu, buses[0], body[0]);
      CauseStep(c, fpu, buses[0], body[0]);
      FirstOrLater(body, k);
      BodyTakesCause(Step(c, fpu, buses[0], body[0].ins), fpu, body[1..], buses[1..], k);
    }
  }

  lemma FirstOrLater(body: seq<Line>, k: int)
    requires body != []
    ensures Taken(body, k) == (Unseen(body[0], k) || Taken(body[1..], k))
    ensures Writes(body, k) == (ScalarDest(body[0]) == k || Writes(body[1..], k))
  {
    assert forall i | 0 <= i < |body[1..]| :: body[1..][i] == body[i + 1];
    if i :| 0 <= i < |body| && Unseen(body[i], k) {
      assert i > 0 ==> Unseen(body[1..][i - 1], k);
    }
    if i :| 0 <= i < |body| && ScalarDest(body[i]) == k {
      assert i > 0 ==> ScalarDest(body[1..][i - 1]) == k;
    }
  }

  lemma SavedShape(flags: Flags)
    ensures AllSaveable(Saved(flags)) && Distinct(Saved(flags)) && |Saved(flags)| <= 14
    ensures forall k | 1 <= k <= 15 :: k in Saved(flags) <==> k == RA || (k <= 13 && flags[k])
  {
    UsedIsExact(flags, 1);
    UsedLength(flags, 1);
    var used := UsedFrom(flags, 1);
    forall i | 0 <= i < |Saved(flags)|
      ensures Saveable(Saved(flags)[i])
    {
      assert i > 0 ==> used[i - 1] in used;
    }
    forall i, j | 0 <= i < j < |Saved(flags)|
      ensures Saved(flags)[i] != Saved(flags)[j]
    {
      assert used[j - 1] in used;
    }
  }

  lemma {:induction false} UsedLength(flags: Flags, r: nat)
    requires 1 <= r <= 14
    ensures |UsedFrom(flags, r)| <= 14 - r
    decreases 14 - r
  {
    if r <= 13 {
      UsedLength(flags, r + 1);
    }
  }

  // --- the theorem ---------------------------------------------------------------------------

  /** Between prologue and epilogue: the stack pointer is back and the slots are as they were left. */
  ghost predicate FrameIntact(before: Machine, after: Machine, regs: seq<int>, sp: int) {
    && after.c.r[SP] == before.c.r[SP] && after.c.r[0] == 0
    && forall j | 0 <= j < |regs| :: Load64(after.m, SlotAddr(sp, j)) == Load64(before.m, SlotAddr(sp, j))
  }

  lemma RestoredRegister(q: ScalarFile, r: ScalarFile, m: Ram, regs: seq<int>, sp: int, k: int)
    requires Sized(m) && AllSaveable(regs) && Distinct(regs) && 1 <= k <= 15 && r[SP] == sp
    requires forall j | 0 <= j < |regs| :: Load64(m, SlotAddr(sp, j)) == r[regs[j]]
    ensures Restored(q, m, regs, sp)[k] == if k == SP || k in regs then r[k] else q[k]
  {
    if k in regs {
      var j :| 0 <= j < |regs| && regs[j] == k;
      SlotOf(q[k], m, regs, sp, j);
    } else if k != SP {
      SlotAbsent(q[k], m, regs, sp, k);
    }
  }

  /** The epilogue with its return. */
  lemma EpilogueRun(y: Machine, fpu: Fpu, regs: seq<int>, sp: int)
    requires AllSaveable(regs) && Stack(sp, |regs|) && Onward(y.c.pc, 2 * |regs|)
    requires R(y.c, SP) == sp - 8 * |regs| && y.c.r[0] == 0
    ensures var z := FrameRun(y, fpu, Restore(regs) + [RETURN]);
      z.c.r == Restored(y.c.r, y.m, regs, sp) && z.c.pc == z.c.r[RA] && z.m == y.m
  {
    RestoreRun(y, fpu, regs, sp);
    FoldSplit(FrameStepper(fpu), y, Restore(regs), [RETURN]);
    ReturnRun(FrameRun(y, fpu, Restore(regs)), fpu);
  }

  /** Whatever ran in between, the epilogue gives back r14, r15 and every saved register as they were
      at entry, all 64 bits, and returns; a register outside the list keeps what the body left. */
  lemma FrameRestores(x: Machine, fpu: Fpu, flags: Flags, y: Machine)
    requires x.c.r[0] == 0 && Onward(x.c.pc, 28)
    requires Stack(R(x.c, SP), |Saved(flags)|)
    requires FrameIntact(FrameRun(x, fpu, Save(Saved(flags))), y, Saved(flags), R(x.c, SP)) && Onward(y.c.pc, 28)
    ensures var z := FrameRun(y, fpu, Restore(Saved(flags)) + [RETURN]);
      && z.c.pc == x.c.r[RA] && z.m == y.m
      && forall k | 1 <= k <= 15 ::
        z.c.r[k] == if k == SP || k in Saved(flags) then x.c.r[k] else y.c.r[k]
  {
    var regs, sp := Saved(flags), R(x.c, SP);
    SavedShape(flags);
    SaveRun(x, fpu, regs);
    EpilogueRun(y, fpu, regs, sp);
    forall k | 1 <= k <= 15
      ensures Restored(y.c.r, y.m, regs, sp)[k] == if k == SP || k in regs then x.c.r[k] else y.c.r[k]
    {
      RestoredRegister(y.c.r, x.c.r, y.m, regs, sp, k);
    }
    assert regs[0] == RA;
  }

  /** A register the frame does not bring back: every line that writes it escapes the scan. */
  ghost predicate Lost(body: seq<Line>, k: int) { 1 <= k <= 13 && !Writes(body, k) && Taken(body, k) }

  /** Prologue, body and epilogue. `after` is the memory when the body ends, whoever wrote it. */
  ghost function ProcRun(x: Machine, fpu: Fpu, body: seq<Line>, buses: seq<Bus>, after: SizedRam): Machine
    requires LinearBody(body) && |buses| == |body|
  {
    var x1 := FrameRun(x, fpu, Save(Saved(Scanned(body))));
    FrameRun(Machine(BodyRun(x1.c, fpu, body, buses), after), fpu, Restore(Saved(Scanned(body))) + [RETURN])
  }

  /** The body leaves r14 as it found it and does not touch the saved slots. */
  ghost predicate BodyBehaves(x: Machine, fpu: Fpu, body: seq<Line>, buses: seq<Bus>, after: SizedRam)
    requires LinearBody(body) && |buses| == |body|
  {
    var x1 := FrameRun(x, fpu, Save(Saved(Scanned(body))));
    FrameIntact(x1, Machine(BodyRun(x1.c, fpu, body, buses), after), Saved(Scanned(body)), R(x.c, SP))
  }

  /** For a linear body, each of r1 to r15 comes back, unless it is lost: then it is what the body left. */
  lemma ProcPreservesRegisters(x: Machine, fpu: Fpu, body: seq<Line>, buses: seq<Bus>, after: SizedRam)
    requires x.c.r[0] == 0 && LinearBody(body) && |buses| == |body| && |body| <= MAX_INSTR
    requires Onward(x.c.pc, MAX_INSTR + 56)
    requires Stack(R(x.c, SP), |Saved(Scanned(body))|) && BodyBehaves(x, fpu, body, buses, after)
    ensures var z := ProcRun(x, fpu, body, buses, after);
      && z.c.pc == x.c.r[RA] && z.m == after
      && forall k | 1 <= k <= 15 ::
        z.c.r[k] == if Lost(body, k)
          then BodyRun(FrameRun(x, fpu, Save(Saved(Scanned(body)))).c, fpu, body, buses).r[k] else x.c.r[k]
  {
    var flags := Scanned(body);
    SavedShape(flags);
    SaveRun(x, fpu, Saved(flags));
    var x1 := FrameRun(x, fpu, Save(Saved(flags)));
    BodyKeeps(x1.c, fpu, body, buses);
    var y := Machine(BodyRun(x1.c, fpu, body, buses), after);
    FrameRestores(x, fpu, flags, y);
    var z := FrameRun(y, fpu, Restore(Saved(flags)) + [RETURN]);
    forall k | 1 <= k <= 15
      ensures z.c.r[k] == if Lost(body, k) then y.c.r[k] else x.c.r[k]
    {
      assert k in Saved(flags) <==> k == RA || (k <= 13 && Writes(body, k));
    }
  }

  /** When every destination is spelt cleanly, a register comes back exactly when `mfcause` did not write
      it alone, or it held the cause already. */
  lemma CleanProcPreservesRegisters(x: Machine, fpu: Fpu, body: seq<Line>, buses: seq<Bus>, after: SizedRam)
    requires x.c.r[0] == 0 && LinearBody(body) && |buses| == |body| && |body| <= MAX_INSTR
    requires Onward(x.c.pc, MAX_INSTR + 56)
    requires Stack(R(x.c, SP), |Saved(Scanned(body))|) && BodyBehaves(x, fpu, body, buses, after)
    requires forall i | 0 <= i < |body| :: body[i].tail == ""
    ensures var z := ProcRun(x, fpu, body, buses, after);
      forall k | 1 <= k <= 15 :: z.c.r[k] == x.c.r[k] <==> !Lost(body, k) || x.c.r[k] == Wrap64(x.c.cause)
  {
    ProcPreservesRegisters(x, fpu, body, buses, after);
    SavedShape(Scanned(body));
    SaveRun(x, fpu, Saved(Scanned(body)));
    var x1 := FrameRun(x, fpu, Save(Saved(Scanned(body))));
    forall k | 1 <= k <= 13 && Lost(body, k)
      ensures BodyRun(x1.c, fpu, body, buses).r[k] == Wrap64(x.c.cause)
    {
      BodyTakesCause(x1.c, fpu, body, buses, k);
    }
  }

  // --- two procedures that lose r5 -------------------------------------------------------------

  const CAUSE_LINE := Line(Plain(MFCAUSE, 5, 0, 0), "")
  const SPELT_LINE := Line(Plain(LI, 5, 0, 1), "x")   // li r5x, 1

  /** A caller with 7 in r5 and its stack at 1000. */
  function Caller(): Machine {
    var r := seq(16, k => if k == 5 then 7 else if k == SP then 1000 else 0);
    Machine(PowerOn().(r := r), EmptyRam())
  }

  lemma NothingUsed(flags: Flags, r: nat)
    requires 1 <= r && forall k | r <= k <= 13 :: !flags[k]
    ensures UsedFrom(flags, r) == []
    decreases |flags| - r
  {
    if r <= 13 {
      NothingUsed(flags, r + 1);
    }
  }

  lemma OnlyReturnSaved(l: Line)
    requires l in {CAUSE_LINE, SPELT_LINE}
    ensures LinearBody([l]) && Lost([l], 5) && Saved(Scanned([l])) == [RA]
  {
    assert Unseen([l][0], 5);
    forall k
      ensures !Writes([l], k) || k == -1
    {
    }
    NothingUsed(Scanned([l]), 1);
  }

  /** Such procedures run to their end, return, and leave another value in r5. */
  lemma LostRegisterDiffers(fpu: Fpu, l: Line)
    requires l in {CAUSE_LINE, SPELT_LINE}
    ensures LinearBody([l]) && Lost([l], 5)
    ensures var (x, bus) := (Caller(), Answer(0));
      var after := FrameRun(x, fpu, Save(Saved(Scanned([l])))).m;
      var z := ProcRun(x, fpu, [l], [bus], after);
      BodyBehaves(x, fpu, [l], [bus], after) && z.c.pc == x.c.r[RA] && z.c.r[5] != x.c.r[5]
  {
    OnlyReturnSaved(l);
    var (x, bus) := (Caller(), Answer(0));
    assert Stack(R(x.c, SP), 1) by {
      assert SlotAddr(1000, 0) == 992;
    }
    SaveRun(x, fpu, [RA]);
    var x1 := FrameRun(x, fpu, Save([RA]));
    var y := Step(x1.c, fpu, bus, l.ins);
    assert BodyRun(x1.c, fpu, [l], [bus]) == y;
    OneLine(x1.c, fpu, bus, l);
    ProcPreservesRegisters(x, fpu, [l], [bus], x1.m);
  }

  lemma OneLine(c: State, fpu: Fpu, bus: Bus, l: Line)
    requires l in {CAUSE_LINE, SPELT_LINE}
    ensures Step(c, fpu, bus, l.ins).r == c.r[5 := if l == SPELT_LINE then 1 else Wrap64(c.cause)]
  {
    var c1 := Fetched(c, l.ins);
    assert Exec(c1, fpu, bus, l.ins) == ExecInteger(c1, bus, l.ins);
  }
}
