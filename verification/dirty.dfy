/** PSW_VDIRTY and PSW_FDIRTY let a context switch skip the extension registers nobody wrote. The
    list of opcodes that raise them is kept apart from the code that executes the opcodes: here the
    two are proved to agree, over runs of any length. */
module DirtyBits {
  import opened Cpu
  import opened BankRefinement

  /** The state VDIRTY answers for. */
  predicate SameVectors(s: State, t: State) { t.v == s.v && t.vl == s.vl && t.vmask == s.vmask }

  /** `t` follows `s` without losing a dirty bit or hiding a change from one. */
  predicate Accounted(s: State, t: State) {
    && (s.psw.vdirty ==> t.psw.vdirty) && (s.psw.fdirty ==> t.psw.fdirty)
    && (!t.psw.vdirty ==> SameVectors(s, t))
    && (!t.psw.fdirty ==> t.f == s.f)
  }

  lemma JumpAccounted(s: State, ins: Instr)
    requires Encoded(ins)
    ensures Accounted(s, ExecJump(s, ins))
  {
  }

  lemma StatusAccounted(s: State, ins: Instr)
    requires Encoded(ins) && !WritesPsw(ins.op)
    ensures Accounted(s, ExecStatus(s, ins))
  {
  }

  lemma SystemAccounted(s: State, bus: Bus, ins: Instr)
    requires Encoded(ins)
    ensures Accounted(s, ExecSystem(s, bus, ins))
  {
  }

  lemma VectorsListed(op: Op)
    requires UnitOf(op) in {VectorUnit, MaskUnit}
    ensures Dirties(op) == VectorDirt
  {
  }

  lemma FloatsListed(op: Op)
    requires UnitOf(op) == FloatUnit
    ensures Dirties(op) == FloatDirt
  {
  }

  /** The opcode list agrees with the unit that writes each bank. */
  lemma ListAgrees(op: Op)
    ensures UnitOf(op) in {VectorUnit, MaskUnit} || op == SETVL ==> Dirties(op) == VectorDirt
    ensures UnitOf(op) == FloatUnit ==> Dirties(op) == FloatDirt
  {
    match UnitOf(op)
    case VectorUnit | MaskUnit => VectorsListed(op);
    case FloatUnit => FloatsListed(op);
    case _ =>
  }

  lemma ExecAccounted(s: State, fpu: Fpu, bus: Bus, ins: Instr)
    requires Encoded(ins) && !WritesPsw(ins.op) && s.psw == Soil(s.psw, Dirties(ins.op))
    ensures Accounted(s, Exec(s, fpu, bus, ins))
  {
    ListAgrees(ins.op);
    JumpAccounted(s, ins);
    StatusAccounted(s, ins);
    SystemAccounted(s, bus, ins);
  }

  lemma StepAccounted(s: State, e: Event)
    requires e.Run? ==> Encoded(e.ins) && !WritesPsw(e.ins.op)
    ensures Accounted(s, Next(s, e))
  {
    if e.Run? {
      assert Accounted(s, Fetched(s, e.ins));
      ExecAccounted(Fetched(s, e.ins), e.fpu, e.bus, e.ins);
    }
  }

  /** Every run without a whole-word status write, interrupts included: a dirty bit clear at the end
      means its registers hold what they held at the start. */
  lemma {:induction false} DirtyBitsSound(s: State, es: seq<Event>)
    requires AllEncoded(es) && forall e | e in es :: e.Run? ==> !WritesPsw(e.ins.op)
    ensures Accounted(s, After(s, es))
    decreases |es|
  {
    if es != [] {
      assert es[0] in es;
      StepAccounted(s, es[0]);
      DirtyBitsSound(Next(s, es[0]), es[1..]);
    }
  }
}

/** The cost table: how long one instruction may hold its CPU. */
module Timing {
  import opened Cpu

  lemma {:induction false} TreeDepthBound(n: nat, k: nat)
    requires n <= Pow2(k)
    ensures TreeDepth(n) <= k
    decreases k
  {
    if n > 1 {
      TreeDepthBound((n + 1) / 2, k - 1);
    }
  }

  predicate IsDump(op: Op) { op in {DUMPS, DUMPF, DUMPV, DUMPM, DUMPMASK} }

  const LONGEST := 140

  /** Only the debugging dumps are free; nothing takes longer than a gather of 64 lanes. */
  lemma CostBounds(op: Op, vl: VLen)
    ensures Cost(op, vl) <= LONGEST
    ensures Cost(op, vl) == 0 <==> IsDump(op)
  {
    TreeDepthBound(vl, 6) by {
      assert Pow2(2) == 4;
      assert Pow2(4) == 16;
      assert Pow2(6) == 64;
    }
  }
}
