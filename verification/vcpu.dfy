/** The core as the object it is: arrays and fields updated in place by each instruction. Every
    method is tied to the specification in `Cpu`. */
module Core {
  import opened Words
  import opened Cpu

  class VCpu {
    const r: array<int64>
    const f: array<uint32>
    const altR: array<int64>
    const altF: array<uint32>
    const v: array<Row>
    var vl: VLen
    var vmask: Mask
    var pc: int64
    var halted: bool
    var psw: Psw
    var epc: int64
    var epsw: Psw
    var cause: int
    var handler: int32
    var timerPeriod: int64
    var timerNext: nat
    var trapDepth: nat
    var cycles: nat

    ghost predicate Valid() {
      && r.Length == 16 && altR.Length == 16 && f.Length == 16 && altF.Length == 16 && v.Length == 8
      && r != altR && f != altF
    }

    ghost function Repr(): set<object> { {this, r, f, altR, altF, v} }

    function Contents(): State
      requires Valid()
      reads this, r, f, altR, altF, v
    {
      State(r[..], f[..], altR[..], altF[..], v[..], vl, vmask, pc, halted, psw, epc, epsw, cause, handler,
        timerPeriod, timerNext, trapDepth, cycles)
    }

    constructor ()
      ensures Valid() && fresh(Repr())
      ensures Contents() == PowerOn()
    {
      r, f, altR, altF := new int64[16](i => 0), new uint32[16](i => 0), new int64[16](i => 0), new uint32[16](i => 0);
      v := new Row[8](i => ZERO_ROW);
      vl, vmask, pc, halted, psw, epc, epsw := 0, seq(64, i => false), 0, false, PswOf(0), 0, PswOf(0);
      cause, handler, timerPeriod, timerNext, trapDepth, cycles := 0, 0, 0, 0, 0, 0;
    }

    method SetScalar(rd: int, x: int64)
      requires Valid() && 0 <= rd < 16
      modifies r
      ensures Contents() == SetR(old(Contents()), rd, x)
    {
      if rd != 0 {
        r[rd] := x;
      }
    }

    /** Exchanges the two banks register by register; r0, r1 and r14 stay where they are. */
    method ExchangeBanks()
      requires Valid()
      modifies r, altR, f, altF
      ensures Contents() == SwapBanks(old(Contents()))
    {
      for i := 2 to 16
        invariant forall k | 0 <= k < 16 ::
          r[k] == old(if k < i && Banked(k) then altR[k] else r[k])
        invariant forall k | 0 <= k < 16 ::
          altR[k] == old(if k < i && Banked(k) then r[k] else altR[k])
        invariant f[..] == old(f[..]) && altF[..] == old(altF[..])
      {
        if i == 14 {
          continue;
        }
        r[i], altR[i] := altR[i], r[i];
      }
      assert r[..] == Exchanged(old(r[..]), old(altR[..]));
      assert altR[..] == Exchanged(old(altR[..]), old(r[..]));
      for i := 0 to 16
        invariant forall k | 0 <= k < 16 :: f[k] == old(if k < i then altF[k] else f[k])
        invariant forall k | 0 <= k < 16 :: altF[k] == old(if k < i then f[k] else altF[k])
        invariant r[..] == Exchanged(old(r[..]), old(altR[..]))
        invariant altR[..] == Exchanged(old(altR[..]), old(r[..]))
      {
        f[i], altF[i] := altF[i], f[i];
      }
      assert f[..] == old(altF[..]) && altF[..] == old(f[..]);
    }

    method WriteStatus(value: Psw)
      requires Valid()
      modifies this, r, altR, f, altF
      ensures Contents() == WritePsw(old(Contents()), value)
    {
      if psw.bank != value.bank {
        ExchangeBanks();
      }
      psw := value;
    }

    method ExecuteInteger(bus: Bus, ins: Instr)
      requires Valid() && Encoded(ins) && UnitOf(ins.op) == IntegerUnit
      modifies this, r
      ensures Contents() == ExecInteger(old(Contents()), bus, ins)
    {
      var x := IntegerResult(Contents(), bus, ins);
      if ins.op == SETVL {
        vl := ClampVl(r[ins.b]);
      }
      SetScalar(ins.a, x);
    }

    method ExecuteJump(ins: Instr)
      requires Valid() && Encoded(ins) && UnitOf(ins.op) == JumpUnit
      modifies this, r
      ensures Contents() == ExecJump(old(Contents()), ins)
    {
      match ins.op {
        case BEQ => if r[ins.b] == r[ins.c] { pc := ins.target; }
        case BNE => if r[ins.b] != r[ins.c] { pc := ins.target; }
        case BLT => if r[ins.b] < r[ins.c] { pc := ins.target; }
        case J => pc := ins.target;
        case JAL =>
          SetScalar(ins.a, pc);
          pc := ins.target;
        case JALR =>
          var target := r[ins.b];  // read before the link register is written: they may be the same
          SetScalar(ins.a, pc);
          pc := target;
      }
    }

    method Unwind()
      requires Valid()
      modifies this, r, altR, f, altF
      ensures Contents() == Unwound(old(Contents()))
    {
      pc := epc;
      WriteStatus(epsw);
      if trapDepth > 0 {
        trapDepth := trapDepth - 1;
      }
    }

    method ExecuteStatus(ins: Instr)
      requires Valid() && Encoded(ins) && UnitOf(ins.op) == StatusUnit
      modifies this, r, altR, f, altF
      ensures Contents() == ExecStatus(old(Contents()), ins)
    {
      match ins.op {
        case STI => psw := psw.(ie := true);
        case CLI => psw := psw.(ie := false);
        case RETI => Unwind();
        case MTPSW => WriteStatus(PswOf(Unsigned(r[ins.b])));
        case MTEPC => epc := r[ins.b];
        case MTEPSW => epsw := PswOf(Unsigned(r[ins.b]));
      }
    }

    method SetTimer(period: int64)
      requires Valid()
      modifies this
      ensures Contents() ==
        old(Contents()).(timerPeriod := period, timerNext := old(cycles) + if period > 0 then period else 0)
    {
      timerPeriod := period;
      timerNext := cycles + if timerPeriod > 0 then timerPeriod else 0;
    }

    method ExecuteSystem(bus: Bus, ins: Instr)
      requires Valid() && Encoded(ins) && UnitOf(ins.op) == SystemUnit
      modifies this
      ensures Contents() == ExecSystem(old(Contents()), bus, ins)
    {
      match ins.op {
        case MARK => if !bus.markOk { halted := true; }
        case SETHANDLER => handler := ins.target;
        case SETTIMER => SetTimer(r[ins.b]);
        case MTVL =>
          vl := ClampVl(r[ins.b]);
          psw := psw.(vdirty := true);
        case MTVMASK =>
          vmask := BitsOf(r[ins.b]);
          psw := psw.(vdirty := true);
        case HALT => halted := true;
      }
    }

    /** Lane by lane into the destination, which may also be a source: lane i reads only lane i. */
    method ExecuteVector(fpu: Fpu, bus: Bus, ins: Instr)
      requires Valid() && Encoded(ins) && UnitOf(ins.op) == VectorUnit
      modifies v
      ensures Contents() == Exec(old(Contents()), fpu, bus, ins)
    {
      ghost var before := Contents();
      for i := 0 to vl
        invariant Contents() == before.(v := v[..])
        invariant forall k | 0 <= k < 8 && k != ins.a :: v[k] == before.v[k]
        invariant forall k | 0 <= k < 64 ::
          v[ins.a][k] == if k < i then LaneResult(before, fpu, bus, ins, k) else before.v[ins.a][k]
      {
        SameLane(before, Contents(), fpu, bus, ins, i);
        v[ins.a] := v[ins.a][i := LaneResult(Contents(), fpu, bus, ins, i)];
      }
      assert v[ins.a] == Lanes(before, fpu, bus, ins);
      assert v[..] == before.v[ins.a := Lanes(before, fpu, bus, ins)];
    }

    method ExecuteCompare(fpu: Fpu, bus: Bus, ins: Instr)
      requires Valid() && Encoded(ins) && UnitOf(ins.op) == MaskUnit
      modifies this
      ensures Contents() == Exec(old(Contents()), fpu, bus, ins)
    {
      ghost var before := Contents();
      for i := 0 to vl
        invariant vl == before.vl && Contents() == before.(vmask := vmask)
        invariant forall k | 0 <= k < 64 ::
          vmask[k] == if k < i then MaskResult(before, fpu, ins, k) else before.vmask[k]
      {
        vmask := vmask[i := MaskResult(Contents(), fpu, ins, i)];
      }
      assert vmask == Compared(before, fpu, ins);
    }

    method Execute(fpu: Fpu, bus: Bus, ins: Instr)
      requires Valid() && Encoded(ins)
      modifies Repr()
      ensures Contents() == Exec(old(Contents()), fpu, bus, ins)
    {
      match UnitOf(ins.op) {
        case IntegerUnit => ExecuteInteger(bus, ins);
        case JumpUnit => ExecuteJump(ins);
        case StatusUnit => ExecuteStatus(ins);
        case SystemUnit => ExecuteSystem(bus, ins);
        case FloatUnit => f[ins.a] := FloatResult(Contents(), fpu, bus, ins);
        case VectorUnit => ExecuteVector(fpu, bus, ins);
        case MaskUnit => ExecuteCompare(fpu, bus, ins);
        case NoUnit =>
      }
    }

    method Step(fpu: Fpu, bus: Bus, ins: Instr)
      requires Valid() && Encoded(ins)
      modifies Repr()
      ensures Contents() == Cpu.Step(old(Contents()), fpu, bus, ins)
    {
      pc := Wrap64(pc + 1);
      cycles := cycles + Cost(ins.op, vl);
      psw := Soil(psw, Dirties(ins.op));
      assert Contents() == Fetched(old(Contents()), ins);
      Execute(fpu, bus, ins);
    }

    method Trap(why: int)
      requires Valid()
      modifies this
      ensures Contents() == Cpu.Trap(old(Contents()), why)
    {
      epc := pc;
      epsw := psw;
      psw := psw.(ie := false);
      trapDepth := trapDepth + 1;
      cause := why;
      pc := handler;
    }
  }

  lemma SameLane(s: State, t: State, fpu: Fpu, bus: Bus, ins: Instr, i: nat)
    requires Encoded(ins) && UnitOf(ins.op) == VectorUnit && i < 64
    requires t == s.(v := t.v)
    requires forall k | 0 <= k < 8 :: t.v[k][i] == s.v[k][i]
    ensures LaneResult(t, fpu, bus, ins, i) == LaneResult(s, fpu, bus, ins, i)
  {
  }
}
