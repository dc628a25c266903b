/** The core exchanges registers physically when PSW_BANK changes, so that the active bank always
    sits in r and f. Here is the machine this implements: one register file per bank, selected by the
    bit on every access, and no exchange. Every sequence of instructions and traps simulates it. */
module BankRefinement {
  import opened Cpu

  function NoScalars(): ScalarFile { seq(16, i => 0) }

  function NoFloats(): FloatFile { seq(16, i => 0) }

  /** `common` holds r0, r1 and r14; each bank has its own scalars and floats; `rest` has no registers. */
  datatype Abstract = Abstract(common: ScalarFile, first: Bank, second: Bank, rest: State)

  datatype Bank = Bank(scalars: ScalarFile, floats: FloatFile)

  function Selected(a: Abstract, second: bool): Bank { if second then a.second else a.first }

  function Only(r: ScalarFile, banked: bool): ScalarFile {
    seq(16, k requires 0 <= k < 16 => if Banked(k) == banked then r[k] else 0)
  }

  function Joined(common: ScalarFile, bank: ScalarFile): ScalarFile {
    seq(16, k requires 0 <= k < 16 => if Banked(k) then bank[k] else common[k])
  }

  function Rest(s: State): State {
    s.(r := NoScalars(), altR := NoScalars(), f := NoFloats(), altF := NoFloats())
  }

  /** The abstract machine a concrete state stands for. */
  function Abs(s: State): Abstract {
    var active, other := Bank(Only(s.r, true), s.f), Bank(Only(s.altR, true), s.altF);
    if s.psw.bank
    then Abstract(Only(s.r, false), other, active, Rest(s))
    else Abstract(Only(s.r, false), active, other, Rest(s))
  }

  /** The registers a program sees: those of the bank its status word selects. */
  function View(a: Abstract): State {
    var bank := Selected(a, a.rest.psw.bank);
    var scalars := Joined(a.common, bank.scalars);
    a.rest.(r := scalars, f := bank.floats)
  }

  /** `t`'s registers stored back in the bank `a` selects. */
  function Store(a: Abstract, t: State): Abstract {
    var bank := Bank(Only(t.r, true), t.f);
    if a.rest.psw.bank
    then Abstract(Only(t.r, false), a.first, bank, Rest(t))
    else Abstract(Only(t.r, false), bank, a.second, Rest(t))
  }

  function WithRest(a: Abstract, rest: State): Abstract {
    Abstract(a.common, a.first, a.second, rest)
  }

  function Selecting(s: State, psw: Psw): State { s.(psw := psw) }

  function Returned(s: State): State {
    s.(pc := s.epc, psw := s.epsw, trapDepth := if s.trapDepth > 0 then s.trapDepth - 1 else 0)
  }

  /** An abstract instruction never moves a register between banks: `mtpsw` and `reti` only write
      the status word, and from then on it selects another file. */
  function AExec(a: Abstract, fpu: Fpu, bus: Bus, ins: Instr): Abstract
    requires Encoded(ins)
  {
    match ins.op
    case MTPSW => WithRest(a, Selecting(a.rest, PswOf(Unsigned(View(a).r[ins.b]))))
    case RETI => WithRest(a, Returned(a.rest))
    case _ => Store(a, Exec(View(a), fpu, bus, ins))
  }

  function AStep(a: Abstract, fpu: Fpu, bus: Bus, ins: Instr): Abstract
    requires Encoded(ins)
  {
    AExec(Store(a, Fetched(View(a), ins)), fpu, bus, ins)
  }

  datatype Event = Run(fpu: Fpu, bus: Bus, ins: Instr) | Interrupt(cause: int)

  ghost predicate AllEncoded(es: seq<Event>) { forall e | e in es :: e.Run? ==> Encoded(e.ins) }

  function Next(s: State, e: Event): State
    requires e.Run? ==> Encoded(e.ins)
  {
    match e
    case Run(fpu, bus, ins) => Step(s, fpu, bus, ins)
    case Interrupt(cause) => Trap(s, cause)
  }

  function ANext(a: Abstract, e: Event): Abstract
    requires e.Run? ==> Encoded(e.ins)
  {
    match e
    case Run(fpu, bus, ins) => AStep(a, fpu, bus, ins)
    case Interrupt(cause) => Store(a, Trap(View(a), cause))
  }

  function After(s: State, es: seq<Event>): State
    requires AllEncoded(es)
    decreases |es|
  {
    if es == [] then s else After(Next(s, es[0]), es[1..])
  }

  function AAfter(a: Abstract, es: seq<Event>): Abstract
    requires AllEncoded(es)
    decreases |es|
  {
    if es == [] then a else AAfter(ANext(a, es[0]), es[1..])
  }

  // --- the simulation -------------------------------------------------------------------------

  function Alone(s: State): State { s.(altR := NoScalars(), altF := NoFloats()) }

  lemma ViewOfAbs(s: State)
    ensures View(Abs(s)) == Alone(s)
  {
    assert View(Abs(s)).r == s.r;
  }

  lemma StoreBack(s: State, t: State)
    requires t.psw.bank == s.psw.bank && t.altR == s.altR && t.altF == s.altF
    ensures Store(Abs(s), Alone(t)) == Abs(t)
  {
  }

  predicate WritesPsw(op: Op) { op == MTPSW || op == RETI }

  lemma SameResults(s: State, fpu: Fpu, bus: Bus, ins: Instr)
    requires Encoded(ins)
    ensures IntegerResult(Alone(s), bus, ins) == IntegerResult(s, bus, ins)
    ensures FloatResult(Alone(s), fpu, bus, ins) == FloatResult(s, fpu, bus, ins)
  {
  }

  lemma SameLanes(s: State, fpu: Fpu, bus: Bus, ins: Instr)
    requires Encoded(ins) && UnitOf(ins.op) == VectorUnit
    ensures Lanes(Alone(s), fpu, bus, ins) == Lanes(s, fpu, bus, ins)
  {
    forall i: nat | i < 64
      ensures LaneResult(Alone(s), fpu, bus, ins, i) == LaneResult(s, fpu, bus, ins, i)
    {
    }
  }

  lemma SameMask(s: State, fpu: Fpu, ins: Instr)
    requires Encoded(ins)
    ensures Compared(Alone(s), fpu, ins) == Compared(s, fpu, ins)
  {
    forall i: nat | i < 64
      ensures MaskResult(Alone(s), fpu, ins, i) == MaskResult(s, fpu, ins, i)
    {
    }
  }

  /** `t` and what the same instruction makes of `s` seen alone. */
  ghost predicate Untouched(s: State, t: State, alone: State) {
    t.altR == s.altR && t.altF == s.altF && t.psw.bank == s.psw.bank && alone == Alone(t)
  }

  lemma JumpUntouched(s: State, ins: Instr)
    requires Encoded(ins)
    ensures Untouched(s, ExecJump(s, ins), ExecJump(Alone(s), ins))
  {
  }

  lemma StatusUntouched(s: State, ins: Instr)
    requires Encoded(ins) && !WritesPsw(ins.op)
    ensures Untouched(s, ExecStatus(s, ins), ExecStatus(Alone(s), ins))
  {
  }

  lemma SystemUntouched(s: State, bus: Bus, ins: Instr)
    requires Encoded(ins)
    ensures Untouched(s, ExecSystem(s, bus, ins), ExecSystem(Alone(s), bus, ins))
  {
  }

  /** Apart from the two whole-word writes, no instruction sees the other bank or the bank bit. */
  lemma OtherBankUntouched(s: State, fpu: Fpu, bus: Bus, ins: Instr)
    requires Encoded(ins) && !WritesPsw(ins.op)
    ensures Untouched(s, Exec(s, fpu, bus, ins), Exec(Alone(s), fpu, bus, ins))
  {
    match UnitOf(ins.op)
    case IntegerUnit => SameResults(s, fpu, bus, ins);
    case FloatUnit => SameResults(s, fpu, bus, ins);
    case VectorUnit => SameLanes(s, fpu, bus, ins);
    case MaskUnit => SameMask(s, fpu, ins);
    case JumpUnit => JumpUntouched(s, ins);
    case StatusUnit => StatusUntouched(s, ins);
    case SystemUnit => SystemUntouched(s, bus, ins);
    case NoUnit =>
  }

  lemma ExchangeIsSelection(s: State, psw: Psw)
    ensures Abs(WritePsw(s, psw)) == WithRest(Abs(s), Selecting(Rest(s), psw))
  {
    if s.psw.bank != psw.bank {
      assert s.psw.bank != psw.bank;
      var t := WritePsw(s, psw);
      assert Only(t.r, false) == Only(s.r, false);
      assert Only(t.r, true) == Only(s.altR, true);
      assert Only(t.altR, true) == Only(s.r, true);
    } else {
      assert s.psw.bank == psw.bank;
    }
  }

  lemma FetchRefines(s: State, ins: Instr)
    ensures Store(Abs(s), Fetched(View(Abs(s)), ins)) == Abs(Fetched(s, ins))
  {
    ViewOfAbs(s);
    assert Fetched(Alone(s), ins) == Alone(Fetched(s, ins));
    StoreBack(s, Fetched(s, ins));
  }

  lemma MtpswRefines(s: State, fpu: Fpu, bus: Bus, ins: Instr)
    requires Encoded(ins) && ins.op == MTPSW
    ensures Abs(Exec(s, fpu, bus, ins)) == AExec(Abs(s), fpu, bus, ins)
  {
    var psw := PswOf(Unsigned(s.r[ins.b]));
    MtpswWrites(s, fpu, bus, ins);
    MtpswSelects(s, fpu, bus, ins);
    ExchangeIsSelection(s, psw);
  }

  lemma MtpswWrites(s: State, fpu: Fpu, bus: Bus, ins: Instr)
    requires Encoded(ins) && ins.op == MTPSW
    ensures Exec(s, fpu, bus, ins) == WritePsw(s, PswOf(Unsigned(s.r[ins.b])))
  {
  }

  lemma MtpswSelects(s: State, fpu: Fpu, bus: Bus, ins: Instr)
    requires Encoded(ins) && ins.op == MTPSW
    ensures AExec(Abs(s), fpu, bus, ins) == WithRest(Abs(s), Selecting(Rest(s), PswOf(Unsigned(s.r[ins.b]))))
  {
    ViewOfAbs(s);
  }

  lemma UnwoundRefines(s: State)
    requires var t := s.(pc := s.epc); Abs(WritePsw(t, s.epsw)) == WithRest(Abs(t), Selecting(Rest(t), s.epsw))
    ensures Abs(Unwound(s)) == WithRest(Abs(s), Returned(Rest(s)))
  {
  }

  lemma RetiRefines(s: State, fpu: Fpu, bus: Bus, ins: Instr)
    requires Encoded(ins) && ins.op == RETI
    ensures Abs(Exec(s, fpu, bus, ins)) == AExec(Abs(s), fpu, bus, ins)
  {
    var t := s.(pc := s.epc);
    assert Exec(s, fpu, bus, ins) == Unwound(s);
    assert AExec(Abs(s), fpu, bus, ins) == WithRest(Abs(s), Returned(Rest(s)));
    ExchangeIsSelection(t, s.epsw);
    UnwoundRefines(s);
  }

  lemma ExecRefines(s: State, fpu: Fpu, bus: Bus, ins: Instr)
    requires Encoded(ins)
    ensures Abs(Exec(s, fpu, bus, ins)) == AExec(Abs(s), fpu, bus, ins)
  {
    if ins.op == MTPSW {
      MtpswRefines(s, fpu, bus, ins);
    } else if ins.op == RETI {
      RetiRefines(s, fpu, bus, ins);
    } else {
      ViewOfAbs(s);
      OtherBankUntouched(s, fpu, bus, ins);
      StoreBack(s, Exec(s, fpu, bus, ins));
    }
  }

  lemma StepRefines(s: State, fpu: Fpu, bus: Bus, ins: Instr)
    requires Encoded(ins)
    ensures Abs(Step(s, fpu, bus, ins)) == AStep(Abs(s), fpu, bus, ins)
  {
    FetchRefines(s, ins);
    ExecRefines(Fetched(s, ins), fpu, bus, ins);
  }

  lemma TrapRefines(s: State, cause: int)
    ensures Abs(Trap(s, cause)) == ANext(Abs(s), Interrupt(cause))
  {
    ViewOfAbs(s);
    StoreBack(s, Trap(s, cause));
  }

  /** Over every sequence of instructions and traps the exchanged arrays behave as the banked file. */
  lemma {:induction false} BankRefinement(s: State, es: seq<Event>)
    requires AllEncoded(es)
    ensures Abs(After(s, es)) == AAfter(Abs(s), es)
    decreases |es|
  {
    if es != [] {
      match es[0] {
        case Run(fpu, bus, ins) => StepRefines(s, fpu, bus, ins);
        case Interrupt(cause) => TrapRefines(s, cause);
      }
      BankRefinement(Next(s, es[0]), es[1..]);
    }
  }

  /** r0 and the alternate entries that no bank uses. */
  predicate ZeroEntries(s: State) { s.r[0] == 0 && s.altR[0] == 0 && s.altR[1] == 0 && s.altR[14] == 0 }

  lemma StatusKeepsZeroEntries(s: State, ins: Instr)
    requires Encoded(ins) && ZeroEntries(s)
    ensures ZeroEntries(ExecStatus(s, ins))
  {
    assert ZeroEntries(SwapBanks(s));
  }

  lemma ExecKeepsZeroEntries(s: State, fpu: Fpu, bus: Bus, ins: Instr)
    requires Encoded(ins) && ZeroEntries(s)
    ensures ZeroEntries(Exec(s, fpu, bus, ins))
  {
    match UnitOf(ins.op)
    case StatusUnit => StatusKeepsZeroEntries(s, ins);
    case JumpUnit => assert ZeroEntries(ExecJump(s, ins));
    case SystemUnit => assert ZeroEntries(ExecSystem(s, bus, ins));
    case IntegerUnit => assert ZeroEntries(ExecInteger(s, bus, ins));
    case _ =>
  }

  lemma StepKeepsZeroEntries(s: State, e: Event)
    requires (e.Run? ==> Encoded(e.ins)) && ZeroEntries(s)
    ensures ZeroEntries(Next(s, e))
  {
    if e.Run? {
      var s1 := Fetched(s, e.ins);
      assert ZeroEntries(s1);
      ExecKeepsZeroEntries(s1, e.fpu, e.bus, e.ins);
    }
  }

  lemma {:induction false} ZeroEntriesStayZero(s: State, es: seq<Event>)
    requires AllEncoded(es) && ZeroEntries(s)
    ensures ZeroEntries(After(s, es))
    decreases |es|
  {
    if es != [] {
      StepKeepsZeroEntries(s, es[0]);
      ZeroEntriesStayZero(Next(s, es[0]), es[1..]);
    }
  }

  // --- a trap and its return -----------------------------------------------------------------

  /** An event after which epc and epsw still hold what the trap saved. */
  predicate LeavesReturn(e: Event) { e.Run? && e.ins.op != MTEPC && e.ins.op != MTEPSW }

  predicate SameReturn(s: State, t: State) { t.epc == s.epc && t.epsw == s.epsw }

  lemma ControlLeavesReturn(s: State, bus: Bus, ins: Instr)
    requires Encoded(ins)
    ensures SameReturn(s, ExecJump(s, ins))
    ensures SameReturn(s, ExecSystem(s, bus, ins))
    ensures ins.op != MTEPC && ins.op != MTEPSW ==> SameReturn(s, ExecStatus(s, ins))
  {
    assert SameReturn(s, ExecJump(s, ins));
    assert SameReturn(s, ExecSystem(s, bus, ins));
  }

  lemma ExecLeavesReturn(s: State, fpu: Fpu, bus: Bus, ins: Instr)
    requires Encoded(ins) && ins.op != MTEPC && ins.op != MTEPSW
    ensures SameReturn(s, Exec(s, fpu, bus, ins))
  {
    match UnitOf(ins.op)
    case IntegerUnit => assert SameReturn(s, ExecInteger(s, bus, ins));
    case _ => ControlLeavesReturn(s, bus, ins);
  }

  lemma StepLeavesReturn(s: State, e: Event)
    requires LeavesReturn(e) && Encoded(e.ins)
    ensures SameReturn(s, Next(s, e))
  {
    assert SameReturn(s, Fetched(s, e.ins));
    ExecLeavesReturn(Fetched(s, e.ins), e.fpu, e.bus, e.ins);
  }

  lemma {:induction false} RunLeavesReturn(s: State, es: seq<Event>)
    requires AllEncoded(es) && forall e | e in es :: LeavesReturn(e)
    ensures SameReturn(s, After(s, es))
    decreases |es|
  {
    if es != [] {
      assert es[0] in es;
      StepLeavesReturn(s, es[0]);
      RunLeavesReturn(Next(s, es[0]), es[1..]);
    }
  }

  /** `u` is back where `s` was, with the registers that `t` has in the bank `s` uses. */
  predicate Resumed(s: State, t: State, u: State) {
    u.pc == s.pc && u.psw == s.psw && Bank(Only(u.r, true), u.f) == Selected(Abs(t), s.psw.bank)
  }

  /** Whatever a handler does, nested traps and changes of bank included: if epc and epsw are what the
      trap saved when `reti` comes, it resumes the interrupted program at its instruction, with its status
      word, and its registers are those the handler left in the bank that program was using. */
  lemma TrapThenReti(s: State, cause: int, handler: seq<Event>, fpu: Fpu, bus: Bus, reti: Instr)
    requires AllEncoded(handler) && reti.op == RETI
    requires var t := After(Trap(s, cause), handler); t.epc == s.pc && t.epsw == s.psw
    ensures var t := After(Trap(s, cause), handler);
      var u := Step(t, fpu, bus, reti);
      Resumed(s, t, u) && (forall k | k in {0, 1, 14} :: u.r[k] == t.r[k])
  {
    RetiKeepsRegisters(After(Trap(s, cause), handler), fpu, bus, reti);
  }

  /** `reti` takes pc and status word from epc and epsw, and leaves every register of both banks alone. */
  lemma RetiKeepsRegisters(t: State, fpu: Fpu, bus: Bus, reti: Instr)
    requires reti.op == RETI
    ensures var u := Step(t, fpu, bus, reti);
      && u.pc == t.epc && u.psw == t.epsw
      && Abs(u).first == Abs(t).first && Abs(u).second == Abs(t).second
      && Bank(Only(u.r, true), u.f) == Selected(Abs(t), u.psw.bank)
      && (forall k | k in {0, 1, 14} :: u.r[k] == t.r[k])
  {
    var u := Step(t, fpu, bus, reti);
    StepRefines(t, fpu, bus, reti);
    ViewOfAbs(t);
    StoreBack(t, Fetched(t, reti));
    SameCommon(t, u);
  }

  lemma SameCommon(t: State, u: State)
    ensures Abs(u).common == Abs(t).common ==> forall k | k in {0, 1, 14} :: u.r[k] == t.r[k]
  {
    forall k | k in {0, 1, 14}
      ensures Abs(u).common[k] == u.r[k] && Abs(t).common[k] == t.r[k]
    {
    }
  }

  /** So does every handler that takes no trap and does not write epc or epsw. */
  lemma PlainHandlerReturns(s: State, cause: int, handler: seq<Event>, fpu: Fpu, bus: Bus, reti: Instr)
    requires AllEncoded(handler) && (forall e | e in handler :: LeavesReturn(e)) && reti.op == RETI
    ensures var t := After(Trap(s, cause), handler); Resumed(s, t, Step(t, fpu, bus, reti))
  {
    RunLeavesReturn(Trap(s, cause), handler);
    TrapThenReti(s, cause, handler, fpu, bus, reti);
  }

  /** With an empty handler nothing but the trap's own record of itself has changed. */
  lemma TrapAndStraightReti(s: State, cause: int, fpu: Fpu, bus: Bus, reti: Instr)
    requires reti.op == RETI
    ensures Step(Trap(s, cause), fpu, bus, reti)
         == s.(epc := s.pc, epsw := s.psw, cause := cause, cycles := s.cycles + 1)
  {
    var t := Fetched(Trap(s, cause), reti);
    assert t.psw.bank == t.epsw.bank;
  }
}
