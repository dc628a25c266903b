/** What the main loop makes of the receiver and the transmitter: the turns of its CPUs, with the
    accesses their instructions make, are the turns the devices see. */
module MachineRuns {
  import opened Words
  import opened Cpu
  import opened Memory
  import opened Machine
  import BoardRuns
  import Adc
  import Tx = Transmitter

  /** What a load or a store of a device register is to the two devices. */
  function AccessOf(s: State, ins: Instr): BoardRuns.Access
    requires Encoded(ins) && ins.op in {LW, SW}
  {
    var addr := Wrap64(R(s, ins.b) + ins.imm);
    if ins.op == SW then
      if Tx.Owns(addr, true) then BoardRuns.TxStore(addr, Wrap32(s.r[ins.a]))
      else if addr in {Adc.ADC_ADDR, Adc.ADC_COUNT, Adc.ADC_PERIOD, Adc.ADC_CTRL, Adc.ADC_AT}
      then BoardRuns.AdcStore(addr, Wrap32(s.r[ins.a]))
      else BoardRuns.Elsewhere
    else if Tx.Owns(addr, false) then BoardRuns.TxLoad(addr)
    else if addr in {Adc.ADC_STATUS, Adc.ADC_ADDR, Adc.ADC_COUNT, Adc.ADC_PERIOD, Adc.ADC_AT}
    then BoardRuns.AdcLoad(addr)
    else BoardRuns.Elsewhere
  }

  /** The next turn of a board that is running. */
  function TurnOf(m: Board, x: Input): BoardRuns.Turn
    requires Built(m) && Chosen(m) < 2
  {
    var (id, s) := (Chosen(m), m.cpu[Chosen(m)]);
    var ins := m.prog[id][s.pc];
    if Arbitrated(s, x).NoRequest? && Touches(s, ins) then BoardRuns.Touching(Now(m, id), AccessOf(s, ins))
    else BoardRuns.Silent(Now(m, id))
  }

  /** The turns of something that steps. */
  datatype Source<!M(!new), !X(!new)> = Source(due: M -> bool, turn: (M, X) -> BoardRuns.Turn, next: (M, X) -> M)

  function Turns<M(!new), X(!new)>(f: Source<M, X>, m: M, xs: seq<X>): seq<BoardRuns.Turn>
    decreases |xs|
  {
    if xs == [] || !f.due(m) then [] else [f.turn(m, xs[0])] + Turns(f, f.next(m, xs[0]), xs[1..])
  }

  function AccessAfter(u: BoardRuns.Turn, a: nat, cycle: nat): nat {
    if u.Touching? then u.t + ACCESS_CYCLES * cycle else a
  }

  predicate InStep<M(!new), X(!new)>(
    f: Source<M, X>, waits: (M, nat, nat) -> bool, m: M, x: X, t: nat, a: nat, cycle: nat)
  {
    f.due(m) && waits(m, t, a) ==>
      var u := f.turn(m, x);
      t <= u.t && !(t < a < u.t) && waits(f.next(m, x), u.t, AccessAfter(u, a, cycle))
  }

  ghost predicate AlwaysInStep<M(!new), X(!new)>(f: Source<M, X>, waits: (M, nat, nat) -> bool, cycle: nat) {
    forall m, x, t: nat, a: nat :: InStep(f, waits, m, x, t, a, cycle)
  }

  /** A condition that every step keeps, and under which the next turn is in time, makes a timeline. */
  lemma {:induction false} TurnsAreTimely<M(!new), X(!new)>(
      f: Source<M, X>, waits: (M, nat, nat) -> bool, m: M, xs: seq<X>, t: nat, a: nat, ck: BoardRuns.Clock)
    requires waits(m, t, a) && AlwaysInStep(f, waits, ck.cycle)
    ensures BoardRuns.Timeline(t, a, Turns(f, m, xs), ck)
    decreases |xs|
  {
    if xs != [] && f.due(m) {
      var u := f.turn(m, xs[0]);
      assert InStep(f, waits, m, xs[0], t, a, ck.cycle);
      TurnsAreTimely(f, waits, f.next(m, xs[0]), xs[1..], u.t, AccessAfter(u, a, ck.cycle), ck);
      BoardRuns.OneMoreTurn(t, a, u, Turns(f, f.next(m, xs[0]), xs[1..]), ck);
    }
  }

  /** The main loop as such a source. */
  function LoopOf(core: Stepper<Input>): Source<Board, Input> {
    Source((m: Board) => Built(m) && Chosen(m) < 2,
      (m: Board, x: Input) => if Built(m) && Chosen(m) < 2 then TurnOf(m, x) else BoardRuns.Silent(0),
      (m: Board, x: Input) => if Built(m) then Next(core, m, x) else m)
  }

  function TurnsOf(core: Stepper<Input>, m: Board, xs: seq<Input>): seq<BoardRuns.Turn>
    requires Built(m)
  {
    Turns(LoopOf(core), m, xs)
  }

  /** Programs that fit their memory and do not end with a load or a store: what follows an access is
      another turn of the same CPU. */
  predicate GoesOn(m: Board)
    requires Built(m)
  {
    forall i | 0 <= i < 2 ::
      |m.prog[i]| <= MAX_INSTR && (m.prog[i] != [] ==> m.prog[i][|m.prog[i]| - 1].op !in {LW, SW})
  }

  /** Before the next turn: the last boundary was at `t`, and the CPU whose access was at `a`, if that is
      later, is waiting there. */
  predicate Waits(m: Board, t: nat, a: nat)
    requires Built(m)
  {
    Chosen(m) < 2 ==>
      && t <= Now(m, Chosen(m))
      && (a <= t || (Runnable(m, 0) && Now(m, 0) == a) || (Runnable(m, 1) && Now(m, 1) == a))
  }

  /** A load or a store takes its cycles and goes on to the next instruction. */
  predicate Lands(core: Stepper<Input>, s: State, x: Input, ins: Instr) {
    var t := core(s, x, ins);
    t.cycles == s.cycles + ACCESS_CYCLES && t.pc == Wrap64(s.pc + 1) && t.halted == s.halted
  }

  ghost predicate Landing(core: Stepper<Input>) {
    forall s: State, x: Input, ins: Instr | Encoded(ins) && ins.op in {LW, SW} :: Lands(core, s, x, ins)
  }

  lemma TheCoreLands()
    ensures Landing(TheCore())
  {
    forall s: State, x: Input, ins: Instr | Encoded(ins) && ins.op in {LW, SW}
      ensures Lands(TheCore(), s, x, ins)
    {
      AccessRuns(s, x, ins);
    }
  }

  lemma AccessRuns(s: State, x: Input, ins: Instr)
    requires Encoded(ins) && ins.op in {LW, SW}
    ensures var t := Ran(s, x, ins);
      t.cycles == s.cycles + ACCESS_CYCLES && t.pc == Wrap64(s.pc + 1) && t.halted == s.halted
  {
    var c := Fetched(s, ins);
    assert c.cycles == s.cycles + ACCESS_CYCLES && c.pc == Wrap64(s.pc + 1) && c.halted == s.halted;
    if ins.op == LW {
      assert Exec(c, x.fpu, x.bus, ins) == ExecInteger(c, x.bus, ins);
    } else {
      assert Exec(c, x.fpu, x.bus, ins) == c;
    }
  }

  lemma ChosenIsFirst(m: Board, id: nat)
    requires Built(m) && Chosen(m) < 2 && id < 2 && Runnable(m, id)
    ensures Now(m, Chosen(m)) <= Now(m, id)
  {
    ScaleKeepsOrder(m.cpu[Chosen(m)].cycles, m.cpu[id].cycles, m.div);
  }

  /** After an access its CPU waits at the end of it, unless the board stops. */
  lemma AccessWaits(core: Stepper<Input>, m: Board, x: Input)
    requires Built(m) && GoesOn(m) && Landing(core) && Chosen(m) < 2 && TurnOf(m, x).Touching?
    ensures var (n, id) := (Next(core, m, x), Chosen(m));
      Chosen(n) < 2 ==> Runnable(n, id) && n.cpu[id].cycles == m.cpu[id].cycles + ACCESS_CYCLES
  {
    var (id, s) := (Chosen(m), m.cpu[Chosen(m)]);
    var ins := m.prog[id][s.pc];
    assert Lands(core, s, x, ins);
    var n := Next(core, m, x);
    if Chosen(n) < 2 {
      assert !x.worldFails && n.cpu[id] == core(s, x, ins);
      StaysInside(m, id);
    }
  }

  /** After a load or a store there is another instruction. */
  lemma StaysInside(m: Board, id: nat)
    requires Built(m) && GoesOn(m) && id < 2 && Runnable(m, id) && m.prog[id][m.cpu[id].pc].op in {LW, SW}
    ensures 0 <= Wrap64(m.cpu[id].pc + 1) < |m.prog[id]|
  {
    assert m.cpu[id].pc != |m.prog[id]| - 1;
  }

  lemma LaterBy(c: nat, d: nat, div: nat)
    ensures (c + d) * div == c * div + d * div
  {
  }

  /** The CPU that is not stepped stays as it is, unless the board stops. */
  lemma OtherWaits(core: Stepper<Input>, m: Board, x: Input)
    requires Built(m) && Chosen(m) < 2
    ensures var (n, other) := (Next(core, m, x), 1 - Chosen(m));
      Chosen(n) < 2 ==> n.cpu[other] == m.cpu[other]
  {
  }

  lemma NextWaits(core: Stepper<Input>, m: Board, x: Input, t: nat, a: nat)
    requires Built(m) && GoesOn(m) && Timed(core) && Landing(core) && Chosen(m) < 2 && Waits(m, t, a)
    ensures var u := TurnOf(m, x);
      && t <= u.t && !(t < a < u.t)
      && Waits(Next(core, m, x), u.t, AccessAfter(u, a, m.div))
  {
    var (n, u, id) := (Next(core, m, x), TurnOf(m, x), Chosen(m));
    if a > t {
      ChosenIsFirst(m, if Runnable(m, 0) && Now(m, 0) == a then 0 else 1);
    }
    if Chosen(n) < 2 {
      FrontAdvances(core, m, x);
      OtherWaits(core, m, x);
      if u.Touching? {
        AccessWaits(core, m, x);
        LaterBy(m.cpu[id].cycles, ACCESS_CYCLES, m.div);
        assert id == 0 || id == 1;
      }
    }
  }

  function WaitsOf(div: nat): (Board, nat, nat) -> bool {
    (m: Board, t: nat, a: nat) => Built(m) && GoesOn(m) && m.div == div && Waits(m, t, a)
  }

  lemma LoopIsTimely(core: Stepper<Input>, m: Board, x: Input, t: nat, a: nat, div: nat)
    requires Timed(core) && Landing(core)
    ensures InStep(LoopOf(core), WaitsOf(div), m, x, t, a, div)
  {
    if LoopOf(core).due(m) && WaitsOf(div)(m, t, a) {
      NextWaits(core, m, x, t, a);
    }
  }

  /** The turns of every run of the board are a timeline. */
  lemma RunIsTimeline(m: Board, xs: seq<Input>, ck: BoardRuns.Clock)
    requires Built(m) && GoesOn(m) && ck.cycle == m.div
    ensures BoardRuns.Timeline(0, 0, TurnsOf(TheCore(), m, xs), ck)
  {
    TheCoreIsTimed();
    TheCoreLands();
    forall n, x, t: nat, a: nat
      ensures InStep(LoopOf(TheCore()), WaitsOf(m.div), n, x, t, a, m.div)
    {
      LoopIsTimely(TheCore(), n, x, t, a, m.div);
    }
    TurnsAreTimely(LoopOf(TheCore()), WaitsOf(m.div), m, xs, 0, 0, ck);
  }

  /** On every run of the board, whatever its programs do with the two devices: if the lengths they store
      in TX_LEN last at least an access, the receiver asking the two slots samples as if it asked the
      whole history of the transmitter. */
  lemma TwoSlotsOnEveryRun(m: Board, xs: seq<Input>, s: BoardRuns.Site, sig: Adc.Signal, ck: BoardRuns.Clock)
    requires Built(m) && GoesOn(m) && ck.cycle == m.div && ck.periph > 0
    requires BoardRuns.Fresh(s) && Adc.Ok(s.b.a) && BoardRuns.AllLong(TurnsOf(TheCore(), m, xs), ck)
    ensures BoardRuns.Played(true, s, sig, TurnsOf(TheCore(), m, xs), ck)
         == BoardRuns.Played(false, s, sig, TurnsOf(TheCore(), m, xs), ck)
  {
    RunIsTimeline(m, xs, ck);
    BoardRuns.TwoSlotsAreWhole(s, sig, TurnsOf(TheCore(), m, xs), ck);
  }

  /** And whatever the lengths: bringing the two devices up to date more often than the loop does leaves
      them, the memory and the transmissions as they are. */
  lemma ExtraBoundariesOnEveryRun(m: Board, xs: seq<Input>, s: BoardRuns.Site, sig: Adc.Signal,
      vs: seq<BoardRuns.Turn>, ck: BoardRuns.Clock)
    requires Built(m) && GoesOn(m) && ck.cycle == m.div && ck.periph > 0 && BoardRuns.Fresh(s) && Adc.Ok(s.b.a)
    requires BoardRuns.Denser(TurnsOf(TheCore(), m, xs), vs) && BoardRuns.InTime(0, vs)
    ensures BoardRuns.Played(false, s, sig, vs, ck)
         == BoardRuns.Played(false, s, sig, TurnsOf(TheCore(), m, xs), ck)
  {
    RunIsTimeline(m, xs, ck);
    BoardRuns.ExtraBoundariesDoNotMatter(s, sig, TurnsOf(TheCore(), m, xs), vs, ck);
  }
}
