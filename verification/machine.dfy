/** The board's main loop: it steps the CPU that is furthest behind, after letting the devices reach
    its instant and after delivering at most one of its interrupts. What the devices answer is an
    input, so everything here holds whatever they answer. */
module Machine {
  import opened Words
  import opened Cpu
  import opened Timing
  import opened Memory
  import Core

  const CAUSE_TIMER := 0
  const CAUSE_KBD := 1
  const CAUSE_CMP := 2
  const CAUSE_MBOX := 4

  /** What the rest of the board says during one iteration: the answers to the accesses, the first
      comparator over (-1 if none), the lines of keyboard and mailbox as this CPU sees them, whether an
      access missed every memory, and whether the outside world failed. */
  datatype Input = Input(fpu: Fpu, bus: Bus, cmp: int, kbd: bool, mbox: bool, miss: bool, worldFails: bool)

  /** The two CPUs with their programs; `div` master ticks make one of their cycles. */
  datatype Board = Board(cpu: seq<State>, prog: seq<seq<Instr>>, div: nat, fault: bool)

  predicate Built(m: Board) {
    && |m.cpu| == 2 && |m.prog| == 2 && m.div > 0
    && forall i, k | 0 <= i < 2 && 0 <= k < |m.prog[i]| :: Encoded(m.prog[i][k])
  }

  predicate Runnable(m: Board, id: nat)
    requires Built(m) && id < 2
  {
    !m.cpu[id].halted && 0 <= m.cpu[id].pc < |m.prog[id]|
  }

  function Now(m: Board, id: nat): nat
    requires Built(m) && id < 2
  {
    m.cpu[id].cycles * m.div
  }

  /** The CPU to step: the furthest behind, CPU 0 on a tie, 2 when none can run. */
  function Chosen(m: Board): (id: nat)
    requires Built(m)
    ensures id <= 2 && (id < 2 ==> Runnable(m, id))
  {
    if m.fault then 2
    else if Runnable(m, 0) && (!Runnable(m, 1) || m.cpu[0].cycles <= m.cpu[1].cycles) then 0
    else if Runnable(m, 1) then 1
    else 2
  }

  predicate TimerOver(s: State) { s.timerPeriod > 0 && s.cycles >= s.timerNext }

  datatype Request = NoRequest | Request(cause: int)

  /** The interrupt to deliver: comparators first, then the timer, the keyboard, the mailbox. */
  function Arbitrated(s: State, x: Input): Request {
    if !s.psw.ie then NoRequest
    else if x.cmp >= 0 then Request(CAUSE_CMP + x.cmp)
    else if TimerOver(s) then Request(CAUSE_TIMER)
    else if x.kbd then Request(CAUSE_KBD)
    else if x.mbox then Request(CAUSE_MBOX)
    else NoRequest
  }

  function Ran(s: State, x: Input, ins: Instr): State {
    if Encoded(ins) then Step(s, x.fpu, x.bus, ins) else s
  }

  function TheCore(): Stepper<Input> { (s: State, x: Input, ins: Instr) => Ran(s, x, ins) }

  /** The CPU after its interrupt or its instruction. A timer delivery sets the next deadline. */
  function Served(core: Stepper<Input>, s: State, x: Input, ins: Instr): State {
    match Arbitrated(s, x)
    case NoRequest => core(s, x, ins)
    case Request(cause) =>
      Trap(if cause == CAUSE_TIMER then s.(timerNext := s.cycles + s.timerPeriod) else s, cause)
  }

  function Stopped(s: State): State { s.(halted := true) }

  /** CPU `id` has had its turn. */
  function Turned(core: Stepper<Input>, m: Board, x: Input, id: nat): (n: Board)
    requires Built(m) && id < 2 && Runnable(m, id)
    ensures Built(n) && n.prog == m.prog && n.div == m.div
  {
    var s := m.cpu[id];
    Board(m.cpu[id := Served(core, s, x, m.prog[id][s.pc])], m.prog, m.div, Arbitrated(s, x).NoRequest? && x.miss)
  }

  /** A failed outside world stops every CPU. */
  function Checked(m: Board, x: Input): (n: Board)
    requires Built(m)
    ensures Built(n) && n.prog == m.prog && n.div == m.div
  {
    if x.worldFails then m.(cpu := [Stopped(m.cpu[0]), Stopped(m.cpu[1])]) else m
  }

  /** One iteration of the loop. */
  function Next(core: Stepper<Input>, m: Board, x: Input): (n: Board)
    requires Built(m)
    ensures Built(n) && n.prog == m.prog && n.div == m.div
  {
    var id := Chosen(m);
    if id == 2 then m else Checked(Turned(core, m, x, id), x)
  }

  function After(core: Stepper<Input>, m: Board, xs: seq<Input>): (n: Board)
    requires Built(m)
    ensures Built(n) && n.prog == m.prog && n.div == m.div
    decreases |xs|
  {
    if xs == [] then m else After(core, Next(core, m, xs[0]), xs[1..])
  }

  // --- what time needs to know of a core -------------------------------------------------------

  /** An instruction adds its cost to its own clock, and the free ones only walk down the program. */
  ghost predicate Timed(core: Stepper<Input>) {
    forall s: State, x: Input, ins: Instr | Encoded(ins) :: Takes(core, s, x, ins)
  }

  predicate Takes(core: Stepper<Input>, s: State, x: Input, ins: Instr) {
    var t := core(s, x, ins);
    && t.cycles == s.cycles + Cost(ins.op, s.vl)
    && (IsDump(ins.op) ==> t.pc == Wrap64(s.pc + 1) && t.psw == s.psw && t.handler == s.handler)
  }

  lemma JumpKeepsTime(s: State, ins: Instr)
    requires Encoded(ins)
    ensures ExecJump(s, ins).cycles == s.cycles
  {
  }

  lemma StatusKeepsTime(s: State, ins: Instr)
    requires Encoded(ins)
    ensures ExecStatus(s, ins).cycles == s.cycles
  {
  }

  lemma SystemKeepsTime(s: State, bus: Bus, ins: Instr)
    requires Encoded(ins)
    ensures ExecSystem(s, bus, ins).cycles == s.cycles
  {
  }

  lemma IntegerKeepsTime(s: State, bus: Bus, ins: Instr)
    requires Encoded(ins) && UnitOf(ins.op) == IntegerUnit
    ensures ExecInteger(s, bus, ins).cycles == s.cycles
  {
  }

  lemma ExecKeepsTime(s: State, fpu: Fpu, bus: Bus, ins: Instr)
    requires Encoded(ins)
    ensures Exec(s, fpu, bus, ins).cycles == s.cycles
  {
    match UnitOf(ins.op) {
      case IntegerUnit => IntegerKeepsTime(s, bus, ins);
      case JumpUnit => JumpKeepsTime(s, ins);
      case StatusUnit => StatusKeepsTime(s, ins);
      case SystemUnit => SystemKeepsTime(s, bus, ins);
      case _ =>
    }
  }

  lemma DumpWalks(s: State, fpu: Fpu, bus: Bus, ins: Instr)
    requires Encoded(ins) && IsDump(ins.op)
    ensures Step(s, fpu, bus, ins) == s.(pc := Wrap64(s.pc + 1))
  {
    assert Dirties(ins.op) == NoDirt && UnitOf(ins.op) == NoUnit;
  }

  lemma StepTakes(s: State, x: Input, ins: Instr)
    requires Encoded(ins)
    ensures Takes(TheCore(), s, x, ins)
  {
    ExecKeepsTime(Fetched(s, ins), x.fpu, x.bus, ins);
    if IsDump(ins.op) {
      DumpWalks(s, x.fpu, x.bus, ins);
    }
  }

  lemma TheCoreIsTimed()
    ensures Timed(TheCore())
  {
    forall s: State, x: Input, ins: Instr | Encoded(ins)
      ensures Takes(TheCore(), s, x, ins)
    {
      StepTakes(s, x, ins);
    }
  }

  // --- the clocks -------------------------------------------------------------------------------

  /** While both CPUs run, neither is more than one instruction ahead. */
  predicate Close(m: Board)
    requires Built(m)
  {
    Runnable(m, 0) && Runnable(m, 1) ==> -LONGEST <= m.cpu[0].cycles - m.cpu[1].cycles <= LONGEST
  }

  /** The CPU that is not stepped keeps its clock; the one that is keeps or advances it. */
  lemma NextStillRuns(core: Stepper<Input>, m: Board, x: Input)
    requires Built(m) && Chosen(m) < 2
    ensures var (n, id) := (Next(core, m, x), Chosen(m));
      n.cpu[1 - id].cycles == m.cpu[1 - id].cycles && (Runnable(n, 1 - id) ==> Runnable(m, 1 - id))
  {
  }

  lemma NextClocks(core: Stepper<Input>, m: Board, x: Input)
    requires Built(m) && Timed(core) && Chosen(m) < 2
    ensures var (n, id) := (Next(core, m, x), Chosen(m));
      0 <= n.cpu[id].cycles - m.cpu[id].cycles <= LONGEST
  {
    var (s, id) := (m.cpu[Chosen(m)], Chosen(m));
    var ins := m.prog[id][s.pc];
    assert Takes(core, s, x, ins);
    CostBounds(ins.op, s.vl);
  }

  lemma {:induction false} ClocksStayClose(core: Stepper<Input>, m: Board, xs: seq<Input>)
    requires Built(m) && Timed(core) && Close(m)
    ensures Close(After(core, m, xs))
    decreases |xs|
  {
    if xs != [] {
      if Chosen(m) < 2 {
        NextClocks(core, m, xs[0]);
        NextStillRuns(core, m, xs[0]);
      }
      ClocksStayClose(core, Next(core, m, xs[0]), xs[1..]);
    }
  }

  // --- the order of instants --------------------------------------------------------------------

  /** The instants the rest of the board sees: the devices brought up to `t`, or an access to a device
      register at `t`. */
  datatype Moment = Advance(t: int) | Access(t: int)

  /** Only `lw` and `sw` reach a device register. */
  predicate Touches(s: State, ins: Instr) {
    Encoded(ins) && ins.op in {LW, SW} && IsMmio(Wrap64(R(s, ins.b) + ins.imm))
  }

  function Moments(m: Board, x: Input): seq<Moment>
    requires Built(m)
  {
    var id := Chosen(m);
    if id == 2 then []
    else
      var s := m.cpu[id];
      [Advance(Now(m, id))] +
      if Arbitrated(s, x).NoRequest? && Touches(s, m.prog[id][s.pc])
      then [Access((s.cycles + Cost(m.prog[id][s.pc].op, s.vl)) * m.div)] else []
  }

  function Trace(core: Stepper<Input>, m: Board, xs: seq<Input>): seq<Moment>
    requires Built(m)
    decreases |xs|
  {
    if xs == [] then [] else Moments(m, xs[0]) + Trace(core, Next(core, m, xs[0]), xs[1..])
  }

  /** The boundary a moment belongs to: an access comes when its instruction's cycles have passed. */
  function Boundary(e: Moment, div: nat): int { if e.Access? then e.t - ACCESS_CYCLES * div else e.t }

  lemma MomentsAreNow(m: Board, x: Input)
    requires Built(m) && Chosen(m) < 2
    ensures forall e | e in Moments(m, x) :: Boundary(e, m.div) == Now(m, Chosen(m))
  {
    var (id, s) := (Chosen(m), m.cpu[Chosen(m)]);
    if Touches(s, m.prog[id][s.pc]) {
      assert Cost(m.prog[id][s.pc].op, s.vl) == ACCESS_CYCLES;
      assert (s.cycles + ACCESS_CYCLES) * m.div == s.cycles * m.div + ACCESS_CYCLES * m.div;
    }
  }

  lemma ScaleKeepsOrder(c: nat, d: nat, div: nat)
    requires c <= d
    ensures c * div <= d * div
  {
  }

  /** Stepping the CPU furthest behind never takes the front of time back. */
  lemma FrontAdvances(core: Stepper<Input>, m: Board, x: Input)
    requires Built(m) && Timed(core) && Chosen(m) < 2 && Chosen(Next(core, m, x)) < 2
    ensures Now(Next(core, m, x), Chosen(Next(core, m, x))) >= Now(m, Chosen(m))
  {
    NextClocks(core, m, x);
    NextStillRuns(core, m, x);
    var n := Next(core, m, x);
    ScaleKeepsOrder(m.cpu[Chosen(m)].cycles, n.cpu[Chosen(n)].cycles, m.div);
  }

  lemma {:induction false} TraceAhead(core: Stepper<Input>, m: Board, xs: seq<Input>)
    requires Built(m) && Timed(core) && Chosen(m) < 2
    ensures forall e | e in Trace(core, m, xs) :: Boundary(e, m.div) >= Now(m, Chosen(m))
    decreases |xs|
  {
    if xs != [] {
      MomentsAreNow(m, xs[0]);
      var n := Next(core, m, xs[0]);
      if Chosen(n) < 2 {
        FrontAdvances(core, m, xs[0]);
        TraceAhead(core, n, xs[1..]);
      } else {
        StoppedIsSilent(core, n, xs[1..]);
      }
    }
  }

  lemma {:induction false} StoppedIsSilent(core: Stepper<Input>, m: Board, xs: seq<Input>)
    requires Built(m) && Chosen(m) == 2
    ensures Trace(core, m, xs) == [] && After(core, m, xs) == m
    decreases |xs|
  {
    if xs != [] {
      StoppedIsSilent(core, m, xs[1..]);
    }
  }

  predicate InOrder(tr: seq<Moment>, div: nat) {
    forall i, j | 0 <= i < j < |tr| :: Boundary(tr[i], div) <= Boundary(tr[j], div)
  }

  lemma JoinInOrder(here: seq<Moment>, rest: seq<Moment>, div: nat, now: int)
    requires forall e | e in here :: Boundary(e, div) == now
    requires forall e | e in rest :: Boundary(e, div) >= now
    requires InOrder(rest, div)
    ensures InOrder(here + rest, div)
  {
    var tr := here + rest;
    forall i, j | 0 <= i < j < |tr|
      ensures Boundary(tr[i], div) <= Boundary(tr[j], div)
    {
      if i < |here| {
        assert tr[i] in here && (tr[j] in here || tr[j] in rest);
      } else {
        assert tr[i] == rest[i - |here|] && tr[j] == rest[j - |here|];
      }
    }
  }

  lemma {:induction false} TraceInOrder(core: Stepper<Input>, m: Board, xs: seq<Input>)
    requires Built(m) && Timed(core)
    ensures InOrder(Trace(core, m, xs), m.div)
    decreases |xs|
  {
    if Chosen(m) == 2 {
      StoppedIsSilent(core, m, xs);
    } else if xs != [] {
      MomentsAreNow(m, xs[0]);
      TraceAhead(core, m, xs);
      TraceInOrder(core, Next(core, m, xs[0]), xs[1..]);
      JoinInOrder(Moments(m, xs[0]), Trace(core, Next(core, m, xs[0]), xs[1..]), m.div, Now(m, Chosen(m)));
    }
  }

  /** On every run: the devices are never brought back in time; the accesses to device registers, by
      either CPU, never go back either; a device may be seen at most one access ahead of a later
      boundary; and two running CPUs are never more than one instruction apart. */
  lemma GlobalTime(m: Board, xs: seq<Input>)
    requires Built(m) && m.cpu[0].cycles == m.cpu[1].cycles
    ensures var tr := Trace(TheCore(), m, xs);
      && (forall i, j | 0 <= i < j < |tr| && tr[i].Advance? == tr[j].Advance? :: tr[i].t <= tr[j].t)
      && (forall i, j | 0 <= i < j < |tr| :: tr[i].t - ACCESS_CYCLES * m.div <= tr[j].t)
    ensures Close(After(TheCore(), m, xs))
  {
    TheCoreIsTimed();
    TraceInOrder(TheCore(), m, xs);
    ClocksStayClose(TheCore(), m, xs);
    var tr := Trace(TheCore(), m, xs);
    forall i, j | 0 <= i < j < |tr|
      ensures tr[i].t - ACCESS_CYCLES * m.div <= tr[j].t
      ensures tr[i].Advance? == tr[j].Advance? ==> tr[i].t <= tr[j].t
    {
      assert Boundary(tr[i], m.div) <= Boundary(tr[j], m.div);
    }
  }

  /** A board whose CPU 0 begins by reading a device register and whose CPU 1 begins by halting. */
  function Reader(): Board {
    var s := PowerOn().(r := PowerOn().r[2 := MMIO_BASE]);
    Board([s, s], [[Instr(LW, 1, 2, 0, 0, 0, 0)], [Instr(HALT, 0, 0, 0, 0, 0, 0)]], 1, false)
  }

  /** Advances and accesses together are not in order: the access of one CPU at 4 comes before the other's
      boundary at 0. */
  lemma AccessRunsAhead(fpu: Fpu, bus: Bus)
    ensures var x := Input(fpu, bus, -1, false, false, false, false);
      var tr := Trace(TheCore(), Reader(), [x, x]);
      Built(Reader()) && |tr| >= 3 && tr[1] == Access(4) && tr[2] == Advance(0)
  {
    var x := Input(fpu, bus, -1, false, false, false, false);
    var m := Reader();
    assert Chosen(m) == 0 && Touches(m.cpu[0], m.prog[0][0]);
    assert Moments(m, x) == [Advance(0), Access(4)];
    TheCoreIsTimed();
    NextClocks(TheCore(), m, x);
    var n := Next(TheCore(), m, x);
    StepTakes(m.cpu[0], x, m.prog[0][0]);
    assert n.cpu[1] == m.cpu[1] && n.cpu[0].cycles == 4;
    assert Chosen(n) == 1;
    assert Moments(n, x)[0] == Advance(0);
    assert [x, x][1..] == [x];
    assert Trace(TheCore(), m, [x, x]) == Moments(m, x) + Trace(TheCore(), n, [x]);
    assert Trace(TheCore(), n, [x]) == Moments(n, x) + Trace(TheCore(), Next(TheCore(), n, x), [x][1..]);
  }

  // --- progress ---------------------------------------------------------------------------------

  /** The free iterations a CPU still has before its clock must move: at most one trap, since nothing
      free opens the interrupts again, and the dumps before and after it. */
  function Idle(m: Board, id: nat): (k: int)
    requires Built(m) && id < 2
    ensures Runnable(m, id) ==> 1 <= k <= 2 * |m.prog[id]| + 1
  {
    (if m.cpu[id].psw.ie then |m.prog[id]| + 1 else 0) + |m.prog[id]| - m.cpu[id].pc
  }

  lemma IdleDecreases(core: Stepper<Input>, m: Board, x: Input)
    requires Built(m) && Timed(core) && Chosen(m) < 2
    requires var (n, id) := (Next(core, m, x), Chosen(m));
      n.cpu[id].cycles == m.cpu[id].cycles && Chosen(n) < 2
    ensures var (n, id) := (Next(core, m, x), Chosen(m));
      Chosen(n) != id || Idle(n, id) < Idle(m, id)
  {
    var (s, id) := (m.cpu[Chosen(m)], Chosen(m));
    var ins := m.prog[id][s.pc];
    assert Takes(core, s, x, ins);
    CostBounds(ins.op, s.vl);
  }

  lemma {:induction false} ClocksOnlyAdvance(core: Stepper<Input>, m: Board, xs: seq<Input>, id: nat)
    requires Built(m) && Timed(core) && id < 2
    ensures var n := After(core, m, xs);
      n.cpu[id].cycles >= m.cpu[id].cycles && (Runnable(n, id) ==> Runnable(m, id))
    decreases |xs|
  {
    if xs != [] {
      if Chosen(m) < 2 {
        NextClocks(core, m, xs[0]);
        NextStillRuns(core, m, xs[0]);
      }
      ClocksOnlyAdvance(core, Next(core, m, xs[0]), xs[1..], id);
    }
  }

  /** The CPU chosen is not left until its clock has moved, unless it stops. */
  lemma StaysChosen(core: Stepper<Input>, m: Board, x: Input)
    requires Built(m) && Timed(core) && Chosen(m) < 2
    requires var (n, id) := (Next(core, m, x), Chosen(m));
      n.cpu[id].cycles == m.cpu[id].cycles && Runnable(n, id) && !n.fault
    ensures Chosen(Next(core, m, x)) == Chosen(m)
  {
    NextStillRuns(core, m, x);
  }

  lemma {:induction false} IdleRunsOut(core: Stepper<Input>, m: Board, xs: seq<Input>, id: nat)
    requires Built(m) && Timed(core) && id < 2 && Chosen(m) == id && |xs| >= Idle(m, id)
    ensures var n := After(core, m, xs); n.cpu[id].cycles > m.cpu[id].cycles || !Runnable(n, id) || n.fault
    decreases |xs|
  {
    var n := Next(core, m, xs[0]);
    NextClocks(core, m, xs[0]);
    ClocksOnlyAdvance(core, n, xs[1..], id);
    if n.cpu[id].cycles == m.cpu[id].cycles && Runnable(n, id) {
      if n.fault {
        StoppedIsSilent(core, n, xs[1..]);
      } else {
        StaysChosen(core, m, xs[0]);
        IdleDecreases(core, m, xs[0]);
        IdleRunsOut(core, n, xs[1..], id);
      }
    }
  }

  /** No standstill: after 2 * length + 1 iterations, whatever the devices ask, the clock of the CPU that was
      due has moved, or that CPU or the board has stopped. */
  lemma ClockMoves(m: Board, xs: seq<Input>)
    requires Built(m) && Chosen(m) < 2 && |xs| >= 2 * |m.prog[Chosen(m)]| + 1
    ensures var (n, id) := (After(TheCore(), m, xs), Chosen(m));
      n.cpu[id].cycles > m.cpu[id].cycles || !Runnable(n, id) || n.fault
  {
    TheCoreIsTimed();
    IdleRunsOut(TheCore(), m, xs, Chosen(m));
  }

  // --- power-on and loading ----------------------------------------------------------------------

  /** A CPU is stopped until it receives a program. */
  method StoppedCpu() returns (c: Core.VCpu)
    ensures c.Valid() && fresh(c.Repr()) && c.Contents() == Stopped(PowerOn())
  {
    c := new Core.VCpu();
    c.halted := true;
  }

  method BothCpus() returns (cpu: array<Core.VCpu>)
    ensures cpu.Length == 2 && fresh(cpu) && fresh(cpu[0].Repr()) && fresh(cpu[1].Repr())
    ensures cpu[0].Repr() !! cpu[1].Repr() && cpu !in cpu[0].Repr() + cpu[1].Repr()
    ensures forall i | 0 <= i < 2 :: cpu[i].Valid() && cpu[i].Contents() == Stopped(PowerOn())
  {
    var c0 := StoppedCpu();
    var c1 := StoppedCpu();
    cpu := new Core.VCpu[2] [c0, c1];
  }

  function Unloaded(div: nat): Board { Board([Stopped(PowerOn()), Stopped(PowerOn())], [[], []], div, false) }

  /** A program for one CPU, which begins at `entry`. */
  function Loaded(m: Board, id: nat, p: seq<Instr>, entry: int64): Board
    requires Built(m) && id < 2
  {
    m.(cpu := m.cpu[id := m.cpu[id].(pc := entry, halted := false)], prog := m.prog[id := p])
  }

  // --- the loop itself --------------------------------------------------------------------------

  class VMachine {
    const cpu: array<Core.VCpu>
    const prog: array<seq<Instr>>
    const div: nat
    var fault: bool

    ghost predicate Valid()
      reads cpu, prog
    {
      && cpu.Length == 2 && prog.Length == 2 && div > 0
      && cpu[0].Valid() && cpu[1].Valid() && cpu[0].Repr() !! cpu[1].Repr()
      && {cpu as object, prog, this} !! cpu[0].Repr() + cpu[1].Repr()
      && forall i, k | 0 <= i < 2 && 0 <= k < |prog[i]| :: Encoded(prog[i][k])
    }

    ghost function Repr(): set<object>
      reads cpu
    {
      {this, cpu, prog} + if cpu.Length == 2 then cpu[0].Repr() + cpu[1].Repr() else {}
    }

    function Contents(): (m: Board)
      requires Valid()
      reads this, cpu, prog, Repr()
      ensures Built(m)
    {
      Board([cpu[0].Contents(), cpu[1].Contents()], prog[..], div, fault)
    }

    constructor (div: nat)
      requires div > 0
      ensures Valid() && fresh(Repr()) && Contents() == Unloaded(div)
    {
      var both := BothCpus();
      cpu, prog := both, new seq<Instr>[2](i => []);
      this.div, fault := div, false;
      new;
      assert prog[..] == [[], []];
    }

    method Load(id: nat, p: seq<Instr>, entry: int64)
      requires Valid() && id < 2 && forall k | 0 <= k < |p| :: Encoded(p[k])
      modifies cpu[id], prog
      ensures Valid() && Contents() == Loaded(old(Contents()), id, p, entry)
    {
      cpu[id].pc, cpu[id].halted := entry, false;
      prog[id] := p;
    }

    /** The search of the loop: the runnable CPU with the smallest clock, the first of equals. */
    method NextCpu() returns (best: nat)
      requires Valid() && !fault
      ensures best == Chosen(Contents())
    {
      best := 2;
      for i := 0 to 2
        invariant best <= 2
        invariant best < 2 ==> best < i && Runnable(Contents(), best)
        invariant forall k | 0 <= k < i && Runnable(Contents(), k) ::
          best < 2 && cpu[best].cycles <= cpu[k].cycles && (k < best ==> cpu[best].cycles < cpu[k].cycles)
      {
        var runnable := !cpu[i].halted && 0 <= cpu[i].pc < |prog[i]|;
        if runnable && (best == 2 || cpu[i].cycles * div < cpu[best].cycles * div) {
          best := i;
        }
      }
    }

    method DeliverTimer(c: Core.VCpu)
      requires c.Valid()
      modifies c
      ensures var s := old(c.Contents());
        c.Contents() == Trap(s.(timerNext := s.cycles + if s.timerPeriod > 0 then s.timerPeriod else 0), CAUSE_TIMER)
    {
      c.timerNext := c.cycles + if c.timerPeriod > 0 then c.timerPeriod else 0;
      c.Trap(CAUSE_TIMER);
    }

    /** The sources in their fixed order; the first one pending is delivered, if interrupts are open. */
    method Interrupt(c: Core.VCpu, x: Input) returns (delivered: bool)
      requires c.Valid()
      modifies c
      ensures delivered == Arbitrated(old(c.Contents()), x).Request?
      ensures delivered ==> forall core, ins :: c.Contents() == Served(core, old(c.Contents()), x, ins)
      ensures !delivered ==> c.Contents() == old(c.Contents())
    {
      delivered := true;
      if c.psw.ie && x.cmp >= 0 {
        c.Trap(CAUSE_CMP + x.cmp);
      } else if c.psw.ie && c.timerPeriod > 0 && c.cycles >= c.timerNext {
        DeliverTimer(c);
      } else if c.psw.ie && x.kbd {
        c.Trap(CAUSE_KBD);
      } else if c.psw.ie && x.mbox {
        c.Trap(CAUSE_MBOX);
      } else {
        delivered := false;
      }
    }

    /** One CPU's turn: its first pending interrupt, or its next instruction. */
    method Serve(id: nat, x: Input)
      requires Valid() && id < 2 && Runnable(Contents(), id)
      modifies cpu[id].Repr(), this`fault
      ensures var s := old(cpu[id].Contents());
        && cpu[id].Contents() == Served(TheCore(), s, x, prog[id][s.pc])
        && fault == (Arbitrated(s, x).NoRequest? && x.miss)
    {
      var delivered := Interrupt(cpu[id], x);
      fault := false;
      if !delivered {
        fault := x.miss;
        cpu[id].Step(x.fpu, x.bus, prog[id][cpu[id].pc]);
      }
    }

    /** A failed outside world stops every CPU. */
    method StopAll()
      requires Valid()
      modifies cpu[0], cpu[1]
      ensures cpu[0].Contents() == Stopped(old(cpu[0].Contents()))
      ensures cpu[1].Contents() == Stopped(old(cpu[1].Contents()))
    {
      for i := 0 to 2
        modifies cpu[0], cpu[1]
        invariant cpu[0].Contents() == if i > 0 then Stopped(old(cpu[0].Contents())) else old(cpu[0].Contents())
        invariant cpu[1].Contents() == if i > 1 then Stopped(old(cpu[1].Contents())) else old(cpu[1].Contents())
      {
        cpu[i].halted := true;
      }
    }

    method Turn(id: nat, x: Input)
      requires Valid() && id < 2 && Chosen(Contents()) == id && !fault
      modifies Repr()
      ensures Valid() && Repr() == old(Repr())
      ensures Contents() == Turned(TheCore(), old(Contents()), x, id)
    {
      ghost var other := cpu[1 - id].Contents();
      Serve(id, x);
      assert cpu[1 - id].Contents() == other;
    }

    method Check(x: Input)
      requires Valid()
      modifies cpu[0], cpu[1]
      ensures Valid() && Repr() == old(Repr())
      ensures Contents() == Checked(old(Contents()), x)
    {
      if x.worldFails {
        StopAll();
      }
    }

    method Iterate(x: Input)
      requires Valid()
      modifies Repr()
      ensures Valid() && Repr() == old(Repr())
      ensures Contents() == Next(TheCore(), old(Contents()), x)
    {
      if fault {
        return;
      }
      var id := NextCpu();
      if id == 2 {
        return;
      }
      Turn(id, x);
      Check(x);
    }

    /** The loop, over the inputs of a run of any length. */
    method Run(xs: seq<Input>)
      requires Valid()
      modifies Repr()
      ensures Valid() && Contents() == After(TheCore(), old(Contents()), xs)
    {
      ghost var goal := After(TheCore(), Contents(), xs);
      for i := 0 to |xs|
        invariant Valid() && Repr() == old(Repr())
        invariant After(TheCore(), Contents(), xs[i..]) == goal
      {
        assert xs[i..][1..] == xs[i + 1..];
        Iterate(xs[i]);
      }
    }
  }
}
