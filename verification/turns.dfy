/** What the main loop promises turn by turn: who is next, what interrupts it, and what stops the board. */
module LoopLaws {
  import opened Cpu
  import opened Machine

  predicate CanRun(m: Board, id: nat)
    requires Built(m) && id < 2
  {
    !m.cpu[id].halted && 0 <= m.cpu[id].pc < |m.prog[id]|
  }

  /** CPU `id` is next exactly when the board goes on, it can run, and the other cannot, or is ahead of it, or
      is level with it and has the higher number. Nobody is when the board is at fault or none can run. */
  lemma NextIsTheLast(m: Board, id: nat)
    requires Built(m) && id < 2
    ensures var (mine, other) := (m.cpu[id].cycles, m.cpu[1 - id].cycles);
      Chosen(m) == id <==>
        !m.fault && CanRun(m, id) && (!CanRun(m, 1 - id) || mine < other || (mine == other && id == 0))
    ensures Chosen(m) == 2 <==> m.fault || (!CanRun(m, 0) && !CanRun(m, 1))
  {
  }

  /** A turn is the CPU's own: the other stays as it is, unless the outside world fails; then both stop. */
  lemma TurnsAreOwn(core: Stepper<Input>, m: Board, x: Input)
    requires Built(m) && Chosen(m) < 2
    ensures var (n, id) := (Next(core, m, x), Chosen(m));
      var mine := Served(core, m.cpu[id], x, m.prog[id][m.cpu[id].pc]);
      && n.prog == m.prog && n.div == m.div
      && n.cpu[id] == (if x.worldFails then mine.(halted := true) else mine)
      && n.cpu[1 - id] == (if x.worldFails then m.cpu[1 - id].(halted := true) else m.cpu[1 - id])
  {
  }

  predicate TimerDue(s: State) { s.timerPeriod > 0 && s.timerNext <= s.cycles }

  predicate Quiet(s: State, x: Input) { !s.psw.ie || (x.cmp < 0 && !TimerDue(s) && !x.kbd && !x.mbox) }

  /** Once at fault the board does nothing more; it is at fault when an instruction missed every memory. */
  lemma FaultsAreFinal(core: Stepper<Input>, m: Board, x: Input)
    requires Built(m)
    ensures m.fault ==> Next(core, m, x) == m
    ensures Chosen(m) < 2 ==> Next(core, m, x).fault == (x.miss && Quiet(m.cpu[Chosen(m)], x))
  {
  }

  /** With interrupts closed, or with nothing pending, a turn is the instruction. */
  lemma QuietTurns(core: Stepper<Input>, s: State, x: Input, ins: Instr)
    requires Quiet(s, x)
    ensures Served(core, s, x, ins) == core(s, x, ins)
  {
  }

  /** With interrupts open the first pending source is taken: a comparator by its number, the timer, which is
      set for its next period, the keyboard, the mailbox. */
  lemma SourcesInOrder(core: Stepper<Input>, s: State, x: Input, ins: Instr)
    requires s.psw.ie
    ensures x.cmp >= 0 ==> Served(core, s, x, ins) == Trap(s, 2 + x.cmp)
    ensures x.cmp < 0 && TimerDue(s) ==>
      Served(core, s, x, ins) == Trap(s.(timerNext := s.cycles + s.timerPeriod), 0)
    ensures x.cmp < 0 && !TimerDue(s) && x.kbd ==> Served(core, s, x, ins) == Trap(s, 1)
    ensures x.cmp < 0 && !TimerDue(s) && !x.kbd && x.mbox ==> Served(core, s, x, ins) == Trap(s, 4)
  {
  }

  /** `settimer` with a period p makes the timer due p cycles after the instruction, not before, and with 0 or
      less never. */
  lemma TimersAreDue(s: State, fpu: Fpu, bus: Bus, b: int, later: nat)
    requires 0 <= b < 16
    ensures var t := Step(s, fpu, bus, Instr(SETTIMER, 0, b, 0, 0, 0, 0));
      t.cycles == s.cycles + 1 && (TimerDue(t.(cycles := later)) <==> s.r[b] > 0 && later >= s.cycles + 1 + s.r[b])
  {
  }

  /** After a delivery it is due again a whole period later. */
  lemma TimersRepeat(core: Stepper<Input>, s: State, x: Input, ins: Instr, later: nat)
    requires s.psw.ie && x.cmp < 0 && TimerDue(s)
    ensures var t := Served(core, s, x, ins);
      t.cycles == s.cycles && (TimerDue(t.(cycles := later)) <==> later >= s.cycles + s.timerPeriod)
  {
  }
}
