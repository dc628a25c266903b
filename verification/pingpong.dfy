/** The ping-pong buffer: CPUs always read the same window, the DMA fills the half behind it, and the
    two change places when a block is whole. Over every run the window holds one whole block, and a
    reader that finds the same block count before and after has read a single block. */
module PingPongBuffer {
  import opened Words
  import opened Memory
  import opened Adc
  import Tx = Transmitter

  type Samples = seq<(int32, int32)>

  /** The board with what its history was: the samples of the running block, those of the last
      ping-pong block finished, and how many blocks of either kind have finished. */
  datatype Logged = Logged(b: Board, running: Samples, last: Samples, total: nat)

  function LogTaken(l: Logged, sig: Signal, div: nat): (m: Logged)
    requires Ok(l.b.a) && l.b.a.busy
    ensures Ok(m.b.a) && m.b == Taken(l.b, sig, div)
  {
    var c := Taken(l.b, sig, div);
    var all := l.running + [Sample(l.b.x, sig, l.b.a.next)];
    if c.a.busy then Logged(c, all, l.last, l.total)
    else Logged(c, [], if PingPong(l.b.a.cur) then all else l.last, l.total + 1)
  }

  function LogAdvanced(l: Logged, sig: Signal, t: nat, div: nat): (m: Logged)
    requires Ok(l.b.a)
    ensures Ok(m.b.a) && m.b == Advanced(l.b, sig, t, div)
    decreases Left(l.b.a)
  {
    if l.b.a.busy && t >= l.b.a.next then LogAdvanced(LogTaken(l, sig, div), sig, t, div) else l
  }

  function LogTriggered(l: Logged, sig: Signal, t: nat, div: nat): (m: Logged)
    requires Ok(l.b.a)
    ensures Ok(m.b.a) && m.b == Triggered(l.b, sig, t, div)
  {
    if !l.b.a.armed || t < l.b.a.at then l
    else LogAdvanced(l, sig, l.b.a.at, div).(b := Triggered(l.b, sig, t, div))
  }

  /** A boundary, a CPU's access, or anything at all happening to the transmitter. */
  datatype Event = Boundary(sig: Signal, t: nat) | Write(addr: int, value: int32, t: nat) | Read(addr: int)
    | Transmit(x: Tx.State)

  function Next(l: Logged, e: Event, div: nat): (m: Logged)
    requires Ok(l.b.a)
    ensures Ok(m.b.a)
  {
    match e
    case Boundary(sig, t) => LogAdvanced(LogTriggered(l, sig, t, div), sig, t, div)
    case Write(addr, value, t) => l.(b := l.b.(a := Stored(l.b.a, addr, value, t, div)))
    case Read(addr) => l.(b := l.b.(a := AfterLoad(l.b.a, addr)))
    case Transmit(x) => l.(b := l.b.(x := x))
  }

  ghost function After(l: Logged, es: seq<Event>, div: nat): (m: Logged)
    requires Ok(l.b.a)
    ensures Ok(m.b.a)
    decreases |es|
  {
    if es == [] then l else After(Next(l, es[0], div), es[1..], div)
  }

  predicate Slot(mem: seq<byte>, j: nat, s: (int32, int32)) {
    8 * j + 8 <= |mem| && mem[8 * j..8 * j + 8] == SampleBytes(s)
  }

  /** `mem` begins with exactly these samples. */
  ghost predicate Begins(mem: Half, ss: Samples) {
    |ss| <= ADC_BUF_MAX && forall j | 0 <= j < |ss| :: Slot(mem, j, ss[j])
  }

  ghost predicate Zero(mem: Half) { forall p | 0 <= p < WINDOW_SIZE :: mem[p] == 0 }

  ghost predicate Whole(l: Logged) {
    && Ok(l.b.a)
    && |l.running| == (if l.b.a.busy then l.b.a.i else 0)
    && l.b.a.done == l.total % TWO32
    && (l.b.a.busy && PingPong(l.b.a.cur) ==> Begins(Hidden(l.b.a), l.running))
    && Begins(Visible(l.b.a), l.last)
    && (l.last == [] ==> Zero(Visible(l.b.a)))
  }

  // --- one sample ----------------------------------------------------------------------------

  lemma BeginsWithOneMore(mem: Half, ss: Samples, s: (int32, int32))
    requires Begins(mem, ss) && |ss| < ADC_BUF_MAX
    ensures Begins(Splice(mem, 8 * |ss|, SampleBytes(s)), ss + [s])
  {
    var w := Splice(mem, 8 * |ss|, SampleBytes(s));
    forall j | 0 <= j < |ss + [s]|
      ensures Slot(w, j, (ss + [s])[j])
    {
      if j < |ss| {
        assert Slot(mem, j, ss[j]);
        assert w[8 * j..8 * j + 8] == mem[8 * j..8 * j + 8];
      } else {
        assert w[8 * j..8 * j + 8] == SampleBytes(s);
      }
    }
  }

  /** Every DMA write stays in the hidden half, or inside the block's own bytes of shared RAM. */
  lemma TransferIsConfined(b: Board, sig: Signal, div: nat)
    requires Ok(b.a) && b.a.busy
    ensures var (c, k) := (Taken(b, sig, div), b.a.cur);
      if PingPong(k) then
        c.shared == b.shared && (if c.a.front == b.a.front then Visible(c.a) else Hidden(c.a)) == Visible(b.a)
      else
        && Visible(c.a) == Visible(b.a) && Hidden(c.a) == Hidden(b.a)
        && forall p | 0 <= p < SHARED_SIZE && c.shared[p] != b.shared[p] ::
          k.addr <= SHARED_BASE + p < k.addr as int + 8 * k.count as int
  {
  }

  lemma HalvesAfterTaken(b: Board, sig: Signal, div: nat)
    requires Ok(b.a) && b.a.busy && PingPong(b.a.cur)
    ensures var c := Taken(b, sig, div);
      var w := Splice(Hidden(b.a), 8 * b.a.i, SampleBytes(Sample(b.x, sig, b.a.next)));
      if c.a.busy then Hidden(c.a) == w && Visible(c.a) == Visible(b.a)
      else Visible(c.a) == w && Hidden(c.a) == Visible(b.a)
  {
  }

  lemma CountAfterTaken(b: Board, sig: Signal, div: nat)
    requires Ok(b.a) && b.a.busy
    ensures var c := Taken(b, sig, div).a;
      && c.i == b.a.i + 1 && c.cur == b.a.cur && c.busy == (c.i < c.cur.count)
      && c.done == (if c.busy then b.a.done else (b.a.done + 1) % TWO32)
  {
  }

  lemma OneMoreBlock(total: nat)
    ensures (total % TWO32 + 1) % TWO32 == (total + 1) % TWO32
  {
  }

  lemma TakenKeepsWhole(l: Logged, sig: Signal, div: nat)
    requires Whole(l) && l.b.a.busy
    ensures Whole(LogTaken(l, sig, div))
    ensures LogTaken(l, sig, div).total == l.total ==>
      Visible(LogTaken(l, sig, div).b.a) == Visible(l.b.a) && LogTaken(l, sig, div).last == l.last
  {
    var s := Sample(l.b.x, sig, l.b.a.next);
    CountAfterTaken(l.b, sig, div);
    OneMoreBlock(l.total);
    if PingPong(l.b.a.cur) {
      HalvesAfterTaken(l.b, sig, div);
      BeginsWithOneMore(Hidden(l.b.a), l.running, s);
    } else {
      TransferIsConfined(l.b, sig, div);
    }
  }

  // --- every operation -------------------------------------------------------------------------

  /** From l to m: the invariant is kept, blocks only accumulate, and as long as none has finished
      the window has not changed. */
  ghost predicate Leads(l: Logged, m: Logged) {
    && Whole(m) && m.total >= l.total
    && (m.total == l.total ==> Visible(m.b.a) == Visible(l.b.a) && m.last == l.last)
  }

  lemma {:induction false} AdvanceKeepsWhole(l: Logged, sig: Signal, t: nat, div: nat)
    requires Whole(l)
    ensures Leads(l, LogAdvanced(l, sig, t, div))
    decreases Left(l.b.a)
  {
    if l.b.a.busy && t >= l.b.a.next {
      TakenKeepsWhole(l, sig, div);
      AdvanceKeepsWhole(LogTaken(l, sig, div), sig, t, div);
    }
  }

  lemma TriggerKeepsWhole(l: Logged, sig: Signal, t: nat, div: nat)
    requires Whole(l)
    ensures Leads(l, LogTriggered(l, sig, t, div))
  {
    if l.b.a.armed && t >= l.b.a.at {
      AdvanceKeepsWhole(l, sig, l.b.a.at, div);
      AdvanceKeepsArming(l.b, sig, l.b.a.at, div);
    }
  }

  /** A register access touches neither half, and restarts nothing that is running. */
  predicate SameBuffers(a: State, c: State) {
    && c.half0 == a.half0 && c.half1 == a.half1 && c.front == a.front && c.done == a.done
    && (if a.busy then c.busy && c.i == a.i && c.cur == a.cur else c.busy ==> c.i == 0)
  }

  lemma ArmLeavesBuffers(a: State, value: int32, t: nat)
    requires Ok(a)
    ensures SameBuffers(a, Armed(a, value, t))
  {
  }

  lemma ControlLeavesBuffers(a: State, value: int32, t: nat, div: nat)
    requires Ok(a)
    ensures SameBuffers(a, Controlled(a, value, t, div))
  {
  }

  lemma StoreLeavesBuffers(a: State, addr: int, value: int32, t: nat, div: nat)
    requires Ok(a)
    ensures SameBuffers(a, Stored(a, addr, value, t, div))
  {
    if addr == ADC_AT {
      ArmLeavesBuffers(a, value, t);
    } else if addr == ADC_CTRL {
      ControlLeavesBuffers(a, value, t, div);
    } else {
      var c := Stored(a, addr, value, t, div);
      assert c.i == a.i && c.cur == a.cur && c.busy == a.busy && c.done == a.done && c.front == a.front;
    }
  }

  lemma SameBuffersWhole(l: Logged, c: State)
    requires Whole(l) && Ok(c) && SameBuffers(l.b.a, c)
    ensures Leads(l, l.(b := l.b.(a := c)))
  {
    if !l.b.a.busy && c.busy {
      assert l.running == [];
    }
  }

  lemma NextKeepsWhole(l: Logged, e: Event, div: nat)
    requires Whole(l)
    ensures Leads(l, Next(l, e, div))
  {
    match e
    case Boundary(sig, t) =>
      TriggerKeepsWhole(l, sig, t, div);
      AdvanceKeepsWhole(LogTriggered(l, sig, t, div), sig, t, div);
    case Write(addr, value, t) =>
      StoreLeavesBuffers(l.b.a, addr, value, t, div);
      SameBuffersWhole(l, Stored(l.b.a, addr, value, t, div));
    case Read(addr) => SameBuffersWhole(l, AfterLoad(l.b.a, addr));
    case Transmit(x) =>
  }

  /** Over every run: the window shows the last ping-pong block whole, or zeros before the first, and
      it changes only when a block finishes. */
  lemma {:induction false} WindowShowsLastBlock(l: Logged, es: seq<Event>, div: nat)
    requires Whole(l)
    ensures Leads(l, After(l, es, div))
    decreases |es|
  {
    if es != [] {
      NextKeepsWhole(l, es[0], div);
      WindowShowsLastBlock(Next(l, es[0], div), es[1..], div);
    }
  }

  /** Power-on is such a state. */
  lemma PowerOnIsWhole(x: Tx.State, shared: SharedRam)
    ensures Whole(Logged(Board(Reset(), x, shared), [], [], 0))
  {
  }

  /** The reader's check: the same count in ADC_STATUS before and after, with fewer than 2^30 blocks
      in between, means that at every moment in between the window was one and the same whole block. */
  lemma SameCountSameBlock(l: Logged, before: seq<Event>, after: seq<Event>, div: nat)
    requires Whole(l)
    requires var m := After(l, before, div); var n := After(m, after, div);
      StatusCount(n.b.a) == StatusCount(l.b.a) && n.total - l.total < 0x4000_0000
    ensures var m := After(l, before, div);
      m.last == l.last && Visible(m.b.a) == Visible(l.b.a) && Begins(Visible(m.b.a), l.last)
  {
    var m := After(l, before, div);
    WindowShowsLastBlock(l, before, div);
    WindowShowsLastBlock(m, after, div);
    SameResidue(l.total, After(m, after, div).total);
  }

  lemma SameResidue(x: nat, y: nat)
    requires x <= y && y - x < 0x4000_0000 && x % TWO32 % 0x4000_0000 == y % TWO32 % 0x4000_0000
    ensures x == y
  {
    FoldResidue(x);
    FoldResidue(y);
    assert (y - x) % 0x4000_0000 == 0 by {
      var q, r := y / 0x4000_0000, x / 0x4000_0000;
      assert y - x == 0x4000_0000 * (q - r);
    }
  }

  lemma FoldResidue(x: nat)
    ensures x % TWO32 % 0x4000_0000 == x % 0x4000_0000
  {
    assert TWO32 == 4 * 0x4000_0000;
  }
}
