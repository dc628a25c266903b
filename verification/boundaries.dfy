/** The devices see time only at the boundaries between instructions. Where those boundaries fall
    does not matter: the armed starts and the samples are placed by their own instants. */
module Boundaries {
  import opened Words
  import opened Memory
  import opened Adc
  import Tx = Transmitter

  // --- the ADC alone -------------------------------------------------------------------------

  /** What `machine_run` does to the ADC at a boundary at instant t. */
  function Served(b: Board, sig: Signal, t: nat, div: nat): (c: Board)
    requires Ok(b.a)
    ensures Ok(c.a)
  {
    Advanced(Triggered(b, sig, t, div), sig, t, div)
  }

  lemma {:induction false} AdvanceTwice(b: Board, sig: Signal, t1: nat, t2: nat, div: nat)
    requires Ok(b.a) && t1 <= t2
    ensures Advanced(Advanced(b, sig, t1, div), sig, t2, div) == Advanced(b, sig, t2, div)
    decreases Left(b.a)
  {
    if b.a.busy && t1 >= b.a.next {
      AdvanceTwice(Taken(b, sig, div), sig, t1, t2, div);
    }
  }

  /** A boundary at t1 makes no difference to what the one at t2 finds. */
  lemma ServeTwice(b: Board, sig: Signal, t1: nat, t2: nat, div: nat)
    requires Ok(b.a) && t1 <= t2
    ensures Served(Served(b, sig, t1, div), sig, t2, div) == Served(b, sig, t2, div)
  {
    var c := Triggered(b, sig, t1, div);
    AdvanceKeepsArming(c, sig, t1, div);
    if b.a.armed && t1 >= b.a.at {
      AdvanceTwice(c, sig, t1, t2, div);
    } else if b.a.armed && t2 >= b.a.at {
      AdvanceTwice(b, sig, t1, b.a.at, div);
    } else {
      AdvanceTwice(b, sig, t1, t2, div);
    }
  }

  // --- with the transmitter's own armed start ------------------------------------------------

  predicate Settled(b: Board) { Ok(b.a) && (b.x.armed ==> b.x.atLen > 0) }

  /** The whole boundary: the transmitter's armed start first, then the ADC. */
  function Boundary(b: Board, sig: Signal, t: nat, div: nat): (c: Board)
    requires Settled(b)
  {
    Served(b.(x := Tx.Fired(b.x, t, div)), sig, t, div)
  }

  /** The older slot says nothing about a sample at ts that the younger does not say. */
  predicate Droppable(x: Tx.State, ts: nat) { x.n > 1 ==> x.last.start <= ts || x.prev.end + x.tsw <= ts }

  /** One more transmission can begin without changing what a sample still to come is told. */
  predicate InOrder(b: Board) {
    && Settled(b) && SlotsApart(b.x)
    && (b.a.busy ==> Droppable(b.x, b.a.next))
    && (b.a.armed ==> Droppable(b.x, b.a.at))
  }

  predicate SlotsApart(x: Tx.State) {
    (x.n > 0 ==> x.last.start < x.last.end) && (x.n > 1 ==> x.prev.end <= x.last.start)
  }

  /** The transmitter whose armed start is due. */
  function Due(x: Tx.State, div: nat): Tx.State
    requires x.armed && x.atLen > 0
  {
    Tx.Fired(x, x.at, div)
  }

  lemma SampleBeforeDue(x: Tx.State, ts: nat, div: nat)
    requires x.armed && x.atLen > 0 && ts < x.at && Droppable(x, ts) && SlotsApart(x)
    ensures Tx.Blinds(Due(x, div), ts) == Tx.Blinds(x, ts)
  {
    OnlyLastBlinds(x, ts);
    var y := Due(x, div);
    if !Tx.On(x, x.at) {
      assert y.n == x.n + 1 && y.prev == x.last && y.last.start > ts && y.tsw == x.tsw;
    } else {
      assert y.n == x.n && y.prev == x.prev && y.last == x.last && y.tsw == x.tsw;
    }
  }

  lemma OnlyLastBlinds(x: Tx.State, ts: nat)
    requires Droppable(x, ts) && SlotsApart(x)
    ensures Tx.Blinds(x, ts) == (x.n > 0 && x.last.start <= ts < x.last.end + x.tsw)
  {
  }

  lemma DuePreserves(x: Tx.State, ts: nat, div: nat)
    requires x.armed && x.atLen > 0 && ts < x.at && Droppable(x, ts) && SlotsApart(x)
    ensures Dazzled(Due(x, div), ts) == Due(Dazzled(x, ts), div)
  {
    SampleBeforeDue(x, ts, div);
  }

  function Shifted(b: Board, div: nat): Board
    requires b.x.armed && b.x.atLen > 0
  {
    b.(x := Due(b.x, div))
  }

  lemma TakenKeepsOrder(b: Board, sig: Signal, div: nat)
    requires InOrder(b) && b.a.busy
    ensures var c := Taken(b, sig, div);
      InOrder(c) && c.x.armed == b.x.armed && c.x.at == b.x.at && c.x.atLen == b.x.atLen
  {
    var c := Taken(b, sig, div);
    assert c.a.busy ==> c.a.next >= b.a.next;
    assert c.a.armed == b.a.armed && c.a.at == b.a.at;
  }

  lemma TakenCommutes(b: Board, sig: Signal, div: nat)
    requires InOrder(b) && b.a.busy && b.x.armed && b.a.next < b.x.at
    ensures var c := Taken(b, sig, div);
      c.x.armed && c.x.atLen > 0 && Taken(Shifted(b, div), sig, div) == Shifted(c, div)
  {
    DuePreserves(b.x, b.a.next, div);
    SampleBeforeDue(b.x, b.a.next, div);
  }

  /** Only the bit that reports blindness can differ. */
  predicate SameTransmitter(x: Tx.State, y: Tx.State) { y == x || y == x.(blind := true) }

  lemma {:induction false} AdvanceLeavesTransmitter(b: Board, sig: Signal, t: nat, div: nat)
    requires Ok(b.a)
    ensures SameTransmitter(b.x, Advanced(b, sig, t, div).x)
    decreases Left(b.a)
  {
    if b.a.busy && t >= b.a.next {
      var c := Taken(b, sig, div);
      assert SameTransmitter(b.x, c.x);
      AdvanceLeavesTransmitter(c, sig, t, div);
    }
  }

  lemma {:induction false} AdvanceKeepsOrder(b: Board, sig: Signal, t: nat, div: nat)
    requires InOrder(b) && b.x.armed && t < b.x.at
    ensures InOrder(Advanced(b, sig, t, div))
    decreases Left(b.a)
  {
    if b.a.busy && t >= b.a.next {
      TakenKeepsOrder(b, sig, div);
      AdvanceKeepsOrder(Taken(b, sig, div), sig, t, div);
    }
  }

  /** Samples taken before the transmission that is armed do not care whether it has been fired yet. */
  lemma {:induction false} AdvanceCommutes(b: Board, sig: Signal, t: nat, div: nat)
    requires InOrder(b) && b.x.armed && t < b.x.at
    ensures var c := Advanced(b, sig, t, div);
      InOrder(c) && SameTransmitter(b.x, c.x) && Advanced(Shifted(b, div), sig, t, div) == Shifted(c, div)
    decreases Left(b.a)
  {
    AdvanceKeepsOrder(b, sig, t, div);
    AdvanceLeavesTransmitter(b, sig, t, div);
    if b.a.busy && t >= b.a.next {
      TakenKeepsOrder(b, sig, div);
      TakenCommutes(b, sig, div);
      AdvanceCommutes(Taken(b, sig, div), sig, t, div);
    }
  }

  lemma TriggerCommutes(b: Board, sig: Signal, t: nat, div: nat)
    requires InOrder(b) && b.x.armed && t < b.x.at
    ensures var c := Triggered(b, sig, t, div);
      && InOrder(c) && c.x.armed && c.x.at == b.x.at
      && Triggered(Shifted(b, div), sig, t, div) == Shifted(c, div)
  {
    if b.a.armed && t >= b.a.at {
      AdvanceCommutes(b, sig, b.a.at, div);
      AdvanceKeepsArming(b, sig, b.a.at, div);
    }
  }

  lemma ServeCommutes(b: Board, sig: Signal, t: nat, div: nat)
    requires InOrder(b) && b.x.armed && t < b.x.at
    ensures var c := Served(b, sig, t, div);
      && c.x.armed && c.x.at == b.x.at && c.x.atLen > 0
      && Served(Shifted(b, div), sig, t, div) == Shifted(c, div)
  {
    TriggerCommutes(b, sig, t, div);
    AdvanceCommutes(Triggered(b, sig, t, div), sig, t, div);
  }

  lemma ServeLeavesTransmitter(b: Board, sig: Signal, t: nat, div: nat)
    requires Ok(b.a)
    ensures SameTransmitter(b.x, Served(b, sig, t, div).x)
  {
    if b.a.armed && t >= b.a.at {
      AdvanceLeavesTransmitter(b, sig, b.a.at, div);
    }
    AdvanceLeavesTransmitter(Triggered(b, sig, t, div), sig, t, div);
  }

  lemma FireTwice(x: Tx.State, y: Tx.State, t1: nat, t2: nat, div: nat)
    requires (x.armed ==> x.atLen > 0) && t1 <= t2 && !(x.armed && t1 < x.at <= t2)
    requires SameTransmitter(Tx.Fired(x, t1, div), y)
    ensures y.armed ==> y.atLen > 0
    ensures Tx.Fired(y, t2, div) == y
    ensures Tx.Fired(x, t2, div) == Tx.Fired(x, t1, div)
  {
    if x.armed && t1 >= x.at {
      assert !y.armed;
    } else {
      assert SameTransmitter(x, y);
    }
  }

  lemma BoundaryIsSettled(b: Board, sig: Signal, t: nat, div: nat)
    requires Settled(b)
    ensures Settled(Boundary(b, sig, t, div))
  {
    FiredArmable(b.x, t, div);
    ServedIsSettled(b.(x := Tx.Fired(b.x, t, div)), sig, t, div);
  }

  lemma ServedIsSettled(b: Board, sig: Signal, t: nat, div: nat)
    requires Settled(b)
    ensures Settled(Served(b, sig, t, div))
  {
    ServeLeavesTransmitter(b, sig, t, div);
    SameArming(b.x, Served(b, sig, t, div).x);
  }

  lemma FiredArmable(x: Tx.State, t: nat, div: nat)
    requires x.armed ==> x.atLen > 0
    ensures var y := Tx.Fired(x, t, div); y.armed ==> y.atLen > 0
  {
  }

  lemma SameArming(x: Tx.State, y: Tx.State)
    requires SameTransmitter(x, y)
    ensures y.armed == x.armed && y.atLen == x.atLen
  {
  }

  /** A transmission armed for an instant in (t1, t2] begins between the two boundaries. */
  predicate StartsBetween(x: Tx.State, t1: nat, t2: nat) { x.armed && t1 < x.at <= t2 }

  /** Two boundaries are as good as the second alone: always, if no transmission begins between them, and
      if one does, whenever the slot it takes is no longer needed. */
  lemma BoundaryTwice(b: Board, sig: Signal, t1: nat, t2: nat, div: nat)
    requires Settled(b) && t1 <= t2 && (StartsBetween(b.x, t1, t2) ==> InOrder(b))
    ensures Settled(Boundary(b, sig, t1, div))
    ensures Boundary(Boundary(b, sig, t1, div), sig, t2, div) == Boundary(b, sig, t2, div)
  {
    BoundaryIsSettled(b, sig, t1, div);
    var b1 := b.(x := Tx.Fired(b.x, t1, div));
    var c := Served(b1, sig, t1, div);
    if StartsBetween(b.x, t1, t2) {
      ServeCommutes(b, sig, t1, div);
      assert b1 == b;
      assert Boundary(c, sig, t2, div) == Served(Shifted(c, div), sig, t2, div);
      assert Boundary(b, sig, t2, div) == Served(Shifted(b, div), sig, t2, div);
      ServeTwice(Shifted(b, div), sig, t1, t2, div);
    } else {
      ServeLeavesTransmitter(b1, sig, t1, div);
      FireTwice(b.x, c.x, t1, t2, div);
      assert c.(x := Tx.Fired(c.x, t2, div)) == c;
      assert Boundary(b, sig, t2, div) == Served(b1, sig, t2, div);
      ServeTwice(b1, sig, t1, t2, div);
    }
  }

  // --- the order is kept -----------------------------------------------------------------------

  lemma {:induction false} AdvanceIsDone(b: Board, sig: Signal, t: nat, div: nat)
    requires Ok(b.a)
    ensures var a := Advanced(b, sig, t, div).a; a.busy ==> t < a.next && b.a.busy && a.next >= b.a.next
    decreases Left(b.a)
  {
    if b.a.busy && t >= b.a.next {
      AdvanceIsDone(Taken(b, sig, div), sig, t, div);
    }
  }

  lemma FireKeepsSlots(x: Tx.State, t: nat, div: nat)
    requires SlotsApart(x) && div > 0 && (x.armed ==> x.atLen > 0)
    ensures var y := Tx.Fired(x, t, div);
      && SlotsApart(y) && (y.armed ==> y.atLen > 0 && t < y.at)
      && (y.n == x.n ==> y.last == x.last && y.prev == x.prev)
      && (y.n != x.n ==> y.n == x.n + 1 && y.prev == x.last && y.last.start <= t)
  {
    if x.armed && t >= x.at {
      Tx.LastsAWhile(x.atLen, div);
    }
  }

  lemma ServeIsDone(b: Board, sig: Signal, t: nat, div: nat)
    requires Ok(b.a)
    ensures var a := Served(b, sig, t, div).a; (a.busy ==> t < a.next) && (a.armed ==> t < a.at)
  {
    var c := Triggered(b, sig, t, div);
    AdvanceKeepsArming(c, sig, t, div);
    AdvanceIsDone(c, sig, t, div);
  }

  lemma BoundaryKeepsOrder(b: Board, sig: Signal, t: nat, div: nat)
    requires InOrder(b) && div > 0
    ensures InOrder(Boundary(b, sig, t, div))
  {
    FireKeepsSlots(b.x, t, div);
    var b1 := b.(x := Tx.Fired(b.x, t, div));
    ServeLeavesTransmitter(b1, sig, t, div);
    ServeIsDone(b1, sig, t, div);
    ServeKeepsPending(b1, sig, t, div);
  }

  /** What is pending after a boundary is later than the boundary, and not earlier than what was before. */
  lemma ServeKeepsPending(b: Board, sig: Signal, t: nat, div: nat)
    requires Ok(b.a)
    ensures var a := Served(b, sig, t, div).a;
      && (a.armed ==> b.a.armed && a.at == b.a.at)
      && (a.busy ==> (b.a.busy && a.next >= b.a.next) || (b.a.armed && a.next >= b.a.at))
  {
    var c := Triggered(b, sig, t, div);
    if b.a.armed && t >= b.a.at {
      AdvanceIsDone(b, sig, b.a.at, div);
    }
    AdvanceKeepsArming(c, sig, t, div);
    AdvanceIsDone(c, sig, t, div);
  }

  ghost predicate Nondecreasing(ts: seq<nat>) { forall i, j | 0 <= i < j < |ts| :: ts[i] <= ts[j] }

  ghost function Run(b: Board, sig: Signal, ts: seq<nat>, div: nat): Board
    requires Settled(b)
    decreases |ts|
  {
    if ts == [] then b
    else
      BoundaryIsSettled(b, sig, ts[0], div);
      Run(Boundary(b, sig, ts[0], div), sig, ts[1..], div)
  }

  /** A boundary leaves the condition as it was. */
  lemma StartsLater(b: Board, sig: Signal, t0: nat, t1: nat, last: nat, div: nat)
    requires Settled(b) && div > 0 && t0 <= t1 <= last && (StartsBetween(b.x, t0, last) ==> InOrder(b))
    ensures Settled(Boundary(b, sig, t0, div))
    ensures StartsBetween(Boundary(b, sig, t0, div).x, t1, last) ==> InOrder(Boundary(b, sig, t0, div))
  {
    BoundaryIsSettled(b, sig, t0, div);
    BoundaryLeavesArmed(b, sig, t0, div);
    if StartsBetween(Boundary(b, sig, t0, div).x, t1, last) {
      BoundaryKeepsOrder(b, sig, t0, div);
    }
  }

  lemma BoundaryLeavesArmed(b: Board, sig: Signal, t: nat, div: nat)
    requires Settled(b)
    ensures var x := Boundary(b, sig, t, div).x; x.armed ==> b.x.armed && x.at == b.x.at && t < x.at
  {
    var b1 := b.(x := Tx.Fired(b.x, t, div));
    FiredArming(b.x, t, div);
    ServeLeavesTransmitter(b1, sig, t, div);
    assert Boundary(b, sig, t, div) == Served(b1, sig, t, div);
  }

  lemma FiredArming(x: Tx.State, t: nat, div: nat)
    requires x.armed ==> x.atLen > 0
    ensures var y := Tx.Fired(x, t, div); y.armed ==> x.armed && y.at == x.at && t < y.at
  {
  }

  /** However many boundaries there are and wherever they fall, what counts is the last one. */
  lemma {:induction false} OnlyTheLastBoundaryCounts(b: Board, sig: Signal, ts: seq<nat>, div: nat)
    requires Settled(b) && div > 0 && ts != [] && Nondecreasing(ts)
    requires StartsBetween(b.x, ts[0], ts[|ts| - 1]) ==> InOrder(b)
    ensures Run(b, sig, ts, div) == Boundary(b, sig, ts[|ts| - 1], div)
    decreases |ts|
  {
    if |ts| > 1 {
      var last := ts[|ts| - 1];
      StartsLater(b, sig, ts[0], ts[1], last, div);
      assert ts[1..][|ts| - 2] == last;
      OnlyTheLastBoundaryCounts(Boundary(b, sig, ts[0], div), sig, ts[1..], div);
      BoundaryTwice(b, sig, ts[0], last, div);
    }
  }

  /** Two executions whose instructions end at different instants but which both reach T leave the same
      ADC, the same transmitter and the same bytes in memory. No transmission begins in either, or the
      state is in order. */
  lemma BoundariesDoNotMatter(b: Board, sig: Signal, ts: seq<nat>, us: seq<nat>, div: nat)
    requires Settled(b) && div > 0 && ts != [] && us != [] && Nondecreasing(ts) && Nondecreasing(us)
    requires ts[|ts| - 1] == us[|us| - 1]
    requires StartsBetween(b.x, ts[0], ts[|ts| - 1]) || StartsBetween(b.x, us[0], us[|us| - 1]) ==> InOrder(b)
    ensures Run(b, sig, ts, div) == Run(b, sig, us, div)
  {
    OnlyTheLastBoundaryCounts(b, sig, ts, div);
    OnlyTheLastBoundaryCounts(b, sig, us, div);
  }

  /** A sample due at 10 under the transmission of 8, when the one of 14 has begun as well and another is
      armed for 20. */
  function Crowded(shared: SharedRam): Board {
    var k := Block(SHARED_BASE, 1, 1);
    Board(
      State(k, k, 0, 10, true, false, 0, false, false, 0, k, seq(WINDOW_SIZE, i => 0), seq(WINDOW_SIZE, i => 0), false),
      Tx.State(1, Tx.Span(14, 15), Tx.Span(8, 12), 2, 0, false, false, false, false, true, false, 20, 1, false), shared)
  }

  /** Out of order the boundary does count: one at 16 finds the sample in the dark, the one at 20 alone has
      forgotten why. */
  lemma OutOfOrderBoundariesMatter(shared: SharedRam, sig: Signal)
    ensures var b := Crowded(shared);
      && Settled(b) && SlotsApart(b.x) && StartsBetween(b.x, 16, 20) && !InOrder(b)
      && Settled(Boundary(b, sig, 16, 1))
      && Boundary(Boundary(b, sig, 16, 1), sig, 20, 1) != Boundary(b, sig, 20, 1)
  {
    var b := Crowded(shared);
    BoundaryIsSettled(b, sig, 16, 1);
    LastSample(b, sig, 16);
    var c := Boundary(b, sig, 16, 1);
    ServeLeavesTransmitter(c.(x := Tx.Fired(c.x, 20, 1)), sig, 20, 1);
    assert c.x.blind && Boundary(c, sig, 20, 1).x.blind;
    LastSample(b, sig, 20);
    assert !Boundary(b, sig, 20, 1).x.blind;
  }

  /** A boundary that finds the last sample of a block due, and no armed block. */
  lemma LastSample(b: Board, sig: Signal, t: nat)
    requires Settled(b) && b.a.busy && !b.a.armed && b.a.i + 1 == b.a.cur.count && b.a.next <= t
    ensures Boundary(b, sig, t, 1) == Taken(b.(x := Tx.Fired(b.x, t, 1)), sig, 1)
  {
    var c := Taken(b.(x := Tx.Fired(b.x, t, 1)), sig, 1);
    assert Advanced(c, sig, t, 1) == c;
  }

  // --- where the samples are -----------------------------------------------------------------

  /** The bytes a block is written to, whichever memory that is. */
  function Destination(b: Board): seq<byte>
    requires Ok(b.a) && b.a.busy
  {
    if PingPong(b.a.cur) then Hidden(b.a) else b.shared
  }

  function Offset(k: Block): int { if PingPong(k) then 0 else k.addr - SHARED_BASE }

  /** The destination of the block that `b` was filling, seen in a later state: if the block has
      finished and was a ping-pong one, its half is now the visible one. */
  function Filled(c: Board, k: Block, finished: bool): seq<byte> {
    if !PingPong(k) then c.shared else if finished then Visible(c.a) else Hidden(c.a)
  }

  /** The instant n strides after `next`. */
  function InstantOf(next: nat, stride: nat, n: nat): nat { next + n * stride }

  lemma InstantAtOnce(next: nat, stride: nat)
    ensures InstantOf(next, stride, 0) == next
  {
  }

  lemma InstantStep(next: nat, stride: nat, n: nat)
    requires n > 0
    ensures InstantOf(next, stride, n) == InstantOf(next + stride, stride, n - 1)
  {
    Scaled(n, stride);
  }

  lemma Scaled(n: nat, stride: nat)
    requires n > 0
    ensures n * stride == (n - 1) * stride + stride >= stride
  {
    assert (n - 1) * stride >= 0;
  }

  lemma InstantIsLater(next: nat, stride: nat, n: nat)
    ensures InstantOf(next, stride, n) >= next
  {
    if n > 0 {
      Scaled(n, stride);
    }
  }

  lemma SampleIgnoresDazzle(x: Tx.State, sig: Signal, ts: nat, other: nat)
    ensures Sample(Dazzled(x, other), sig, ts) == Sample(x, sig, ts)
  {
  }

  /** The sample of slot j of a block whose slot i is due at `next`. */
  function SampleOf(x: Tx.State, sig: Signal, next: nat, stride: nat, i: nat, j: nat): (int32, int32)
    requires i <= j
  {
    Sample(x, sig, InstantOf(next, stride, j - i))
  }

  lemma SampleStep(x: Tx.State, sig: Signal, next: nat, stride: nat, i: nat, j: nat)
    requires i < j
    ensures SampleOf(Dazzled(x, next), sig, next + stride, stride, i + 1, j) == SampleOf(x, sig, next, stride, i, j)
  {
    InstantStep(next, stride, j - i);
    SampleIgnoresDazzle(x, sig, InstantOf(next + stride, stride, j - (i + 1)), next);
  }

  /** Slots i to k.count of `mem`, from byte `off` on, hold the samples taken from `next` on. */
  ghost predicate HoldsFrom(
    mem: seq<byte>, off: int, k: Block, i: nat, x: Tx.State, sig: Signal, next: nat, stride: nat)
  {
    && 0 <= off && off + 8 * k.count <= |mem|
    && forall j | i <= j < k.count :: SlotHolds(mem, off, j, SampleOf(x, sig, next, stride, i, j))
  }

  predicate SlotHolds(mem: seq<byte>, off: nat, j: nat, s: (int32, int32)) {
    off + 8 * j + 8 <= |mem| && mem[off + 8 * j..off + 8 * j + 8] == SampleBytes(s)
  }

  /** `mem` and `was` agree outside slots i to k.count. */
  ghost predicate SameOutside(mem: seq<byte>, was: seq<byte>, off: int, k: Block, i: nat) {
    |mem| == |was| && forall p | 0 <= p < |mem| && !(off + 8 * i <= p < off + 8 * k.count) :: mem[p] == was[p]
  }

  lemma TakenDeposits(b: Board, sig: Signal, div: nat)
    requires Ok(b.a) && b.a.busy
    ensures var (c, k) := (Taken(b, sig, div), b.a.cur);
      && c.a.cur == k && c.a.i == b.a.i + 1 && c.a.busy == (b.a.i + 1 < k.count)
      && c.x == Dazzled(b.x, b.a.next) && c.a.next == b.a.next + Stride(k, div)
      && c.a.done == (if c.a.busy then b.a.done else (b.a.done + 1) % TWO32)
      && Filled(c, k, !c.a.busy)
        == Splice(Destination(b), Offset(k) + 8 * b.a.i, SampleBytes(Sample(b.x, sig, b.a.next)))
  {
  }

  lemma FirstSlot(mem: seq<byte>, was: seq<byte>, off: nat, k: Block, i: nat, s: (int32, int32))
    requires i < k.count && off + 8 * k.count <= |was|
    requires SameOutside(mem, Splice(was, off + 8 * i, SampleBytes(s)), off, k, i + 1)
    ensures SlotHolds(mem, off, i, s) && SameOutside(mem, was, off, k, i)
  {
    var w := Splice(was, off + 8 * i, SampleBytes(s));
    assert w[off + 8 * i..off + 8 * i + 8] == SampleBytes(s);
    assert mem[off + 8 * i..off + 8 * i + 8] == w[off + 8 * i..off + 8 * i + 8];
  }

  lemma HoldsOneMore(mem: seq<byte>, off: nat, k: Block, i: nat, x: Tx.State, sig: Signal, next: nat, stride: nat)
    requires i < k.count && SlotHolds(mem, off, i, Sample(x, sig, next))
    requires HoldsFrom(mem, off, k, i + 1, Dazzled(x, next), sig, next + stride, stride)
    ensures HoldsFrom(mem, off, k, i, x, sig, next, stride)
  {
    forall j | i <= j < k.count
      ensures SlotHolds(mem, off, j, SampleOf(x, sig, next, stride, i, j))
    {
      if j > i {
        assert SlotHolds(mem, off, j, SampleOf(Dazzled(x, next), sig, next + stride, stride, i + 1, j));
        SampleStep(x, sig, next, stride, i, j);
      } else {
        InstantAtOnce(next, stride);
      }
    }
  }

  /** `c` is a state in which the block `b` was filling has just finished, each slot from b's on with
      the sample of its own instant, and every other byte of the destination as it was. */
  ghost predicate Finished(b: Board, c: Board, sig: Signal, div: nat)
    requires Ok(b.a) && b.a.busy
  {
    var (k, mem) := (b.a.cur, Filled(c, b.a.cur, true));
    && !c.a.busy && c.a.done == (b.a.done + 1) % TWO32
    && HoldsFrom(mem, Offset(k), k, b.a.i, b.x, sig, b.a.next, Stride(k, div))
    && SameOutside(mem, Destination(b), Offset(k), k, b.a.i)
  }

  lemma SlotsGrow(
      mem: seq<byte>, was: seq<byte>, off: nat, k: Block, i: nat, x: Tx.State, sig: Signal, next: nat, stride: nat)
    requires i < k.count && off + 8 * k.count <= |was|
    requires SameOutside(mem, Splice(was, off + 8 * i, SampleBytes(Sample(x, sig, next))), off, k, i + 1)
    requires i + 1 < k.count ==> HoldsFrom(mem, off, k, i + 1, Dazzled(x, next), sig, next + stride, stride)
    ensures HoldsFrom(mem, off, k, i, x, sig, next, stride) && SameOutside(mem, was, off, k, i)
  {
    FirstSlot(mem, was, off, k, i, Sample(x, sig, next));
    assert HoldsFrom(mem, off, k, i + 1, Dazzled(x, next), sig, next + stride, stride);
    HoldsOneMore(mem, off, k, i, x, sig, next, stride);
  }

  lemma FinishedEarlier(b: Board, c: Board, sig: Signal, div: nat)
    requires Ok(b.a) && b.a.busy
    requires var c1 := Taken(b, sig, div); if c1.a.busy then Finished(c1, c, sig, div) else c == c1
    ensures Finished(b, c, sig, div)
  {
    var (k, i) := (b.a.cur, b.a.i);
    TakenDeposits(b, sig, div);
    SlotsGrow(Filled(c, k, true), Destination(b), Offset(k), k, i, b.x, sig, b.a.next, Stride(k, div));
  }

  /** Carried far enough, a block is finished, its samples one stride apart. */
  lemma {:induction false} BlockHoldsItsSamples(b: Board, sig: Signal, t: nat, div: nat)
    requires Ok(b.a) && b.a.busy
    requires t >= InstantOf(b.a.next, Stride(b.a.cur, div), b.a.cur.count - 1 - b.a.i)
    ensures Finished(b, Advanced(b, sig, t, div), sig, div)
    decreases Left(b.a)
  {
    InstantIsLater(b.a.next, Stride(b.a.cur, div), b.a.cur.count - 1 - b.a.i);
    var c1 := Taken(b, sig, div);
    if c1.a.busy {
      InstantStep(b.a.next, Stride(b.a.cur, div), b.a.cur.count - 1 - b.a.i);
      BlockHoldsItsSamples(c1, sig, t, div);
    }
    assert Advanced(b, sig, t, div) == Advanced(c1, sig, t, div);
    FinishedEarlier(b, Advanced(c1, sig, t, div), sig, div);
  }

  /** The block in progress, if there is one, has its last sample at `t` or before. */
  predicate OverBy(a: State, t: nat, div: nat)
    requires Ok(a)
  {
    a.busy ==> t >= InstantOf(a.next, Stride(a.cur, div), a.cur.count - 1 - a.i)
  }

  lemma OverAsBefore(b: Board, sig: Signal, t: nat, div: nat)
    requires Ok(b.a) && b.a.busy && t >= b.a.next
    ensures OverBy(Taken(b, sig, div).a, t, div) == OverBy(b.a, t, div)
  {
    TakenDeposits(b, sig, div);
    var left := b.a.cur.count - 1 - b.a.i;
    if left > 0 {
      InstantStep(b.a.next, Stride(b.a.cur, div), left);
    } else {
      InstantAtOnce(b.a.next, Stride(b.a.cur, div));
    }
  }

  /** A block is over exactly when its last sample is due. */
  lemma {:induction false} OverExactly(b: Board, sig: Signal, t: nat, div: nat)
    requires Ok(b.a)
    ensures Advanced(b, sig, t, div).a.busy <==> !OverBy(b.a, t, div)
    decreases Left(b.a)
  {
    if b.a.busy {
      InstantIsLater(b.a.next, Stride(b.a.cur, div), b.a.cur.count - 1 - b.a.i);
      if t >= b.a.next {
        OverAsBefore(b, sig, t, div);
        OverExactly(Taken(b, sig, div), sig, t, div);
      }
    }
  }

  /** ADC_AT, at the first boundary from its instant on: the armed block starts exactly when the one in
      progress is over by the instant; otherwise that one goes on and the overrun is raised. */
  lemma ArmedBlockStarts(b: Board, sig: Signal, t: nat, div: nat)
    requires Ok(b.a) && b.a.armed && t >= b.a.at
    ensures var (s, k) := (Triggered(b, sig, t, div), b.a.atBlock);
      && s.a.busy && !s.a.armed && SameTransmitter(b.x, s.x)
      && if OverBy(b.a, b.a.at, div)
         then s.a.cur == k && s.a.i == 0 && s.a.next == b.a.at + Stride(k, div) && s.a.overrun == b.a.overrun
         else s.a.cur == b.a.cur && s.a.overrun
  {
    OverExactly(b, sig, b.a.at, div);
    AdvanceKeepsArming(b, sig, b.a.at, div);
    AdvanceLeavesTransmitter(b, sig, b.a.at, div);
    AdvanceKeepsBlock(b, sig, b.a.at, div);
  }

  lemma {:induction false} AdvanceKeepsBlock(b: Board, sig: Signal, t: nat, div: nat)
    requires Ok(b.a)
    ensures var a := Advanced(b, sig, t, div).a; a.cur == b.a.cur && a.overrun == b.a.overrun
    decreases Left(b.a)
  {
    if b.a.busy && t >= b.a.next {
      AdvanceKeepsBlock(Taken(b, sig, div), sig, t, div);
    }
  }

  /** Where block `k`, now over, went, slot j holds `s`. */
  predicate InSlot(c: Board, k: Block, j: nat, s: (int32, int32))
    requires ConfigOk(k)
  {
    SlotHolds(Filled(c, k, true), Offset(k), j, s)
  }

  /** Whenever the boundary comes, sample j of the armed block is the one of ADC_AT's instant plus
      (j + 1) * period * div, provided the block in progress was over by the instant. */
  lemma ArmedBlockIsExact(b: Board, sig: Signal, t: nat, div: nat, j: nat, ts: nat)
    requires Ok(b.a) && b.a.armed && OverBy(b.a, b.a.at, div) && j < b.a.atBlock.count
    requires ts == b.a.at + (j + 1) * Stride(b.a.atBlock, div)
    requires t >= b.a.at + b.a.atBlock.count * Stride(b.a.atBlock, div)
    ensures var (c, k) := (Served(b, sig, t, div), b.a.atBlock);
      !c.a.busy && InSlot(c, k, j, Sample(b.x, sig, ts))
  {
    ArmedBlockEnds(b, sig, t, div, j, Stride(b.a.atBlock, div));
  }

  lemma ArmedBlockEnds(b: Board, sig: Signal, t: nat, div: nat, j: nat, stride: nat)
    requires Ok(b.a) && b.a.armed && OverBy(b.a, b.a.at, div) && j < b.a.atBlock.count
    requires stride == Stride(b.a.atBlock, div) && t >= InstantOf(b.a.at, stride, b.a.atBlock.count)
    ensures var (c, k) := (Served(b, sig, t, div), b.a.atBlock);
      !c.a.busy && InSlot(c, k, j, Sample(b.x, sig, InstantOf(b.a.at, stride, j + 1)))
  {
    InstantIsLater(b.a.at, stride, b.a.atBlock.count);
    ArmedBlockStarts(b, sig, t, div);
    StartedBlockIsExact(Triggered(b, sig, t, div), sig, t, div, b.a.at, j);
  }

  lemma StartedBlockIsExact(s: Board, sig: Signal, t: nat, div: nat, at: nat, j: nat)
    requires Ok(s.a) && s.a.busy && s.a.i == 0 && j < s.a.cur.count
    requires s.a.next == at + Stride(s.a.cur, div) && t >= InstantOf(at, Stride(s.a.cur, div), s.a.cur.count)
    ensures var (c, k) := (Advanced(s, sig, t, div), s.a.cur);
      !c.a.busy && InSlot(c, k, j, Sample(s.x, sig, InstantOf(at, Stride(k, div), j + 1)))
  {
    InstantStep(at, Stride(s.a.cur, div), s.a.cur.count);
    InstantStep(at, Stride(s.a.cur, div), j + 1);
    BlockHoldsItsSamples(s, sig, t, div);
    var (mem, k) := (Filled(Advanced(s, sig, t, div), s.a.cur, true), s.a.cur);
    assert SlotHolds(mem, Offset(k), j, SampleOf(s.x, sig, s.a.next, Stride(k, div), 0, j));
  }
}
