/** The ADC: blocks of I/Q samples taken at exact instants and written by DMA, when a boundary between
    instructions comes, into shared RAM or into the hidden half of its own ping-pong buffer. */
module Adc {
  import opened Words
  import opened Memory
  import Tx = Transmitter

  const ADC_ADDR := MMIO_BASE + 0x40
  const ADC_COUNT := MMIO_BASE + 0x44
  const ADC_PERIOD := MMIO_BASE + 0x48
  const ADC_CTRL := MMIO_BASE + 0x4C
  const ADC_STATUS := MMIO_BASE + 0x50
  const ADC_AT := MMIO_BASE + 0x70
  const ADC_MAX := 2047
  const ADC_MIN := -2048

  /** Where a block goes, how many samples it has, and how many peripheral ticks apart they are. */
  datatype Block = Block(addr: int32, count: int32, period: int32)

  type Half = h: seq<byte> | |h| == WINDOW_SIZE witness seq(WINDOW_SIZE, i => 0)
  type SharedRam = m: seq<byte> | |m| == SHARED_SIZE witness seq(SHARED_SIZE, i => 0)

  datatype State = State(
    conf: Block, cur: Block, i: nat, next: nat, busy: bool, overrun: bool, done: uint32,
    armed: bool, late: bool, at: nat, atBlock: Block, half0: Half, half1: Half, front: bool)

  /** The registers at power-on. */
  function Reset(): State {
    var none, zero := Block(0, 0, 0), seq(WINDOW_SIZE, i => 0);
    State(none, none, 0, 0, false, false, 0, false, false, 0, none, zero, zero, false)
  }

  /** The ADC with what its DMA and its samples touch: shared RAM and the transmitter. */
  datatype Board = Board(a: State, x: Tx.State, shared: SharedRam)

  function Visible(a: State): Half { if a.front then a.half1 else a.half0 }

  function Hidden(a: State): Half { if a.front then a.half0 else a.half1 }

  predicate PingPong(k: Block) { k.addr == ADC_BUF }

  /** The blocks the device accepts: inside shared RAM, or exactly at the window and no longer. */
  predicate ConfigOk(k: Block) {
    && k.count > 0 && k.period > 0
    && ((SHARED_BASE <= k.addr && k.addr as int + 8 * k.count as int <= SHARED_BASE + SHARED_SIZE)
        || (PingPong(k) && k.count <= ADC_BUF_MAX))
  }

  /** What every operation keeps. */
  predicate Ok(a: State) {
    && (a.busy ==> ConfigOk(a.cur) && a.i < a.cur.count)
    && (a.armed ==> ConfigOk(a.atBlock))
  }

  function Stride(k: Block, div: nat): nat
    requires k.period > 0
  {
    k.period * div
  }

  // --- one sample ----------------------------------------------------------------------------

  /** Rounds and saturates to 12 bits. */
  function Quantized(x: real): (q: int32)
    ensures ADC_MIN <= q <= ADC_MAX
    ensures ADC_MIN as real - 0.5 <= x < ADC_MAX as real + 0.5 ==> -0.5 < q as real - x <= 0.5
    ensures x < ADC_MIN as real - 0.5 ==> q == ADC_MIN
    ensures x >= ADC_MAX as real + 0.5 ==> q == ADC_MAX
  {
    var r := (x + 0.5).Floor;
    if r > ADC_MAX then ADC_MAX else if r < ADC_MIN then ADC_MIN else r
  }

  /** The signal at the antenna, I and Q, as a function of the instant. */
  type Signal = nat -> (real, real)

  function Sample(x: Tx.State, sig: Signal, ts: nat): (int32, int32) {
    if Tx.Blinds(x, ts) then (ADC_MAX, ADC_MAX) else (Quantized(sig(ts).0), Quantized(sig(ts).1))
  }

  function SampleBytes(s: (int32, int32)): (bs: seq<byte>)
    ensures |bs| == 8
  {
    Bytes32(s.0) + Bytes32(s.1)
  }

  /** The DMA transfer of one sample into the hidden half... */
  function Buffered(a: State, bs: seq<byte>): (c: State)
    requires Ok(a) && a.busy && |bs| == 8
    ensures Ok(c) && c.busy
  {
    if !PingPong(a.cur) then a
    else if a.front then a.(half0 := Splice(a.half0, 8 * a.i, bs))
    else a.(half1 := Splice(a.half1, 8 * a.i, bs))
  }

  /** ... or at its address in shared RAM. */
  function Transferred(a: State, shared: SharedRam, bs: seq<byte>): SharedRam
    requires Ok(a) && a.busy && |bs| == 8
  {
    if PingPong(a.cur) then shared else Splice(shared, a.cur.addr + 8 * a.i - SHARED_BASE, bs)
  }

  /** After the transfer: the next instant, or the end of the block, where the halves change places. */
  function Counted(a: State, div: nat): (c: State)
    requires Ok(a) && a.busy
    ensures Ok(c)
  {
    var last := a.i + 1 == a.cur.count;
    a.(i := a.i + 1, next := a.next + Stride(a.cur, div), busy := !last,
      done := if last then (a.done + 1) % TWO32 else a.done,
      front := if last && PingPong(a.cur) then !a.front else a.front)
  }

  /** A sample taken in the dark raises the transmitter's bit. */
  function Dazzled(x: Tx.State, ts: nat): Tx.State { if Tx.Blinds(x, ts) then x.(blind := true) else x }

  function Taken(b: Board, sig: Signal, div: nat): (c: Board)
    requires Ok(b.a) && b.a.busy
    ensures Ok(c.a)
  {
    var bs := SampleBytes(Sample(b.x, sig, b.a.next));
    Board(Counted(Buffered(b.a, bs), div), Dazzled(b.x, b.a.next), Transferred(b.a, b.shared, bs))
  }

  function Left(a: State): nat
    requires Ok(a)
  {
    if a.busy then a.cur.count - a.i else 0
  }

  /** All the samples due by t. */
  function Advanced(b: Board, sig: Signal, t: nat, div: nat): (c: Board)
    requires Ok(b.a)
    ensures Ok(c.a)
    decreases Left(b.a)
  {
    if b.a.busy && t >= b.a.next then Advanced(Taken(b, sig, div), sig, t, div) else b
  }

  // --- starting --------------------------------------------------------------------------------

  function Begun(a: State, k: Block, t0: nat, div: nat): (c: State)
    requires Ok(a) && ConfigOk(k)
    ensures Ok(c)
  {
    a.(cur := k, i := 0, next := t0 + Stride(k, div), busy := true)
  }

  /** The armed start, at the first boundary from its instant on: the block in progress is carried
      up to the instant, not to the boundary. */
  function Triggered(b: Board, sig: Signal, t: nat, div: nat): (c: Board)
    requires Ok(b.a)
    ensures Ok(c.a)
  {
    if !b.a.armed || t < b.a.at then b
    else
      var c := Advanced(b, sig, b.a.at, div);
      var a := c.a.(armed := false);
      if a.busy then c.(a := a.(overrun := true))
      else
        assert ConfigOk(b.a.atBlock);
        c.(a := Begun(a, b.a.atBlock, b.a.at, div))
  }

  function Armed(a: State, value: int32, t: nat): (c: State)
    requires Ok(a)
    ensures Ok(c)
  {
    var gap := WrappedGap(value, t);
    if gap <= 0 then a.(armed := false, late := true)
    else if !ConfigOk(a.conf) then a.(armed := false)
    else a.(at := t + gap, atBlock := a.conf, armed := true)
  }

  /** The immediate start; while a block is running it is ignored, and the overrun says so. */
  function Controlled(a: State, value: int32, t: nat, div: nat): (c: State)
    requires Ok(a)
    ensures Ok(c)
  {
    if value % 2 == 0 then a
    else if a.busy then a.(overrun := true)
    else if !ConfigOk(a.conf) then a
    else Begun(a, a.conf, t, div)
  }

  function Stored(a: State, addr: int, value: int32, t: nat, div: nat): (c: State)
    requires Ok(a)
    ensures Ok(c)
  {
    if addr == ADC_AT then Armed(a, value, t)
    else if addr == ADC_CTRL then Controlled(a, value, t, div)
    else a.(conf := Configured(a.conf, addr, value))
  }

  function Configured(b: Block, addr: int, value: int32): Block {
    if addr == ADC_ADDR then b.(addr := value)
    else if addr == ADC_COUNT then b.(count := value)
    else if addr == ADC_PERIOD then b.(period := value)
    else b
  }

  function AfterLoad(a: State, addr: int): (c: State)
    requires Ok(a)
    ensures Ok(c)
  {
    if addr == ADC_STATUS then a.(overrun := false)
    else if addr == ADC_AT then a.(late := false)
    else a
  }

  /** The count of finished blocks as ADC_STATUS shows it: 30 bits. */
  function StatusCount(a: State): nat { a.done % 0x4000_0000 }

  function LoadValue(a: State, addr: int): int32 {
    if addr == ADC_STATUS then
      Wrap32(4 * StatusCount(a) + Flag(a.overrun, 2) + Flag(a.busy, 1))
    else if addr == ADC_ADDR then a.conf.addr
    else if addr == ADC_COUNT then a.conf.count
    else if addr == ADC_PERIOD then a.conf.period
    else if addr == ADC_AT then Wrap32(Flag(a.armed, 1) + Flag(a.late, 2))
    else 0
  }

  // --- the device ------------------------------------------------------------------------------

  class VAdc {
    var conf: Block
    var cur: Block
    var i: nat
    var next: nat
    var busy: bool
    var overrun: bool
    var done: uint32
    var armed: bool
    var late: bool
    var at: nat
    var atBlock: Block
    const half0: array<byte>
    const half1: array<byte>
    var front: bool

    constructor ()
      ensures Shaped() && fresh(half0) && fresh(half1) && Registers() == Reset()
    {
      half0, half1 := new byte[WINDOW_SIZE](k => 0), new byte[WINDOW_SIZE](k => 0);
      conf, cur, atBlock := Block(0, 0, 0), Block(0, 0, 0), Block(0, 0, 0);
      i, next, done, at := 0, 0, 0, 0;
      busy, overrun, armed, late, front := false, false, false, false, false;
    }

    ghost predicate Valid(shared: array<byte>, tx: Tx.VTx)
      reads this, half0, half1, tx
    {
      && Shaped() && shared.Length == SHARED_SIZE && half0 != shared && half1 != shared
      && tx.Valid() && Ok(Registers())
    }

    ghost function Registers(): State
      requires Shaped()
      reads this, half0, half1
    {
      State(conf, cur, i, next, busy, overrun, done, armed, late, at, atBlock, half0[..], half1[..], front)
    }

    ghost function Contents(shared: array<byte>, tx: Tx.VTx): Board
      requires Valid(shared, tx)
      reads this, half0, half1, shared, tx, tx.start, tx.end
    {
      Board(Registers(), tx.Contents(), shared[..])
    }

    ghost predicate Shaped() { half0.Length == WINDOW_SIZE && half1.Length == WINDOW_SIZE && half0 != half1 }

    method Deposit(bs: seq<byte>, shared: array<byte>)
      requires Shaped() && Ok(Registers()) && busy && |bs| == 8
      requires shared.Length == SHARED_SIZE && half0 != shared && half1 != shared
      modifies half0, half1, shared
      ensures Registers() == Buffered(old(Registers()), bs)
      ensures shared[..] == Transferred(old(Registers()), old(shared[..]), bs)
    {
      if PingPong(cur) {
        if front {
          Copy(bs, half0, 8 * i);
        } else {
          Copy(bs, half1, 8 * i);
        }
      } else {
        Copy(bs, shared, cur.addr + 8 * i - SHARED_BASE);
      }
    }

    method Convert(sig: Signal, tx: Tx.VTx) returns (iq: (int32, int32))
      requires tx.Valid()
      modifies tx`blind
      ensures tx.Valid()
      ensures iq == Sample(old(tx.Contents()), sig, next)
      ensures tx.Contents() == Dazzled(old(tx.Contents()), next)
    {
      var blinded := tx.BlindsAt(next);
      if blinded {
        tx.blind := true;
        return (ADC_MAX, ADC_MAX);
      }
      return (Quantized(sig(next).0), Quantized(sig(next).1));
    }

    method Count(div: nat)
      requires Shaped() && Ok(Registers()) && busy
      modifies this
      ensures Registers() == Counted(old(Registers()), div)
    {
      i := i + 1;
      next := next + Stride(cur, div);
      if i == cur.count {
        busy := false;
        done := (done + 1) % TWO32;
        if PingPong(cur) {
          front := !front;
        }
      }
    }

    method Take(sig: Signal, div: nat, shared: array<byte>, tx: Tx.VTx)
      requires Valid(shared, tx) && busy
      modifies this, half0, half1, shared, tx
      ensures Valid(shared, tx)
      ensures Contents(shared, tx) == Taken(old(Contents(shared, tx)), sig, div)
    {
      var iq := Convert(sig, tx);
      Deposit(SampleBytes(iq), shared);
      Count(div);
    }

    method Advance(sig: Signal, t: nat, div: nat, shared: array<byte>, tx: Tx.VTx)
      requires Valid(shared, tx)
      modifies this, half0, half1, shared, tx
      ensures Valid(shared, tx)
      ensures Contents(shared, tx) == Advanced(old(Contents(shared, tx)), sig, t, div)
    {
      while busy && t >= next
        invariant Valid(shared, tx)
        invariant Advanced(Contents(shared, tx), sig, t, div) == Advanced(old(Contents(shared, tx)), sig, t, div)
        decreases Left(Registers())
      {
        Take(sig, div, shared, tx);
      }
    }

    method Begin(k: Block, t0: nat, div: nat)
      requires Shaped() && Ok(Registers()) && ConfigOk(k)
      modifies this
      ensures Registers() == Begun(old(Registers()), k, t0, div)
    {
      cur := k;
      i := 0;
      next := t0 + Stride(k, div);
      busy := true;
    }

    method Trigger(sig: Signal, t: nat, div: nat, shared: array<byte>, tx: Tx.VTx) returns (started: bool)
      requires Valid(shared, tx)
      modifies this, half0, half1, shared, tx
      ensures Valid(shared, tx)
      ensures Contents(shared, tx) == Triggered(old(Contents(shared, tx)), sig, t, div)
    {
      if !armed || t < at {
        return false;
      }
      AdvanceKeepsArming(Contents(shared, tx), sig, at, div);
      Advance(sig, at, div, shared, tx);
      armed := false;
      if busy {
        overrun := true;
        return false;
      }
      Begin(atBlock, at, div);
      return true;
    }

    method Store(addr: int, value: int32, t: nat, div: nat) returns (mine: bool)
      requires Shaped() && Ok(Registers())
      modifies this
      ensures mine == (addr in {ADC_ADDR, ADC_COUNT, ADC_PERIOD, ADC_AT, ADC_CTRL})
      ensures Registers() == Stored(old(Registers()), addr, value, t, div)
    {
      mine := true;
      if addr == ADC_ADDR {
        conf := conf.(addr := value);
      } else if addr == ADC_COUNT {
        conf := conf.(count := value);
      } else if addr == ADC_PERIOD {
        conf := conf.(period := value);
      } else if addr == ADC_AT {
        armed := false;
        var gap := WrappedGap(value, t);
        if gap <= 0 {
          late := true;
        } else if ConfigOk(conf) {
          at, atBlock, armed := t + gap, conf, true;
        }
      } else if addr != ADC_CTRL {
        mine := false;
      } else if value % 2 == 1 {
        if busy {
          overrun := true;
        } else if ConfigOk(conf) {
          Begin(conf, t, div);
        }
      }
    }

    method Load(addr: int) returns (mine: bool, value: int32)
      requires Shaped() && Ok(Registers())
      modifies this
      ensures mine == (addr in {ADC_STATUS, ADC_ADDR, ADC_COUNT, ADC_PERIOD, ADC_AT})
      ensures value == LoadValue(old(Registers()), addr)
      ensures Registers() == AfterLoad(old(Registers()), addr)
    {
      mine, value := true, 0;
      if addr == ADC_STATUS {
        value := Wrap32(4 * (done % 0x4000_0000) + Flag(overrun, 2) + Flag(busy, 1));
        overrun := false;
      } else if addr == ADC_ADDR {
        value := conf.addr;
      } else if addr == ADC_COUNT {
        value := conf.count;
      } else if addr == ADC_PERIOD {
        value := conf.period;
      } else if addr == ADC_AT {
        value := Wrap32(Flag(armed, 1) + Flag(late, 2));
        late := false;
      } else {
        mine := false;
      }
    }

  }

  lemma {:induction false} AdvanceKeepsArming(b: Board, sig: Signal, t: nat, div: nat)
    requires Ok(b.a)
    ensures var c := Advanced(b, sig, t, div).a;
      c.armed == b.a.armed && c.at == b.a.at && c.atBlock == b.a.atBlock && c.conf == b.a.conf && c.late == b.a.late
    decreases Left(b.a)
  {
    if b.a.busy && t >= b.a.next {
      AdvanceKeepsArming(Taken(b, sig, div), sig, t, div);
    }
  }
}
