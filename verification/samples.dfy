/** What the CPUs get of the two devices: the words a load finds after a block, and what a program's stores
    into their registers bring about. */
module DevicePrograms {
  import opened Words
  import opened Memory
  import opened Adc
  import opened Boundaries
  import PingPongBuffer
  import Tx = Transmitter

  // --- the samples as a CPU loads them ------------------------------------------------------------------

  /** The memories of a CPU next to the two devices. */
  function Seen(local: seq<byte>, c: Board): (m: Ram)
    requires |local| == MEM_SIZE
    ensures Sized(m)
  {
    Ram(local, c.shared, Visible(c.a), false)
  }

  /** The two channels of the antenna at an instant, as they are sampled: in the dark of a transmission both
      are at the end of their range. */
  function ChannelI(x: Tx.State, sig: Signal, ts: nat): int32 {
    if Tx.Blinds(x, ts) then 2047 else Quantized(sig(ts).0)
  }

  function ChannelQ(x: Tx.State, sig: Signal, ts: nat): int32 {
    if Tx.Blinds(x, ts) then 2047 else Quantized(sig(ts).1)
  }

  lemma SampleIsBoth(x: Tx.State, sig: Signal, ts: nat)
    ensures Sample(x, sig, ts) == (ChannelI(x, sig, ts), ChannelQ(x, sig, ts))
  {
  }

  /** Eight bytes of a sample: the word of I, then the word of Q. */
  lemma WordsOfSample(mem: seq<byte>, at: nat, s: (int32, int32))
    requires at + 8 <= |mem| && mem[at..at + 8] == SampleBytes(s)
    ensures Wrap32(Number(mem[at..at + 4])) == s.0 && Wrap32(Number(mem[at + 4..at + 8])) == s.1
  {
    Word32RoundTrip(s.0);
    Word32RoundTrip(s.1);
    assert mem[at..at + 4] == mem[at..at + 8][..4] == Bytes32(s.0);
    assert mem[at + 4..at + 8] == mem[at..at + 8][4..] == Bytes32(s.1);
  }

  lemma SharedWord(m: Ram, off: nat)
    requires Sized(m) && off + 4 <= SHARED_SIZE
    ensures !IsMmio(SHARED_BASE + off) && Load32(m, SHARED_BASE + off) == Wrap32(Number(m.shared[off..off + 4]))
  {
  }

  lemma WindowWord(m: Ram, off: nat)
    requires Sized(m) && off + 4 <= WINDOW_SIZE
    ensures !IsMmio(ADC_BUF + off) && Load32(m, ADC_BUF + off) == Wrap32(Number(m.window[off..off + 4]))
  {
  }

  /** A load at `addr` gives I and a load four bytes further Q. */
  predicate Loads(m: Ram, addr: int, s: (int32, int32))
    requires Sized(m)
  {
    && !IsMmio(addr) && !IsMmio(addr + 4)
    && Load32(m, addr) == s.0 && Load32(m, addr + 4) == s.1
  }

  lemma SlotLoads(local: seq<byte>, c: Board, k: Block, j: nat, s: (int32, int32))
    requires |local| == MEM_SIZE && ConfigOk(k) && j < k.count && InSlot(c, k, j, s)
    ensures Loads(Seen(local, c), k.addr + 8 * j, s)
  {
    var (mem, at) := (Filled(c, k, true), Offset(k) + 8 * j);
    WordsOfSample(mem, at, s);
    if PingPong(k) {
      WindowWord(Seen(local, c), at);
      WindowWord(Seen(local, c), at + 4);
    } else {
      SharedWord(Seen(local, c), at);
      SharedWord(Seen(local, c), at + 4);
    }
  }

  /** After the block in progress is over, the words at its j-th eight bytes are I and Q of the antenna at
      the j-th instant, in the window as in shared RAM. */
  lemma BlockIsLoaded(b: Board, sig: Signal, t: nat, div: nat, j: nat, ts: nat, local: seq<byte>)
    requires Ok(b.a) && b.a.busy && b.a.i <= j < b.a.cur.count && |local| == MEM_SIZE
    requires OverBy(b.a, t, div) && ts == b.a.next + (j - b.a.i) * Stride(b.a.cur, div)
    ensures var c := Advanced(b, sig, t, div);
      !c.a.busy && Loads(Seen(local, c), b.a.cur.addr + 8 * j, (ChannelI(b.x, sig, ts), ChannelQ(b.x, sig, ts)))
  {
    BlockHoldsItsSamples(b, sig, t, div);
    var (c, k, stride) := (Advanced(b, sig, t, div), b.a.cur, Stride(b.a.cur, div));
    SampleIsBoth(b.x, sig, ts);
    assert SampleOf(b.x, sig, b.a.next, stride, b.a.i, j) == Sample(b.x, sig, ts);
    assert SlotHolds(Filled(c, k, true), Offset(k), j, SampleOf(b.x, sig, b.a.next, stride, b.a.i, j));
    SlotLoads(local, c, k, j, Sample(b.x, sig, ts));
  }

  /** So are those of an armed block. */
  lemma ArmedBlockIsLoaded(b: Board, sig: Signal, t: nat, div: nat, j: nat, ts: nat, local: seq<byte>)
    requires Ok(b.a) && b.a.armed && OverBy(b.a, b.a.at, div) && j < b.a.atBlock.count && |local| == MEM_SIZE
    requires ts == b.a.at + (j + 1) * Stride(b.a.atBlock, div)
    requires t >= b.a.at + b.a.atBlock.count * Stride(b.a.atBlock, div)
    ensures var (c, k) := (Served(b, sig, t, div), b.a.atBlock);
      !c.a.busy && Loads(Seen(local, c), k.addr + 8 * j, (ChannelI(b.x, sig, ts), ChannelQ(b.x, sig, ts)))
  {
    ArmedBlockIsExact(b, sig, t, div, j, ts);
    SampleIsBoth(b.x, sig, ts);
    SlotLoads(local, Served(b, sig, t, div), b.a.atBlock, j, Sample(b.x, sig, ts));
  }

  /** And at any moment of a run the window loads as the last block that was finished in it. */
  lemma WindowIsLoaded(l: PingPongBuffer.Logged, j: nat, local: seq<byte>)
    requires PingPongBuffer.Whole(l) && j < |l.last| && |local| == MEM_SIZE
    ensures Loads(Seen(local, l.b), ADC_BUF + 8 * j, l.last[j])
  {
    assert PingPongBuffer.Slot(Visible(l.b.a), j, l.last[j]);
    WordsOfSample(Visible(l.b.a), 8 * j, l.last[j]);
    WindowWord(Seen(local, l.b), 8 * j);
    WindowWord(Seen(local, l.b), 8 * j + 4);
  }

  // --- a program that samples -------------------------------------------------------------------------------

  /** The three stores that describe a block, in the order a program makes them. */
  function Described(a: State, addr: int32, count: int32, period: int32, t: nat, div: nat): (c: State)
    requires Ok(a)
    ensures Ok(c)
  {
    Stored(Stored(Stored(a, ADC_ADDR, addr, t, div), ADC_COUNT, count, t, div), ADC_PERIOD, period, t, div)
  }

  /** They change only what the next start will take. */
  lemma DescriptionWaits(a: State, addr: int32, count: int32, period: int32, t: nat, div: nat)
    requires Ok(a)
    ensures Described(a, addr, count, period, t, div) == a.(conf := Block(addr, count, period))
  {
  }

  /** A block the device can do: some samples, some distance, and room in shared RAM or in the window. */
  predicate Doable(addr: int32, count: int32, period: int32) {
    && count > 0 && period > 0
    && ((0x20_0000 <= addr && addr + 8 * count <= 0x21_0000) || (addr == 0x30_0000 && count <= 256))
  }

  /** Storing 1 in ADC_CTRL begins the block described, if none is running and it can be done; while one is
      running it raises the overrun and nothing else. */
  lemma ControlBegins(a: State, addr: int32, count: int32, period: int32, t: nat, t0: nat, div: nat)
    requires Ok(a)
    ensures var c := Stored(Described(a, addr, count, period, t0, div), ADC_CTRL, 1, t, div);
      && c.conf == Block(addr, count, period)
      && (a.busy ==> c == a.(conf := c.conf, overrun := true))
      && (!a.busy && !Doable(addr, count, period) ==> c == a.(conf := c.conf))
      && (!a.busy && Doable(addr, count, period) ==>
            c == a.(conf := c.conf, cur := c.conf, i := 0, next := t + period * div, busy := true))
  {
  }

  /** Five stores and a wait: sample j of the block is of instant t + (j + 1) * period * div. */
  lemma ProgramSamples(b: Board, sig: Signal, addr: int32, count: int32, period: int32, t0: nat, t: nat, t1: nat,
      div: nat, j: nat, ts: nat, local: seq<byte>)
    requires Ok(b.a) && !b.a.busy && Doable(addr, count, period) && j < count && |local| == MEM_SIZE
    requires ts == t + period * div + j * (period * div) && t1 >= t + period * div + (count - 1) * (period * div)
    ensures var a := Stored(Described(b.a, addr, count, period, t0, div), ADC_CTRL, 1, t, div);
      var c := Advanced(b.(a := a), sig, t1, div);
      !c.a.busy && Loads(Seen(local, c), addr + 8 * j, (ChannelI(b.x, sig, ts), ChannelQ(b.x, sig, ts)))
  {
    ControlBegins(b.a, addr, count, period, t, t0, div);
    var a := Stored(Described(b.a, addr, count, period, t0, div), ADC_CTRL, 1, t, div);
    assert Stride(a.cur, div) == period * div;
    BlockIsLoaded(b.(a := a), sig, t1, div, j, ts, local);
  }

  /** ADC_AT takes an instant up to 2^31 ticks ahead, with the block described then, whatever is described
      later; it refuses one that is past. */
  lemma AtArms(a: State, at: int, t: nat, div: nat)
    requires Ok(a) && 0 <= at && -0x8000_0000 <= at - t < 0x8000_0000
    ensures var c := Stored(a, ADC_AT, Wrap32(at), t, div);
      && (at <= t ==> c == a.(armed := false, late := true))
      && (at > t && !Doable(a.conf.addr, a.conf.count, a.conf.period) ==> c == a.(armed := false))
      && (at > t && Doable(a.conf.addr, a.conf.count, a.conf.period) ==>
            c == a.(armed := true, at := at, atBlock := a.conf))
  {
    GapOfWrapped(at, t);
  }

  lemma GapOfWrapped(at: int, t: int)
    requires -0x8000_0000 <= at - t < 0x8000_0000
    ensures WrappedGap(Wrap32(at), t) == at - t
  {
    WrappedGapIsExact(at, t);
    assert Wrap32(Wrap32(at)) == Wrap32(at);
  }

  /** What ADC_STATUS and ADC_AT say, and that reading lowers what it reports, but what is time itself. */
  lemma StatusOfReceiver(a: State)
    requires Ok(a)
    ensures LoadValue(a, ADC_STATUS) ==
      Wrap32((if a.busy then 1 else 0) + (if a.overrun then 2 else 0) + 4 * (a.done % 0x4000_0000))
    ensures LoadValue(a, ADC_AT) == (if a.armed then 1 else 0) + (if a.late then 2 else 0)
    ensures AfterLoad(a, ADC_STATUS) == a.(overrun := false) && AfterLoad(a, ADC_AT) == a.(late := false)
    ensures LoadValue(a, ADC_ADDR) == a.conf.addr && LoadValue(a, ADC_COUNT) == a.conf.count
    ensures LoadValue(a, ADC_PERIOD) == a.conf.period
  {
  }

  // --- a program that transmits -------------------------------------------------------------------------------

  /** A length and then 1, or 3 for the opposite sign, stored in TX_LEN and TX_CTRL. */
  function Told(x: Tx.State, len: int32, opposite: bool, t0: nat, t: nat, div: nat): Tx.State {
    Tx.Stored(Tx.Stored(x, Tx.TX_LEN, len, t0, div), Tx.TX_CTRL, if opposite then 3 else 1, t, div)
  }

  /** They transmit that long from then on, if nothing is on; */
  lemma ProgramTransmits(x: Tx.State, len: int32, opposite: bool, t0: nat, t: nat, div: nat)
    requires (x.n == 0 || x.last.end <= t) && len > 0
    ensures Told(x, len, opposite, t0, t, div) == x.(len := len, cfgNeg := opposite, neg := opposite, n := x.n + 1,
      prev := x.last, last := Tx.Span(t, t + (len as int) * div))
  {
  }

  /** while something is on, they raise the overrun; and a length that is none transmits nothing. */
  lemma ProgramWaits(x: Tx.State, len: int32, opposite: bool, t0: nat, t: nat, div: nat)
    requires (x.n > 0 && t < x.last.end) || len <= 0
    ensures Told(x, len, opposite, t0, t, div) ==
      x.(len := len, cfgNeg := opposite, overrun := x.overrun || (x.n > 0 && t < x.last.end))
  {
  }

  /** Something is on exactly when an instant of some transmission has come and its end has not. */
  lemma OnExactly(l: Tx.Logged, t: nat)
    requires Tx.Faithful(l) && (l.x.n > 0 ==> l.x.last.start <= t)
    ensures Tx.On(l.x, t) <==> exists i :: 0 <= i < |l.history| && l.history[i].start <= t < l.history[i].end
  {
    if Tx.On(l.x, t) {
      assert l.history[|l.history| - 1] == l.x.last;
    }
    if i :| 0 <= i < |l.history| && l.history[i].start <= t < l.history[i].end {
      if i < |l.history| - 1 {
        Tx.OrderedApart(l.history, i, |l.history| - 1);
      }
    }
  }

  /** TX_AT transmits from its own instant with the length and the sign of when it was stored, whatever was
      stored since and whenever somebody looks. */
  lemma AtTransmits(x: Tx.State, at: nat, t: nat, len: int32, ctrl: int32, t1: nat, div: nat)
    requires x.len > 0 && t < at < t + 0x8000_0000 && at <= t1 && ctrl % 2 == 0
    requires x.n == 0 || x.last.end <= at
    ensures var y := Tx.Stored(x, Tx.TX_AT, Wrap32(at), t, div);
      && y.armed && y.at == at
      && var z := Tx.Fired(Tx.Stored(Tx.Stored(y, Tx.TX_LEN, len, t, div), Tx.TX_CTRL, ctrl, t, div), t1, div);
      && z.last == Tx.Span(at, at + x.len * div) && z.neg == x.cfgNeg && z.prev == x.last && z.n == x.n + 1 && !z.armed
  {
    GapOfWrapped(at, t);
  }

  /** What TX_STATUS and TX_AT say, and that reading lowers what it reports, but what is time itself. */
  lemma StatusOfTransmitter(x: Tx.State, t: nat)
    ensures Tx.LoadValue(x, Tx.TX_STATUS, t) ==
      (if x.n > 0 && t < x.last.end then 1 else 0) + (if x.blind then 2 else 0) + (if x.overrun then 4 else 0)
    ensures Tx.LoadValue(x, Tx.TX_AT, t) == (if x.armed then 1 else 0) + (if x.late then 2 else 0)
    ensures Tx.LoadValue(x, Tx.TX_LEN, t) == x.len
    ensures Tx.AfterLoad(x, Tx.TX_STATUS) == x.(blind := false, overrun := false)
    ensures Tx.AfterLoad(x, Tx.TX_AT) == x.(late := false)
  {
  }

  /** An armed transmission whose instant finds another on is not made, and the overrun says so. */
  lemma AtCollides(x: Tx.State, t1: nat, div: nat)
    requires x.armed && x.atLen > 0 && x.at <= t1 && x.n > 0 && x.at < x.last.end
    ensures Tx.Fired(x, t1, div) == x.(armed := false, overrun := true)
  {
  }

  /** Before its instant an armed transmission waits. */
  lemma AtWaits(x: Tx.State, t1: nat, div: nat)
    requires x.armed && x.atLen > 0 && t1 < x.at
    ensures Tx.Fired(x, t1, div) == x
  {
  }
}
