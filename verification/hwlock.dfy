/** The hardware spinlocks, the mailboxes and the comparators: the devices through which the CPUs, and
    the CPUs and time, meet. */
module HwLock {
  import opened Words
  import opened Memory

  const HWLOCK_BASE := MMIO_BASE + 0x80
  const HWLOCK_COUNT := 8

  /** For each lock the CPU that holds it plus one, 0 when it is free. */
  type Owners = o: seq<nat> | |o| == HWLOCK_COUNT witness seq(HWLOCK_COUNT, i => 0)

  predicate IsLock(addr: int) { HWLOCK_BASE <= addr < HWLOCK_BASE + HWLOCK_COUNT * 4 }

  function Index(addr: int): (n: nat)
    requires IsLock(addr)
    ensures n < HWLOCK_COUNT
  {
    (addr - HWLOCK_BASE) / 4
  }

  /** The locks are words of their own, one after another. */
  lemma LocksApart(n: nat)
    ensures IsLock(HWLOCK_BASE + 4 * n) <==> n < 8
    ensures n < 8 ==> Index(HWLOCK_BASE + 4 * n) == n
  {
  }

  /** Reading is the test-and-set: 0 means it was free and now is the reader's. */
  function Probe(o: Owners, id: nat, n: nat): (Owners, int32)
    requires n < HWLOCK_COUNT
  {
    if o[n] == 0 then (o[n := id + 1], 0) else (o, 1)
  }

  /** Writing 0 releases it, and only its owner can. */
  function Release(o: Owners, id: nat, n: nat, value: int32): Owners
    requires n < HWLOCK_COUNT
  {
    if value == 0 && o[n] == id + 1 then o[n := 0] else o
  }

  /** Whether the holder has been told that it asked again: cleared by the acquisition, set by the
      first request of the holder, untouched by anybody else. */
  function ToldAfter(told: seq<bool>, o: Owners, id: nat, n: nat): seq<bool>
    requires |told| == HWLOCK_COUNT && n < HWLOCK_COUNT
  {
    if o[n] == 0 then told[n := false] else if o[n] == id + 1 then told[n := true] else told
  }

  /** One access to lock `n`: a read, or a write of a value. */
  datatype Event = Asks(id: nat) | Writes(id: nat, value: int32)

  datatype Held = Held(owners: Owners, told: seq<bool>)

  /** What an access to lock `n` leaves. */
  function Next(h: Held, n: nat, e: Event): Held
    requires n < HWLOCK_COUNT && |h.told| == HWLOCK_COUNT
  {
    match e
    case Asks(id) => Held(Probe(h.owners, id, n).0, ToldAfter(h.told, h.owners, id, n))
    case Writes(id, value) => h.(owners := Release(h.owners, id, n, value))
  }

  function After(h: Held, n: nat, es: seq<Event>): (a: Held)
    requires n < HWLOCK_COUNT && |h.told| == HWLOCK_COUNT
    ensures |a.told| == HWLOCK_COUNT
    decreases |es|
  {
    if es == [] then h else After(Next(h, n, es[0]), n, es[1..])
  }

  /** The reads by its holder that are reported: those that find it has not been told. */
  function Reports(h: Held, n: nat, id: nat, es: seq<Event>): nat
    requires n < HWLOCK_COUNT && |h.told| == HWLOCK_COUNT
    decreases |es|
  {
    if es == [] then 0
    else
      (if es[0] == Asks(id) && h.owners[n] == id + 1 && !h.told[n] then 1 else 0) +
      Reports(Next(h, n, es[0]), n, id, es[1..])
  }

  /** Whoever reads a free lock has it, and is answered 0. */
  lemma Acquires(o: Owners, id: nat, n: nat, told: seq<bool>)
    requires n < HWLOCK_COUNT && |told| == HWLOCK_COUNT && o[n] == 0
    ensures var h := Next(Held(o, told), n, Asks(id));
      Probe(o, id, n).1 == 0 && h.owners[n] == id + 1 && !h.told[n]
  {
  }

  /** From then on, whatever anybody does short of the holder's own writing of 0, it stays the holder's,
      everybody who asks is answered 1 and changes nothing, no other lock moves, and of all the times the
      holder asks again one is reported. */
  lemma {:induction false} HeldUntilReleased(h: Held, n: nat, id: nat, es: seq<Event>)
    requires n < HWLOCK_COUNT && |h.told| == HWLOCK_COUNT && h.owners[n] == id + 1 && Writes(id, 0) !in es
    ensures After(h, n, es).owners == h.owners
    ensures forall i :: Probe(After(h, n, es).owners, i, n) == (h.owners, 1)
    ensures Reports(h, n, id, es) == if !h.told[n] && Asks(id) in es then 1 else 0
    ensures forall m | 0 <= m < HWLOCK_COUNT && m != n :: After(h, n, es).told[m] == h.told[m]
    decreases |es|
  {
    if es != [] {
      HeldUntilReleased(Next(h, n, es[0]), n, id, es[1..]);
    }
  }

  /** And then writing 0 frees it, that lock and no other. */
  lemma ReleasedByItsHolder(h: Held, n: nat, id: nat, es: seq<Event>)
    requires n < HWLOCK_COUNT && |h.told| == HWLOCK_COUNT && h.owners[n] == id + 1 && Writes(id, 0) !in es
    ensures Next(After(h, n, es), n, Writes(id, 0)).owners == h.owners[n := 0]
  {
    HeldUntilReleased(h, n, id, es);
  }

  class VHwLock {
    const owner: array<nat>
    const told: array<bool>

    ghost predicate Valid() { owner.Length == HWLOCK_COUNT && told.Length == HWLOCK_COUNT }

    ghost function Contents(): Owners
      requires Valid()
      reads owner
    {
      owner[..]
    }

    constructor ()
      ensures Valid() && fresh(owner) && fresh(told) && Contents() == seq(HWLOCK_COUNT, i => 0)
    {
      owner, told := new nat[HWLOCK_COUNT](i => 0), new bool[HWLOCK_COUNT](i => false);
    }

    /** The construction error of asking again for a lock one holds is reported once per hold. */
    method Load(id: nat, addr: int) returns (mine: bool, value: int32, report: bool)
      requires Valid()
      modifies owner, told
      ensures mine == IsLock(addr)
      ensures !mine ==> owner[..] == old(owner[..])
      ensures mine ==> (Contents(), value) == Probe(old(Contents()), id, Index(addr))
      ensures report <==> mine && old(owner[..])[Index(addr)] == id + 1 && !old(told[..])[Index(addr)]
      ensures told[..] == if !mine then old(told[..]) else ToldAfter(old(told[..]), old(Contents()), id, Index(addr))
    {
      mine, value, report := IsLock(addr), 0, false;
      if mine {
        var n := Index(addr);
        if owner[n] == 0 {
          owner[n] := id + 1;
          told[n] := false;
        } else {
          if owner[n] == id + 1 && !told[n] {
            report := true;
            told[n] := true;
          }
          value := 1;
        }
      }
    }

    method Store(id: nat, addr: int, value: int32) returns (mine: bool)
      requires Valid()
      modifies owner
      ensures mine == IsLock(addr)
      ensures owner[..] == if mine then Release(old(Contents()), id, Index(addr), value) else old(owner[..])
    {
      mine := IsLock(addr);
      if mine {
        var n := Index(addr);
        if value == 0 && owner[n] == id + 1 {
          owner[n] := 0;
        }
      }
    }
  }
}

module Mailbox {
  import opened Words
  import opened Memory

  const MBOX_SEND := MMIO_BASE + 0x60
  const MBOX_RECV := MMIO_BASE + 0x64
  const MBOX_STATUS := MMIO_BASE + 0x68
  const MBOX_CTRL := MMIO_BASE + 0x6C
  const MBOX_DEPTH := 4

  /** The place in the ring of the k-th word after `head`. */
  function Slot(head: nat, k: nat): (i: nat)
    ensures i < MBOX_DEPTH
  {
    (head + k) % MBOX_DEPTH
  }

  /** One CPU's input FIFO, a ring of four words, and its two bits. */
  class VMbox {
    const fifo: array<uint32>
    var head: nat
    var count: nat
    var overrun: bool
    var ie: bool

    ghost predicate Valid()
      reads this
    {
      fifo.Length == MBOX_DEPTH && head < MBOX_DEPTH && count <= MBOX_DEPTH
    }

    /** The words waiting, oldest first. */
    ghost function Queue(): (q: seq<uint32>)
      requires Valid()
      reads this, fifo
      ensures |q| == count
    {
      seq(count, k requires 0 <= k < count reads this, fifo requires Valid() => fifo[Slot(head, k)])
    }

    constructor ()
      ensures Valid() && fresh(fifo) && Queue() == [] && !overrun && !ie
    {
      fifo := new uint32[MBOX_DEPTH](i => 0);
      head, count, overrun, ie := 0, 0, false, false;
    }

    /** The oldest word, or 0 from an empty FIFO. */
    method Receive() returns (value: int)
      requires Valid()
      modifies this
      ensures Valid() && overrun == old(overrun) && ie == old(ie)
      ensures value == if old(Queue()) == [] then 0 else Wrap32(old(Queue())[0])
      ensures Queue() == if old(Queue()) == [] then [] else old(Queue())[1..]
    {
      if count == 0 {
        return 0;
      }
      assert Slot(head, 0) == head;
      value := Wrap32(fifo[head]);
      assert forall k | 0 <= k < count - 1 :: Slot(Slot(head, 1), k) == Slot(head, k + 1);
      head, count := Slot(head, 1), count - 1;
    }

    /** A word from the other side, unless the FIFO is full. */
    method Accept(word: uint32) returns (taken: bool)
      requires Valid()
      modifies this, fifo
      ensures Valid() && overrun == old(overrun) && ie == old(ie)
      ensures taken == (|old(Queue())| < MBOX_DEPTH)
      ensures Queue() == if taken then old(Queue()) + [word] else old(Queue())
    {
      taken := count < MBOX_DEPTH;
      if taken {
        assert forall k | 0 <= k < count :: Slot(head, k) != Slot(head, count);
        fifo[Slot(head, count)] := word;
        count := count + 1;
      }
    }

    method Load(peer: VMbox, addr: int) returns (mine: bool, value: int)
      requires Valid() && peer.Valid() && peer != this && peer.fifo != fifo
      modifies this
      ensures Valid() && peer.Valid()
      ensures mine == (addr in {MBOX_STATUS, MBOX_RECV, MBOX_CTRL})
      ensures Queue() == if addr == MBOX_RECV && old(Queue()) != [] then old(Queue())[1..] else old(Queue())
      ensures addr == MBOX_RECV ==> value == if old(Queue()) == [] then 0 else Wrap32(old(Queue())[0])
      ensures addr == MBOX_STATUS ==>
        value == |old(Queue())| + Flag(|peer.Queue()| == MBOX_DEPTH, 0x100) + Flag(old(overrun), 0x200)
      ensures addr == MBOX_CTRL ==> value == Flag(ie, 1)
      ensures overrun == (old(overrun) && addr != MBOX_STATUS) && ie == old(ie)
    {
      mine, value := true, 0;
      if addr == MBOX_STATUS {
        value := count + Flag(peer.count == MBOX_DEPTH, 0x100) + Flag(overrun, 0x200);
        overrun := false;
      } else if addr == MBOX_RECV {
        value := Receive();
      } else if addr == MBOX_CTRL {
        value := Flag(ie, 1);
      } else {
        mine := false;
      }
    }

    /** Sends to the other CPU; at a full FIFO the word is dropped and the sender sees an overrun. */
    method Store(peer: VMbox, addr: int, value: int32) returns (mine: bool)
      requires Valid() && peer.Valid() && peer != this && peer.fifo != fifo
      modifies this, peer, peer.fifo
      ensures Valid() && peer.Valid()
      ensures mine == (addr in {MBOX_SEND, MBOX_CTRL})
      ensures Queue() == old(Queue())
      ensures peer.Queue() ==
        if addr == MBOX_SEND && |old(peer.Queue())| < MBOX_DEPTH
        then old(peer.Queue()) + [(value as int) % TWO32] else old(peer.Queue())
      ensures overrun == (old(overrun) || (addr == MBOX_SEND && |old(peer.Queue())| == MBOX_DEPTH))
      ensures ie == (if addr == MBOX_CTRL then value % 2 == 1 else old(ie))
      ensures peer.overrun == old(peer.overrun) && peer.ie == old(peer.ie)
    {
      mine := true;
      if addr == MBOX_SEND {
        var taken := peer.Accept((value as int) % TWO32);
        if !taken {
          overrun := true;
        }
      } else if addr == MBOX_CTRL {
        ie := value % 2 == 1;
      } else {
        mine := false;
      }
    }
  }

  // --- every interleaving of the two sides ----------------------------------------------------

  datatype Event = Send(word: uint32) | Receive

  /** The queue in one direction with what has been accepted and what has been delivered. */
  datatype Channel = Channel(queue: seq<uint32>, accepted: seq<uint32>, delivered: seq<uint32>, lost: nat)

  function Next(c: Channel, e: Event): Channel {
    match e
    case Send(w) =>
      if |c.queue| < MBOX_DEPTH then c.(queue := c.queue + [w], accepted := c.accepted + [w])
      else c.(lost := c.lost + 1)
    case Receive =>
      if c.queue == [] then c else c.(queue := c.queue[1..], delivered := c.delivered + [c.queue[0]])
  }

  function After(c: Channel, es: seq<Event>): Channel
    decreases |es|
  {
    if es == [] then c else After(Next(c, es[0]), es[1..])
  }

  function Sent(es: seq<Event>): nat {
    if es == [] then 0 else (if es[0].Send? then 1 else 0) + Sent(es[1..])
  }

  /** Words come out in the order they went in, none twice, none invented; and every word sent was
      either accepted or counted as lost. */
  lemma {:induction false} NothingIsLostSilently(c: Channel, es: seq<Event>)
    requires c.accepted == c.delivered + c.queue && |c.queue| <= MBOX_DEPTH
    ensures var d := After(c, es);
      && d.accepted == d.delivered + d.queue && |d.queue| <= MBOX_DEPTH
      && |d.accepted| + d.lost == |c.accepted| + c.lost + Sent(es)
    decreases |es|
  {
    if es != [] {
      var d := Next(c, es[0]);
      if es[0].Receive? && c.queue != [] {
        assert c.queue == [c.queue[0]] + c.queue[1..];
      }
      NothingIsLostSilently(d, es[1..]);
    }
  }
}

module Comparators {
  import opened Words

  const CMP_CHANNELS := 2

  /** The deadline of each channel, and whether it is armed and whether it counts cycles. */
  class VCmp {
    const val: array<int32>
    const armed: array<bool>
    const cycles: array<bool>

    ghost predicate Valid() {
      val.Length == CMP_CHANNELS && armed.Length == CMP_CHANNELS && cycles.Length == CMP_CHANNELS
    }

    constructor ()
      ensures Valid() && fresh(val) && fresh(armed) && fresh(cycles)
      ensures forall n | 0 <= n < CMP_CHANNELS :: !armed[n] && !cycles[n] && val[n] == 0
    {
      val := new int32[CMP_CHANNELS](i => 0);
      armed, cycles := new bool[CMP_CHANNELS](i => false), new bool[CMP_CHANNELS](i => false);
    }

    /** A deadline is over when the wrapped difference is not negative. */
    predicate Over(n: int, ms: int32, cyc: int32)
      requires Valid() && 0 <= n < CMP_CHANNELS
      reads val, armed, cycles
    {
      armed[n] && Wrap32((if cycles[n] then cyc as int else ms as int) - val[n] as int) >= 0
    }

    /** The first channel whose deadline is over, or -1. */
    method Pending(ms: int32, cyc: int32) returns (channel: int)
      requires Valid()
      ensures -1 <= channel < CMP_CHANNELS
      ensures channel >= 0 ==> Over(channel, ms, cyc)
      ensures forall n | 0 <= n < (if channel < 0 then CMP_CHANNELS else channel) :: !Over(n, ms, cyc)
    {
      for n := 0 to CMP_CHANNELS
        invariant forall k | 0 <= k < n :: !Over(k, ms, cyc)
      {
        if !armed[n] {
          continue;
        }
        var now := if cycles[n] then cyc else ms;
        if Wrap32(now as int - val[n] as int) >= 0 {
          return n;
        }
      }
      return -1;
    }
  }

  /** Channel by channel, and each by its own clock. */
  lemma FiresWhenReached(c: VCmp, n: nat, deadline: nat, ms: nat, cyc: nat)
    requires c.Valid() && n < CMP_CHANNELS && c.val[n] == Wrap32(deadline)
    requires -0x8000_0000 <= (if c.cycles[n] then cyc else ms) - deadline < 0x8000_0000
    ensures c.Over(n, Wrap32(ms), Wrap32(cyc)) <==> c.armed[n] && deadline <= if c.cycles[n] then cyc else ms
  {
    OverMeansReached(deadline, if c.cycles[n] then cyc else ms);
  }

  /** A deadline less than 2^31 ticks away on either side fires exactly when it has been reached, the
      late ones at once, however often the counter has wrapped. */
  lemma OverMeansReached(deadline: nat, now: nat)
    requires -0x8000_0000 <= now - deadline < 0x8000_0000
    ensures Wrap32((Wrap32(now) as int) - (Wrap32(deadline) as int)) >= 0 <==> now >= deadline
  {
    var d := Wrap32(deadline);
    WrappedGapIsExact(now, deadline);
    var k := (deadline - d) / TWO32;
    assert d == deadline - TWO32 * k;
    WrappedGapIsExact(now - TWO32 * k, d);
    assert Wrap32(now - TWO32 * k) == Wrap32(now);
  }
}
