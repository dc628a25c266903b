/** The memories a CPU reaches: its local RAM at 0, the RAM shared by both CPUs, and the read-only
    window on the ADC's visible bank. An access that fits in none of them stops the board. */
module Memory {
  import opened Words

  const MEM_SIZE: int := 0x10_0000
  const MMIO_BASE: int := MEM_SIZE
  const MMIO_SIZE: int := 0x1000
  const SHARED_BASE: int := 0x20_0000
  const SHARED_SIZE: int := 0x1_0000
  const ADC_BUF: int := 0x30_0000
  const ADC_BUF_MAX: int := 256
  const WINDOW_SIZE: int := 8 * ADC_BUF_MAX

  // What a load or a store costs its CPU.
  const ACCESS_CYCLES := 4

  datatype Ram = Ram(local: seq<byte>, shared: seq<byte>, window: seq<byte>, fault: bool)

  function EmptyRam(): Ram { Ram(seq(MEM_SIZE, i => 0), seq(SHARED_SIZE, i => 0), seq(WINDOW_SIZE, i => 0), false) }

  predicate Sized(m: Ram) { |m.local| == MEM_SIZE && |m.shared| == SHARED_SIZE && |m.window| == WINDOW_SIZE }

  datatype Place = Local(at: nat) | Shared(at: nat) | Window(at: nat) | Nowhere

  predicate IsMmio(addr: int) { MMIO_BASE <= addr < MMIO_BASE + MMIO_SIZE }

  function RamPlace(addr: int, len: nat): (p: Place)
    ensures p.Local? ==> p.at == addr && p.at + len <= MEM_SIZE
    ensures p.Shared? ==> p.at == addr - SHARED_BASE && p.at + len <= SHARED_SIZE
    ensures !p.Window?
  {
    if 0 <= addr && addr + len <= MEM_SIZE then Local(addr)
    else if SHARED_BASE <= addr && addr + len <= SHARED_BASE + SHARED_SIZE then Shared(addr - SHARED_BASE)
    else Nowhere
  }

  predicate InWindow(addr: int, len: nat) { ADC_BUF <= addr && addr + len <= ADC_BUF + WINDOW_SIZE }

  function ReadPlace(addr: int, len: nat): (p: Place)
    ensures p.Local? ==> p.at + len <= MEM_SIZE
    ensures p.Shared? ==> p.at + len <= SHARED_SIZE
    ensures p.Window? ==> p.at + len <= WINDOW_SIZE
  {
    if InWindow(addr, len) then Window(addr - ADC_BUF) else RamPlace(addr, len)
  }

  // --- what an access does -----------------------------------------------------------------

  /** The `len` bytes at `addr`, if they are readable. */
  function Fetch(m: Ram, addr: int, len: nat): seq<byte>
    requires Sized(m) && ReadPlace(addr, len) != Nowhere
  {
    match ReadPlace(addr, len)
    case Local(at) => m.local[at..at + len]
    case Shared(at) => m.shared[at..at + len]
    case Window(at) => m.window[at..at + len]
  }

  function Load64(m: Ram, addr: int): int64
    requires Sized(m)
  {
    if Mmio64(addr) || ReadPlace(addr, 8) == Nowhere then 0 else Wrap64(Number(Fetch(m, addr, 8)))
  }

  function AfterLoad64(m: Ram, addr: int): Ram
    requires Sized(m)
  {
    if Mmio64(addr) || ReadPlace(addr, 8) == Nowhere then m.(fault := true) else m
  }

  /** Device registers are 32 bits wide: a doubleword touching them is a bus fault. */
  predicate Mmio64(addr: int) { IsMmio(addr) || IsMmio(addr + 4) }

  function Write(m: Ram, addr: int, bs: seq<byte>): (w: Ram)
    requires Sized(m)
    ensures Sized(w)
  {
    match RamPlace(addr, |bs|)
    case Local(at) => m.(local := Splice(m.local, at, bs))
    case Shared(at) => m.(shared := Splice(m.shared, at, bs))
    case _ => m.(fault := true)
  }

  /** A store into the ADC's window is refused without stopping the board. */
  function Store64(m: Ram, addr: int, v: int64): (w: Ram)
    requires Sized(m)
    ensures Sized(w)
  {
    if Mmio64(addr) then m.(fault := true)
    else if InWindow(addr, 8) then m
    else Write(m, addr, Bytes64(v))
  }

  function Store32(m: Ram, addr: int, v: int): (w: Ram)
    requires Sized(m) && !IsMmio(addr)
    ensures Sized(w)
  {
    if InWindow(addr, 4) then m else Write(m, addr, Bytes32(v))
  }

  function Load32(m: Ram, addr: int): int32
    requires Sized(m) && !IsMmio(addr)
  {
    if ReadPlace(addr, 4) == Nowhere then 0 else Wrap32(Number(Fetch(m, addr, 4)))
  }

  // --- the frame rule ------------------------------------------------------------------------

  predicate InRam(addr: int, len: nat) { RamPlace(addr, len) != Nowhere }

  predicate Apart(a: int, b: int, len: nat) { a + len <= b || b + len <= a }

  lemma WriteThenFetch(m: Ram, addr: int, bs: seq<byte>)
    requires Sized(m) && InRam(addr, |bs|) && |bs| > 0
    ensures !InWindow(addr, |bs|) && Fetch(Write(m, addr, bs), addr, |bs|) == bs
  {
  }

  lemma WriteElsewhere(m: Ram, addr: int, bs: seq<byte>, other: int)
    requires Sized(m) && InRam(addr, |bs|) && InRam(other, |bs|) && |bs| > 0 && Apart(addr, other, |bs|)
    ensures Fetch(Write(m, addr, bs), other, |bs|) == Fetch(m, other, |bs|)
  {
    match RamPlace(addr, |bs|)
    case Local(at) =>
      if RamPlace(other, |bs|).Local? {
        SpliceElsewhere(m.local, at, bs, other);
      }
    case Shared(at) =>
      if RamPlace(other, |bs|).Shared? {
        SpliceElsewhere(m.shared, at, bs, other - SHARED_BASE);
      }
  }

  lemma SpliceElsewhere(mem: seq<byte>, at: nat, bs: seq<byte>, other: nat)
    requires at + |bs| <= |mem| && other + |bs| <= |mem| && Apart(at, other, |bs|)
    ensures Splice(mem, at, bs)[other..other + |bs|] == mem[other..other + |bs|]
  {
    var w := Splice(mem, at, bs);
    forall k | other <= k < other + |bs|
      ensures w[k] == mem[k]
    {
    }
  }

  /** A doubleword stored in RAM is loaded back whole, and no store reaches another doubleword. */
  lemma Doubleword(m: Ram, addr: int, v: int64)
    requires Sized(m) && InRam(addr, 8)
    ensures var w := Store64(m, addr, v);
      && w.fault == m.fault && Load64(w, addr) == v && AfterLoad64(w, addr) == w
      && forall other | InRam(other, 8) && Apart(addr, other, 8) :: Load64(w, other) == Load64(m, other)
  {
    WriteThenFetch(m, addr, Bytes64(v));
    Word64RoundTrip(v);
    forall other | InRam(other, 8) && Apart(addr, other, 8)
      ensures Load64(Store64(m, addr, v), other) == Load64(m, other)
    {
      WriteElsewhere(m, addr, Bytes64(v), other);
    }
  }

  lemma Word(m: Ram, addr: int, v: int)
    requires Sized(m) && InRam(addr, 4)
    ensures var w := Store32(m, addr, v);
      && w.fault == m.fault && Load32(w, addr) == Wrap32(v)
      && forall other | InRam(other, 4) && Apart(addr, other, 4) :: Load32(w, other) == Load32(m, other)
  {
    WriteThenFetch(m, addr, Bytes32(v));
    Word32RoundTrip(v);
    forall other | InRam(other, 4) && Apart(addr, other, 4)
      ensures Load32(Store32(m, addr, v), other) == Load32(m, other)
    {
      WriteElsewhere(m, addr, Bytes32(v), other);
    }
  }

  // --- the memories as the arrays they are -------------------------------------------------

  method Copy(bs: seq<byte>, to: array<byte>, at: nat)
    requires at + |bs| <= to.Length
    modifies to
    ensures to[..] == Splice(old(to[..]), at, bs)
  {
    for i := 0 to |bs|
      invariant forall k | 0 <= k < to.Length :: to[k] == if at <= k < at + i then bs[k - at] else old(to[k])
    {
      to[at + i] := bs[i];
    }
  }

  class MemoryBus {
    const local: array<byte>
    const shared: array<byte>
    const window: array<byte>
    var fault: bool

    ghost predicate Valid() {
      && local.Length == MEM_SIZE && shared.Length == SHARED_SIZE && window.Length == WINDOW_SIZE
      && local != shared && local != window && shared != window
    }

    ghost function Contents(): (m: Ram)
      requires Valid()
      reads this, local, shared, window
      ensures Sized(m)
    {
      Ram(local[..], shared[..], window[..], fault)
    }

    constructor ()
      ensures Valid() && fresh(local) && fresh(shared) && fresh(window) && Contents() == EmptyRam()
    {
      local, shared := new byte[MEM_SIZE](i => 0), new byte[SHARED_SIZE](i => 0);
      window, fault := new byte[WINDOW_SIZE](i => 0), false;
    }

    method ReadDoubleword(addr: int) returns (value: int64)
      requires Valid()
      modifies this`fault
      ensures value == Load64(old(Contents()), addr)
      ensures Contents() == AfterLoad64(old(Contents()), addr)
    {
      value := 0;
      if Mmio64(addr) {
        fault := true;
        return;
      }
      match ReadPlace(addr, 8) {
        case Local(at) => value := Wrap64(Number(local[at..at + 8]));
        case Shared(at) => value := Wrap64(Number(shared[at..at + 8]));
        case Window(at) => value := Wrap64(Number(window[at..at + 8]));
        case Nowhere => fault := true;
      }
    }

    method WriteDoubleword(addr: int, value: int64)
      requires Valid()
      modifies this`fault, local, shared
      ensures Contents() == Store64(old(Contents()), addr, value)
    {
      if Mmio64(addr) {
        fault := true;
        return;
      }
      if InWindow(addr, 8) {
        return;
      }
      match RamPlace(addr, 8) {
        case Local(at) => Copy(Bytes64(value), local, at);
        case Shared(at) => Copy(Bytes64(value), shared, at);
        case Window(_) => assert false;
        case Nowhere => fault := true;
      }
    }
  }
}
