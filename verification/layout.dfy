/** The memory map and the order of bytes, in numbers: which addresses answer, and which byte is where. */
module MemoryLayout {
  import HwLock
  import Mailbox
  import Transmitter
  import Adc
  import opened Words
  import opened Memory
  import opened Integers

  // --- bytes ---------------------------------------------------------------------------------------------

  lemma DivideBy256(w: nat, b: nat)
    requires b > 0
    ensures w / (256 * b) == w / 256 / b
  {
    var q := w / 256 / b;
    Euclid(w / 256, b);
    assert Times(q, 256 * b) == 256 * Times(q, b);
    QuotientIsUnique(w, 256 * b, q);
  }

  /** The k-th byte of a stored number is its k-th digit to the base 256: the lowest comes first. */
  lemma {:induction false} LowestFirst(v: nat, n: nat, k: nat)
    requires k < n
    ensures Bytes(v, n)[k] == v / Pow256(k) % 256
    decreases n
  {
    if k > 0 {
      LowestFirst(v / 256, n - 1, k - 1);
      DivideBy256(v, Pow256(k - 1));
    }
  }

  lemma {:induction false} NumberJoins(a: seq<byte>, b: seq<byte>)
    ensures Number(a + b) == Number(a) + Pow256(|a|) * Number(b)
    decreases |a|
  {
    if a == [] {
      assert a + b == b;
    } else {
      assert (a + b)[1..] == a[1..] + b;
      NumberJoins(a[1..], b);
      assert 256 * (Pow256(|a| - 1) * Number(b)) == Pow256(|a|) * Number(b);
    }
  }

  lemma {:induction false} NumberFits(bs: seq<byte>)
    ensures Number(bs) < Pow256(|bs|)
    decreases |bs|
  {
    if bs != [] {
      NumberFits(bs[1..]);
    }
  }

  /** A doubleword is its two words, the low one first. */
  lemma WordsOfDoubleword(bs: seq<byte>)
    requires |bs| == 8
    ensures Number(bs) == Number(bs[..4]) + TWO32 * Number(bs[4..]) && Number(bs[..4]) < TWO32
  {
    FourBytes();
    assert bs == bs[..4] + bs[4..];
    NumberJoins(bs[..4], bs[4..]);
    NumberFits(bs[..4]);
  }

  /** After `sd`, `lw` at the same address finds the low word, and four bytes further the high one. */
  lemma HalvesOfDoubleword(m: Ram, addr: int, v: int64)
    requires Sized(m) && InRam(addr, 8)
    ensures var w := Store64(m, addr, v);
      && !IsMmio(addr) && !IsMmio(addr + 4)
      && Load32(w, addr) == Wrap32(v) && Load32(w, addr + 4) == Wrap32(v / TWO32)
  {
    var (w, bs, u) := (Store64(m, addr, v), Bytes64(v), v % TWO64);
    WordsOfDoubleword(bs);
    assert Pow256(8) == TWO64 by {
      assert Pow256(2) == 0x1_0000;
      assert Pow256(4) == 0x1_0000_0000;
      assert Pow256(6) == 0x1_0000_0000_0000;
    }
    NumberOfBytes(u, 8);
    WriteThenFetch(m, addr, bs);
    assert Fetch(w, addr, 4) == bs[..4] by {
      assert Fetch(w, addr, 8)[..4] == Fetch(w, addr, 4);
    }
    assert Fetch(w, addr + 4, 4) == bs[4..] by {
      assert Fetch(w, addr, 8)[4..] == Fetch(w, addr + 4, 4);
    }
    WrapOfHalves(v, Number(bs[..4]), Number(bs[4..]));
  }

  lemma WrapOfHalves(v: int64, low: nat, high: nat)
    requires low < TWO32 && (v as int) % TWO64 == low + TWO32 * high
    ensures Wrap32(low) == Wrap32(v) && Wrap32(high) == Wrap32(v / TWO32)
  {
    var k := (v as int) / TWO64;
    assert v == low + TWO32 * (high + TWO32 * k);
    assert (v as int) / TWO32 == high + TWO32 * k;
    SameWord(low, high + TWO32 * k);
    SameWord(high, k);
  }

  lemma SameWord(x: int, k: int)
    ensures Wrap32(x + TWO32 * k) == Wrap32(x)
  {
    assert (x + TWO32 * k + 0x8000_0000) % TWO32 == (x + 0x8000_0000) % TWO32;
  }

  // --- addresses --------------------------------------------------------------------------------------------

  /** `len` bytes at `addr` are in the local or in the shared RAM. */
  predicate InMemory(addr: int, len: nat) {
    (0 <= addr && addr + len <= 0x10_0000) || (0x20_0000 <= addr && addr + len <= 0x21_0000)
  }

  predicate InBuffer(addr: int, len: nat) { 0x30_0000 <= addr && addr + len <= 0x30_0800 }

  /** `ld` stops the board exactly when its eight bytes are in no RAM and not in the ADC's window. */
  lemma LoadsExactly(m: Ram, addr: int)
    requires Sized(m)
    ensures AfterLoad64(m, addr) == m.(fault := m.fault || !(InMemory(addr, 8) || InBuffer(addr, 8)))
  {
  }

  /** `sd` does too, but the window only refuses it. */
  lemma StoresExactly(m: Ram, addr: int, v: int64)
    requires Sized(m)
    ensures Store64(m, addr, v).fault == (m.fault || !(InMemory(addr, 8) || InBuffer(addr, 8)))
    ensures InBuffer(addr, 8) ==> Store64(m, addr, v) == m
    ensures Store64(m, addr, v).window == m.window
  {
  }

  /** So do the stores of words. */
  lemma WordStoresExactly(m: Ram, addr: int, v: int)
    requires Sized(m) && !(0x10_0000 <= addr < 0x10_1000)
    ensures !IsMmio(addr)
    ensures Store32(m, addr, v).fault == (m.fault || !(InMemory(addr, 4) || InBuffer(addr, 4)))
    ensures InBuffer(addr, 4) ==> Store32(m, addr, v) == m
  {
  }

  /** An address of local RAM is the local byte, one of shared RAM the shared byte, and one of the window the
      byte of the visible half. */
  lemma AddressesAreBytes(m: Ram, addr: int, len: nat)
    requires Sized(m) && len > 0 && (InMemory(addr, len) || InBuffer(addr, len))
    ensures ReadPlace(addr, len) != Nowhere
    ensures Fetch(m, addr, len) ==
      if addr < 0x20_0000 then m.local[addr..addr + len]
      else if addr < 0x30_0000 then m.shared[addr - 0x20_0000..addr - 0x20_0000 + len]
      else m.window[addr - 0x30_0000..addr - 0x30_0000 + len]
  {
  }

  // --- the registers of the devices -------------------------------------------------------------------------

  const RECEIVER := {Adc.ADC_ADDR, Adc.ADC_COUNT, Adc.ADC_PERIOD, Adc.ADC_CTRL, Adc.ADC_STATUS, Adc.ADC_AT}
  const TRANSMITTER := {Transmitter.TX_LEN, Transmitter.TX_CTRL, Transmitter.TX_STATUS, Transmitter.TX_AT}
  const MAILBOX := {Mailbox.MBOX_SEND, Mailbox.MBOX_RECV, Mailbox.MBOX_STATUS, Mailbox.MBOX_CTRL}

  /** The registers of the devices, in numbers. */
  lemma RegistersAre()
    ensures Adc.ADC_ADDR == 0x10_0040 && Adc.ADC_COUNT == 0x10_0044 && Adc.ADC_PERIOD == 0x10_0048
    ensures Adc.ADC_CTRL == 0x10_004C && Adc.ADC_STATUS == 0x10_0050 && Adc.ADC_AT == 0x10_0070
    ensures Transmitter.TX_LEN == 0x10_0054 && Transmitter.TX_CTRL == 0x10_0058
    ensures Transmitter.TX_STATUS == 0x10_005C && Transmitter.TX_AT == 0x10_0074
    ensures Mailbox.MBOX_SEND == 0x10_0060 && Mailbox.MBOX_RECV == 0x10_0064
    ensures Mailbox.MBOX_STATUS == 0x10_0068 && Mailbox.MBOX_CTRL == 0x10_006C
  {
  }

  /** Which device answers at an address; no address is two devices', and none is memory. */
  lemma RegistersApart(addr: int)
    ensures addr in RECEIVER <==> addr in {0x10_0040, 0x10_0044, 0x10_0048, 0x10_004C, 0x10_0050, 0x10_0070}
    ensures addr in TRANSMITTER <==> addr in {0x10_0054, 0x10_0058, 0x10_005C, 0x10_0074}
    ensures addr in MAILBOX <==> addr in {0x10_0060, 0x10_0064, 0x10_0068, 0x10_006C}
    ensures HwLock.IsLock(addr) <==> 0x10_0080 <= addr < 0x10_00A0
    ensures addr in RECEIVER || addr in TRANSMITTER || addr in MAILBOX || HwLock.IsLock(addr) ==> IsMmio(addr)
    ensures addr in RECEIVER ==> addr !in TRANSMITTER + MAILBOX && !HwLock.IsLock(addr)
    ensures addr in TRANSMITTER ==> addr !in MAILBOX && !HwLock.IsLock(addr)
    ensures addr in MAILBOX ==> !HwLock.IsLock(addr)
  {
  }

  /** Elsewhere nothing happens to the receiver or to the transmitter. */
  lemma OtherRegistersKeep(a: Adc.State, x: Transmitter.State, addr: int, value: int32, t: nat, div: nat)
    requires Adc.Ok(a)
    ensures addr !in RECEIVER ==> Adc.Stored(a, addr, value, t, div) == a && Adc.AfterLoad(a, addr) == a
    ensures addr !in TRANSMITTER ==>
      Transmitter.Stored(x, addr, value, t, div) == x && Transmitter.AfterLoad(x, addr) == x
  {
  }
}

/** The limits and the codes of the board and of its tools, in numbers. */
module BoardNumbers {
  import Cpu
  import Machine
  import Mailbox
  import Locator
  import Linker
  import Assembly
  import SourceReader

  lemma Limits()
    ensures Cpu.VLMAX == 64 && Cpu.MAX_INSTR == 4096 && Mailbox.MBOX_DEPTH == 4
    ensures SourceReader.MAX_INCLUDE == 8 && SourceReader.MAX_INC_SEEN == 64 && SourceReader.MAX_COND == 16
    ensures Assembly.MAX_SYMBOLS == 512 && Assembly.NULL_GUARD == 4 && Linker.MAX_OBJECTS == 64 && Locator.LOC_MAX == 8
    ensures Machine.CAUSE_TIMER == 0 && Machine.CAUSE_KBD == 1 && Machine.CAUSE_CMP == 2 && Machine.CAUSE_MBOX == 4
  {
  }

  /** Which bit of the status word is which, and that it has no others. */
  lemma StatusBits(w: Cpu.uint64)
    ensures var p := Cpu.PswOf(w);
      && (p.ie <==> w % 2 == 1) && (p.vdirty <==> w / 2 % 2 == 1)
      && (p.fdirty <==> w / 4 % 2 == 1) && (p.bank <==> w / 8 % 2 == 1) && p.high == w / 16
  {
  }
}
