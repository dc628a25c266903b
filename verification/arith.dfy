/** What the integer instructions compute, stated apart from how: division, shifts and bits. */
module Integers {
  import opened Words
  import opened Cpu

  // --- multiples --------------------------------------------------------------------------------------

  function Times(k: int, y: int): int { k * y }

  function Div(x: int, y: int): int
    requires y != 0
  {
    x / y
  }

  function Mod(x: int, y: int): int
    requires y != 0
  {
    x % y
  }

  lemma Distribute(a: int, b: int, y: int)
    ensures Times(a - b, y) == Times(a, y) - Times(b, y) && Times(a + b, y) == Times(a, y) + Times(b, y)
    ensures Times(-a, y) == -Times(a, y) && Times(a, -y) == -Times(a, y) && Times(-a, -y) == Times(a, y)
  {
  }

  lemma NotSmaller(n: int, y: int)
    requires n >= 1 && y >= 1
    ensures Times(n, y) >= y
  {
    assert (n - 1) * y >= 0;
  }

  /** A multiple smaller than what it is a multiple of is zero. */
  lemma SmallMultiple(n: int, y: int)
    requires y > 0 && -y < Times(n, y) < y
    ensures n == 0
  {
    if n >= 1 {
      NotSmaller(n, y);
    } else if n <= -1 {
      NotSmaller(-n, y);
      Distribute(n, 0, y);
    }
  }

  lemma Euclid(x: int, y: int)
    requires y != 0
    ensures x == Times(Div(x, y), y) + Mod(x, y)
    ensures y > 0 ==> 0 <= Mod(x, y) < y
  {
  }

  /** Only the quotient leaves less than the divisor. */
  lemma QuotientIsUnique(x: int, y: int, q: int)
    requires y > 0 && Times(q, y) <= x < Times(q, y) + y
    ensures q == Div(x, y)
  {
    Euclid(x, y);
    Distribute(q, Div(x, y), y);
    SmallMultiple(q - Div(x, y), y);
  }

  /** Division finds the factor of every multiple. */
  lemma Factor(k: int, y: int)
    requires y != 0
    ensures Times(k, y) / y == k && Times(k, y) % y == 0
  {
    var (q, r) := (Times(k, y) / y, Times(k, y) % y);
    Euclid(Times(k, y), y);
    Distribute(k, q, y);
    if y > 0 {
      SmallMultiple(k - q, y);
    } else {
      Distribute(k - q, 0, y);
      SmallMultiple(q - k, -y);
    }
  }

  // --- division -----------------------------------------------------------------------------------

  /** A quotient of magnitudes is no larger than the dividend. */
  lemma QuotientIsSmall(m: nat, n: nat)
    requires n > 0
    ensures 0 <= Div(m, n) <= m && (n >= 2 && m > 0 ==> Div(m, n) < m)
  {
    Euclid(m, n);
    var k := Div(m, n);
    if k > 0 {
      NotSmaller(n, k);
      assert Times(n, k) == Times(k, n);
      if n >= 2 {
        NotSmaller(n - 1, k);
        Distribute(n, 1, k);
      }
    }
  }

  lemma QuotientOfMagnitudes(x: int64, y: int64)
    requires y != 0
    ensures var k := Div(Magnitude(x), Magnitude(y));
      Quotient(x, y) == Wrap64(if (x < 0) == (y < 0) then k else -k)
    ensures Remainder(x, y) == Wrap64(x as int - Times(Quotient(x, y), y))
  {
  }

  /** `div` and `rem` agree: the quotient is truncated toward zero and the remainder has the sign of
      the dividend. The one quotient that does not fit is left out. */
  lemma DivisionIsTruncated(x: int64, y: int64)
    requires y != 0 && !(x == -0x8000_0000_0000_0000 && y == -1)
    ensures var (q, r) := (Quotient(x, y) as int, Remainder(x, y) as int);
      && Times(q, y) + r == x
      && Magnitude(r) < Magnitude(y)
      && (r != 0 ==> (r < 0) == (x < 0))
  {
    var m: int, n: int := Magnitude(x), Magnitude(y);
    var k := Div(m, n);
    Euclid(m, n);
    QuotientIsSmall(m, n);
    FitsWord(x, y, k);
    QuotientOfMagnitudes(x, y);
    Distribute(k, 0, n);
    assert Times(Quotient(x, y), y) == if x < 0 then -Times(k, n) else Times(k, n);
  }

  lemma FitsWord(x: int64, y: int64, k: int)
    requires y != 0 && !(x == -0x8000_0000_0000_0000 && y == -1)
    requires 0 <= k <= Magnitude(x) && (Magnitude(y) >= 2 && Magnitude(x) > 0 ==> k < Magnitude(x))
    ensures 0 <= k <= 0x8000_0000_0000_0000 && (k == 0x8000_0000_0000_0000 ==> (x < 0) != (y < 0))
  {
  }

  // --- wrap-around ----------------------------------------------------------------------------------------

  /** Two numbers that differ by a multiple of 2^64 leave the same in a register. */
  lemma WrapOfMultiple(x: int, k: int)
    ensures Wrap64(x + k * TWO64) == Wrap64(x)
  {
    assert (x + k * TWO64 + 0x8000_0000_0000_0000) % TWO64 == (x + 0x8000_0000_0000_0000) % TWO64;
  }

  lemma WrapGap(x: int)
    ensures exists k :: x == Wrap64(x) + k * TWO64
  {
    var k := (x - Wrap64(x)) / TWO64;
    assert x == Wrap64(x) + k * TWO64;
  }

  lemma GapCloses(x: int64, y: int)
    ensures Wrap64(Wrap64(x + y) - y) == x
  {
    WrapGap(x + y);
    var k :| x + y == Wrap64(x + y) + k * TWO64;
    WrapOfMultiple(x, -k);
  }

  lemma SumLeft(s: State, bus: Bus, ins: Instr)
    requires Encoded(ins) && ins.op in {ADD, SUB}
    ensures IntegerResult(s, bus, ins) ==
      Wrap64(if ins.op == ADD then R(s, ins.b) + R(s, ins.c) else R(s, ins.b) - R(s, ins.c))
  {
  }

  /** `sub` takes back what `add` left in a register, overflow included. */
  lemma SubUndoesAdd(s: State, t: State, bus: Bus, add: Instr, sub: Instr)
    requires Encoded(add) && Encoded(sub) && add.op == ADD && sub.op == SUB
    requires t.r == s.r[add.a := IntegerResult(s, bus, add)]
    requires add.c != add.a && sub.b == add.a && sub.c == add.c
    ensures IntegerResult(t, bus, sub) == s.r[add.b]
  {
    SumLeft(s, bus, add);
    SumLeft(t, bus, sub);
    GapCloses(s.r[add.b], s.r[add.c]);
  }

  /** `slli` by n leaves what `mul` by 2^n leaves, overflow included. */
  lemma ShiftIsMultiplication(s: State, bus: Bus, shift: Instr, mul: Instr)
    requires Encoded(shift) && Encoded(mul) && shift.op == SLLI && mul.op == MUL && 0 <= shift.imm < 64
    requires shift.b == mul.b && s.r[mul.c] == Pow2(shift.imm)
    ensures IntegerResult(s, bus, shift) == IntegerResult(s, bus, mul)
  {
    assert shift.imm % 64 == shift.imm;
    assert IntegerResult(s, bus, shift) == Shl(s.r[shift.b], shift.imm);
  }

  // --- the arithmetic shift ---------------------------------------------------------------------------

  /** The shift as it is computed: a truncating division, corrected downwards. */
  function FloorShiftByDivision(v: int64, n: nat): int
    requires n <= 62
  {
    var d := Pow2(n);
    var k := Div(Magnitude(v), d);
    var q := if v < 0 then -k else k;
    if Mod(Magnitude(v), d) != 0 && v < 0 then q - 1 else q
  }

  lemma Corrected(v: int, d: int, k: int, r: int, q: int)
    requires d > 0 && Times(k, d) + r == Magnitude(v) && 0 <= r < d
    requires q == if v >= 0 then k else if r != 0 then -k - 1 else -k
    ensures Times(q, d) <= v < Times(q + 1, d) && Times(q + 1, d) == Times(q, d) + d
  {
    Distribute(k, 0, d);
    Distribute(-k, 1, d);
    Distribute(q, 1, d);
  }

  /** It is the division toward minus infinity. */
  lemma ShiftIsFloor(v: int64, n: nat)
    requires n <= 62
    ensures var q := FloorShiftByDivision(v, n);
      Times(q, Pow2(n)) <= v < Times(q + 1, Pow2(n)) && FloorShift(v, n) == Wrap64(q)
  {
    var q := FloorShiftByDivision(v, n);
    Euclid(Magnitude(v), Pow2(n));
    Corrected(v, Pow2(n), Div(Magnitude(v), Pow2(n)), Mod(Magnitude(v), Pow2(n)), q);
    QuotientIsUnique(v, Pow2(n), q);
    ShiftOfDivision(v, n);
  }

  lemma ShiftOfDivision(v: int64, n: nat)
    requires n < 64
    ensures FloorShift(v, n) == Wrap64(Div(v, Pow2(n)))
  {
    assert n % 64 == n;
    var p := Pow2(n % 64);
    assert p == Pow2(n);
    assert Div(v, p) == v / p;
  }

  // --- bits ---------------------------------------------------------------------------------------------

  lemma PowersOfTwo()
    ensures Pow2(64) == TWO64
  {
    assert Pow2(8) == 256;
    assert Pow2(16) == 0x1_0000;
    assert Pow2(32) == TWO32 by { assert Pow2(24) == 0x100_0000; }
    assert Pow2(48) == 0x1_0000_0000_0000 by { assert Pow2(40) == 0x100_0000_0000; }
    assert Pow2(56) == 0x100_0000_0000_0000;
  }

  lemma HalveDeep(w: nat, p: nat)
    requires p > 0
    ensures w / (2 * p) == w / 2 / p
  {
    var q := w / 2 / p;
    Euclid(w / 2, p);
    assert Times(q, 2 * p) == 2 * Times(q, p);
    QuotientIsUnique(w, 2 * p, q);
  }

  lemma {:induction false} SumBound(bits: seq<bool>)
    ensures BitSum(bits) < Pow2(|bits|)
    decreases |bits|
  {
    if bits != [] {
      SumBound(bits[1..]);
    }
  }

  lemma {:induction false} BitOfSum(bits: seq<bool>, i: nat)
    requires i < |bits|
    ensures (BitSum(bits) / Pow2(i) % 2 == 1) == bits[i]
    decreases |bits|
  {
    var rest := BitSum(bits[1..]);
    if i > 0 {
      BitOfSum(bits[1..], i - 1);
      HalveDeep(BitSum(bits), Pow2(i - 1));
      assert BitSum(bits) / 2 == rest;
    }
  }

  function Digits(w: nat, n: nat): (bits: seq<bool>)
    ensures |bits| == n
  {
    seq(n, i requires 0 <= i < n => w / Pow2(i) % 2 == 1)
  }

  lemma DigitsAbove(w: nat, n: nat)
    requires n > 0
    ensures Digits(w, n)[1..] == Digits(w / 2, n - 1)
  {
    var (high, rest) := (Digits(w, n)[1..], Digits(w / 2, n - 1));
    forall i | 0 <= i < n - 1
      ensures high[i] == rest[i]
    {
      HalveDeep(w, Pow2(i));
    }
  }

  lemma {:induction false} SumOfDigits(w: nat, n: nat)
    requires w < Pow2(n)
    ensures BitSum(Digits(w, n)) == w
    decreases n
  {
    if n > 0 {
      DigitsAbove(w, n);
      assert Digits(w, n)[0] == (w % 2 == 1) by { assert Pow2(0) == 1; }
      assert w / 2 < Pow2(n - 1);
      SumOfDigits(w / 2, n - 1);
    }
  }

  /** Bit i of a word built from bits is the i-th of them. */
  lemma WordHasItsBits(m: Mask)
    ensures BitsOf(WordOf(m)) == m
  {
    PowersOfTwo();
    SumBound(m);
    UnsignedOfWrap(BitSum(m));
    forall i | 0 <= i < 64
      ensures BitsOf(WordOf(m))[i] == m[i]
    {
      BitOfSum(m, i);
    }
  }

  /** A mask read into a register and written back is the same mask, and so is any word: a context
      switch that goes through `mfvmask` and `mtvmask` loses nothing. */
  lemma MaskRoundTrip(x: int64)
    ensures WordOf(BitsOf(x)) == x
  {
    PowersOfTwo();
    SumOfDigits(Unsigned(x), 64);
    assert BitsOf(x) == Digits(Unsigned(x), 64);
    assert Wrap64(Unsigned(x)) == x;
  }

  /** The logical instructions act on each bit alone. */
  lemma LogicIsBitwise(x: int64, y: int64, i: nat)
    requires i < 64
    ensures BitsOf(And(x, y))[i] == (BitsOf(x)[i] && BitsOf(y)[i])
    ensures BitsOf(Or(x, y))[i] == (BitsOf(x)[i] || BitsOf(y)[i])
    ensures BitsOf(Xor(x, y))[i] == (BitsOf(x)[i] != BitsOf(y)[i])
  {
    WordHasItsBits(seq(64, k requires 0 <= k < 64 => BitsOf(x)[k] && BitsOf(y)[k]));
    WordHasItsBits(seq(64, k requires 0 <= k < 64 => BitsOf(x)[k] || BitsOf(y)[k]));
    WordHasItsBits(seq(64, k requires 0 <= k < 64 => BitsOf(x)[k] != BitsOf(y)[k]));
  }

  // --- the logical shift ----------------------------------------------------------------------------------

  lemma {:induction false} DivDeep(w: nat, m: nat, n: nat)
    ensures w / Pow2(m) / Pow2(n) == w / Pow2(m + n)
    decreases m
  {
    if m > 0 {
      HalveDeep(w, Pow2(m - 1));
      DivDeep(w / 2, m - 1, n);
      HalveDeep(w, Pow2(m - 1 + n));
    }
  }

  lemma {:induction false} PowersGrow(m: nat, n: nat)
    requires m <= n
    ensures Pow2(m) <= Pow2(n)
    decreases n
  {
    if m < n {
      PowersGrow(m, n - 1);
    }
  }

  lemma NothingLeft(w: nat, n: nat)
    requires w < TWO64 && n >= 64
    ensures w / Pow2(n) == 0
  {
    PowersOfTwo();
    PowersGrow(64, n);
    QuotientIsUnique(w, Pow2(n), 0);
  }

  /** `srli` by n moves every bit down by n places; zeros come in at the top. */
  lemma LogicalShiftMovesBits(x: int64, n: nat, i: nat)
    requires n < 64 && i < 64
    ensures BitsOf(Shr(x, n))[i] == (i + n < 64 && BitsOf(x)[i + n])
  {
    var w := Unsigned(x);
    assert n % 64 == n;
    QuotientIsSmall(w, Pow2(n));
    assert Div(w, Pow2(n)) == w / Pow2(n);
    UnsignedOfWrap(w / Pow2(n));
    DivDeep(w, n, i);
    if i + n >= 64 {
      NothingLeft(w, n + i);
    }
  }
}
