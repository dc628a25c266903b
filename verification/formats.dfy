/** The text forms of objects, archives and images, and their readers. A float is printed by a function
    that its reader inverts; the rest is spelled out here. */
module Formats {
  import opened Words
  import opened Cpu
  import opened Objects
  import opened Opcodes
  import opened Locator
  import opened LineText

  /** Printing and reading of a double, as its bits. */
  datatype Floats = Floats(write: uint64 -> string, read: string -> Option<uint64>)

  ghost predicate Invertible(fl: Floats) {
    forall x: uint64 :: IsWord(fl.write(x)) && fl.read(fl.write(x)) == Some(x)
  }

  /** What a reader made of the lines it took, and the lines it left. */
  type Reading<T> = Option<(T, seq<string>)>

  /** What was read, put where it belongs. */
  function With<T, U>(r: Reading<T>, put: T -> U): Reading<U> {
    if r.None? then None else Some((put(r.value.0), r.value.1))
  }

  // --- rows -----------------------------------------------------------------------------------------

  /** `n` rows, one meaningful line each. */
  function ReadRows<T>(parse: string -> Option<T>, ms: seq<string>, n: nat, done: seq<T>): (r: Reading<seq<T>>)
    ensures r.Some? ==> |r.value.1| <= |ms|
    decreases n
  {
    if n == 0 then Some((done, ms))
    else if ms == [] then None
    else
      match parse(ms[0])
      case None => None
      case Some(x) => ReadRows(parse, ms[1..], n - 1, done + [x])
  }

  /** The rows of a list from its i-th entry on, each written with its index. */
  function RowsFrom<T>(row: (nat, T) -> string, xs: seq<T>, i: nat): (rows: seq<string>)
    requires i <= |xs|
    ensures |rows| == |xs| - i
    decreases |xs| - i
  {
    if i == |xs| then [] else [row(i, xs[i])] + RowsFrom(row, xs, i + 1)
  }

  predicate Spoken<T(==)>(row: (nat, T) -> string, parse: string -> Option<T>, xs: seq<T>) {
    forall i | 0 <= i < |xs| :: parse(row(i, xs[i])) == Some(xs[i]) && !Silent(row(i, xs[i]))
  }

  /** Rows that each parse to their entry are read back whole, whatever follows them. */
  lemma {:induction false} RowsReadBack<T>(row: (nat, T) -> string, parse: string -> Option<T>, xs: seq<T>, i: nat,
      rest: seq<string>)
    requires i <= |xs| && Spoken(row, parse, xs)
    ensures ReadRows(parse, RowsFrom(row, xs, i) + rest, |xs| - i, xs[..i]) == Some((xs, rest))
    ensures forall l | l in RowsFrom(row, xs, i) :: !Silent(l)
    decreases |xs| - i
  {
    if i == |xs| {
      assert RowsFrom(row, xs, i) + rest == rest && xs[..i] == xs;
    } else {
      var more := RowsFrom(row, xs, i + 1) + rest;
      RowsReadBack(row, parse, xs, i + 1, rest);
      assert RowsFrom(row, xs, i) + rest == [row(i, xs[i])] + more;
      assert xs[..i] + [xs[i]] == xs[..i + 1];
      OneRow(parse, row(i, xs[i]), more, |xs| - i, xs[..i], xs[i]);
    }
  }

  lemma OneRow<T>(parse: string -> Option<T>, line: string, more: seq<string>, n: nat, done: seq<T>, x: T)
    requires n > 0 && parse(line) == Some(x)
    ensures ReadRows(parse, [line] + more, n, done) == ReadRows(parse, more, n - 1, done + [x])
  {
    assert ([line] + more)[1..] == more;
  }

  // --- instructions ------------------------------------------------------------------------------------

  function InstrWords(fl: Floats, i: nat, op: nat, ins: Instr): (w: seq<string>)
    ensures |w| == 8
  {
    [Decimal(i), Decimal(op), Decimal(ins.a), Decimal(ins.b), Decimal(ins.c), Decimal(ins.imm),
     fl.write(ins.fimm), Decimal(ins.target)]
  }

  function InstrRow(fl: Floats, i: nat, ins: Instr): string { Join(InstrWords(fl, i, OpNumber(ins.op), ins)) }

  function InstrOf(fl: Floats, w: seq<string>): Option<Instr>
    requires |w| >= 8
  {
    var (idx, op, a, b) := (DecimalValue(w[0]), DecimalValue(w[1]), DecimalValue(w[2]), DecimalValue(w[3]));
    var (c, imm, fimm, target) := (DecimalValue(w[4]), DecimalValue(w[5]), fl.read(w[6]), DecimalValue(w[7]));
    if idx.None? || op.None? || a.None? || b.None? || c.None? || imm.None? || fimm.None? || target.None?
       || !(0 <= op.value < OPCODES)
    then None
    else Some(Instr(Numbered(op.value), a.value, b.value, c.value, imm.value, fimm.value, Wrap32(target.value)))
  }

  function ParseInstr(fl: Floats, line: string): Option<Instr> {
    var w := WordsOf(line);
    if |w| < 8 then None else InstrOf(fl, w)
  }

  lemma InstrWordsReadBack(fl: Floats, i: nat, op: nat, ins: Instr)
    requires fl.read(fl.write(ins.fimm)) == Some(ins.fimm) && op < OPCODES && Numbered(op) == ins.op
    ensures InstrOf(fl, InstrWords(fl, i, op, ins)) == Some(ins)
  {
    DecimalReadBack(i);
    DecimalReadBack(op);
    DecimalReadBack(ins.a);
    DecimalReadBack(ins.b);
    DecimalReadBack(ins.c);
    DecimalReadBack(ins.imm);
    DecimalReadBack(ins.target);
  }

  lemma InstrReadBack(fl: Floats, i: nat, ins: Instr)
    requires Invertible(fl)
    ensures ParseInstr(fl, InstrRow(fl, i, ins)) == Some(ins) && !Silent(InstrRow(fl, i, ins))
  {
    var op := OpNumber(ins.op);
    OpNumberReadBack(ins.op);
    InstrWordsReadBack(fl, i, op, ins);
    InstrWordsAreWords(fl, i, op, ins);
    InstrLine(fl, InstrWords(fl, i, op, ins));
  }

  lemma InstrWordsAreWords(fl: Floats, i: nat, op: nat, ins: Instr)
    requires IsWord(fl.write(ins.fimm))
    ensures forall w | w in InstrWords(fl, i, op, ins) :: IsWord(w)
    ensures !Silent(InstrWords(fl, i, op, ins)[0])
  {
    DecimalReadBack(i);
  }

  lemma InstrLine(fl: Floats, ws: seq<string>)
    requires |ws| == 8 && (forall w | w in ws :: IsWord(w)) && !Silent(ws[0])
    ensures ParseInstr(fl, Join(ws)) == InstrOf(fl, ws) && !Silent(Join(ws))
  {
    SplitJoin(ws);
    JoinStarts(ws);
  }

  // --- data ---------------------------------------------------------------------------------------------

  const PER_LINE := 16

  function Padded(s: string): string { if |s| < 4 then Zeros(4 - |s|) + s else s }

  function Zeros(n: nat): (s: string)
    ensures |s| == n && forall i | 0 <= i < n :: s[i] == '0'
  {
    seq(n, i => '0')
  }

  function Label(off: nat): (s: string)
    ensures IsWord(s) && ':' in s && s[0] != ';'
  {
    var s := Padded(Numeral(off, 16)) + ":";
    assert s[|s| - 1] == ':';
    s
  }

  function HexWords(bs: seq<byte>): (ws: seq<string>)
    ensures |ws| == |bs| && forall w | w in ws :: IsWord(w) && ':' !in w
  {
    if bs == [] then [] else [HexByte(bs[0])] + HexWords(bs[1..])
  }

  function DataRow(off: nat, bs: seq<byte>): string { Join([Label(off)] + HexWords(bs)) }

  function ChunkEnd(data: seq<byte>, off: nat): (end: nat)
    requires off < |data|
    ensures off < end <= |data|
  {
    if off + PER_LINE < |data| then off + PER_LINE else |data|
  }

  /** The bytes from `off` on, sixteen a line. */
  function DataRows(row: (nat, seq<byte>) -> string, data: seq<byte>, off: nat): seq<string>
    requires off <= |data|
    decreases |data| - off
  {
    if off == |data| then []
    else [row(off, data[off..ChunkEnd(data, off)])] + DataRows(row, data, ChunkEnd(data, off))
  }

  /** The bytes on a line: every word without a colon. */
  function BytesOf(ws: seq<string>): seq<byte> {
    if ws == [] then [] else (if ':' in ws[0] then [] else [ByteValue(ws[0])]) + BytesOf(ws[1..])
  }

  function LineBytes(line: string): seq<byte> { BytesOf(WordsOf(line)) }

  /** Lines until `n` bytes have been had; what a line has beyond them is dropped. */
  function ReadBytes(bytes: string -> seq<byte>, ms: seq<string>, n: nat, got: seq<byte>): (r: Reading<seq<byte>>)
    requires |got| <= n
    ensures r.Some? ==> |r.value.1| <= |ms| && |r.value.0| == n
    decreases |ms|
  {
    if |got| == n then Some((got, ms))
    else if ms == [] then None
    else
      var more := got + bytes(ms[0]);
      ReadBytes(bytes, ms[1..], n, if |more| <= n then more else more[..n])
  }

  lemma {:induction false} HexReadBack(bs: seq<byte>)
    ensures BytesOf(HexWords(bs)) == bs
  {
    if bs != [] {
      ByteReadBack(bs[0]);
      assert HexWords(bs)[1..] == HexWords(bs[1..]);
      HexReadBack(bs[1..]);
    }
  }

  lemma LineReadBack(off: nat, bs: seq<byte>)
    ensures LineBytes(DataRow(off, bs)) == bs && !Silent(DataRow(off, bs))
  {
    var ws := [Label(off)] + HexWords(bs);
    forall w | w in ws
      ensures IsWord(w)
    {
      assert w == Label(off) || w in HexWords(bs);
    }
    SplitJoin(ws);
    JoinStarts(ws);
    assert ws[1..] == HexWords(bs);
    HexReadBack(bs);
  }

  ghost predicate RowsRead(row: (nat, seq<byte>) -> string, bytes: string -> seq<byte>) {
    forall off: nat, bs: seq<byte> :: bytes(row(off, bs)) == bs
  }

  /** Data of any length comes back byte for byte, and the reader stops right after it. */
  lemma {:induction false} DataReadBack(row: (nat, seq<byte>) -> string, bytes: string -> seq<byte>,
      data: seq<byte>, off: nat, rest: seq<string>)
    requires off <= |data| && RowsRead(row, bytes)
    ensures ReadBytes(bytes, DataRows(row, data, off) + rest, |data|, data[..off]) == Some((data, rest))
    decreases |data| - off
  {
    if off == |data| {
      assert data[..off] == data && DataRows(row, data, off) + rest == rest;
    } else {
      var end := ChunkEnd(data, off);
      var (line, more) := (row(off, data[off..end]), DataRows(row, data, end) + rest);
      DataReadBack(row, bytes, data, end, rest);
      assert DataRows(row, data, off) == [line] + DataRows(row, data, end);
      assert [line] + DataRows(row, data, end) + rest == [line] + more;
      assert data[..off] + data[off..end] == data[..end];
      OneDataLine(bytes, line, more, data[..off], data[off..end], |data|);
    }
  }

  lemma OneDataLine(
      bytes: string -> seq<byte>, line: string, more: seq<string>, got: seq<byte>, chunk: seq<byte>, n: nat)
    requires bytes(line) == chunk && |got| < n && |got + chunk| <= n
    ensures ReadBytes(bytes, [line] + more, n, got) == ReadBytes(bytes, more, n, got + chunk)
  {
    assert ([line] + more)[1..] == more;
  }

  // --- symbols and relocations ------------------------------------------------------------------------

  /** A name a row can start with. */
  predicate NameOk(name: string) { IsWord(name) && !Silent(name) }

  function SectionName(sec: Section): string {
    match sec
    case Text => "text"
    case Data => "data"
    case Shared => "shared"
    case NoSection => "----"
  }

  function SectionOf(w: string): Section {
    if w == "text" then Text else if w == "data" then Data else if w == "shared" then Shared else NoSection
  }

  function BindingName(b: Binding): string {
    match b
    case Global => "global"
    case Extern => "extern"
    case Local => "local"
  }

  function BindingOf(w: string): Binding { if w == "global" then Global else if w == "extern" then Extern else Local }

  function SymbolWords(s: Symbol): seq<string> {
    if s.section == NoSection then [s.name, "----", "-", "-", BindingName(s.binding), "-"]
    else [s.name, SectionName(s.section), Decimal(s.offset), Decimal(s.size), BindingName(s.binding), Decimal(s.isCode)]
  }

  // strtoll: 0 where there is no numeral.
  function ValueOrZero(w: string): int { if DecimalValue(w).Some? then DecimalValue(w).value else 0 }

  /** A field that starts with `-` means `absent`. */
  function Field(w: string, absent: int): int { if w != "" && w[0] == '-' then absent else ValueOrZero(w) }

  function SymbolOf(w: seq<string>): Symbol
    requires |w| >= 6
  {
    Symbol(w[0], SectionOf(w[1]), Field(w[2], 0), Field(w[3], 0), BindingOf(w[4]), Field(w[5], -1))
  }

  function ParseSymbol(line: string): Option<Symbol> {
    var w := WordsOf(line);
    if |w| < 6 then None else Some(SymbolOf(w))
  }

  /** A symbol the format can hold: an undefined one says nothing but its name and binding, and the
      fields of a defined one are not negative, except an unknown kind. */
  predicate Canonical(s: Symbol) {
    && NameOk(s.name)
    && if s.section == NoSection then s.offset == 0 && s.size == 0 && s.isCode == -1
       else s.offset >= 0 && s.size >= 0 && s.isCode >= -1
  }

  lemma NamesReadBack(sec: Section, b: Binding)
    ensures IsWord(SectionName(sec)) && SectionOf(SectionName(sec)) == sec
    ensures IsWord(BindingName(b)) && BindingOf(BindingName(b)) == b
  {
  }

  lemma FieldReadBack(v: int, absent: int)
    requires v >= 0 || v == absent
    ensures Field(Decimal(v), absent) == v
  {
    DecimalReadBack(v);
  }

  lemma SymbolReadBack(s: Symbol)
    requires Canonical(s)
    ensures ParseSymbol(Join(SymbolWords(s))) == Some(s) && !Silent(Join(SymbolWords(s)))
  {
    NamesReadBack(s.section, s.binding);
    SplitJoin(SymbolWords(s));
    JoinStarts(SymbolWords(s));
    if s.section != NoSection {
      FieldReadBack(s.offset, 0);
      FieldReadBack(s.size, 0);
      FieldReadBack(s.isCode, -1);
    }
  }

  function KindName(k: RelocKind): string {
    match k
    case RCode => "R_CODE"
    case RAddr => "R_ADDR"
    case RData => "R_DATA"
  }

  function KindOf(w: string): RelocKind { if w == "R_CODE" then RCode else if w == "R_ADDR" then RAddr else RData }

  function RelocWords(r: Reloc): seq<string> { [KindName(r.kind), Decimal(r.site), r.sym, Decimal(r.addend)] }

  function ParseReloc(line: string): Option<Reloc> {
    var w := WordsOf(line);
    if |w| < 4 || DecimalValue(w[1]).None? || DecimalValue(w[3]).None? then None
    else Some(Reloc(KindOf(w[0]), DecimalValue(w[1]).value, w[2], DecimalValue(w[3]).value))
  }

  lemma KindReadBack(k: RelocKind)
    ensures IsWord(KindName(k)) && KindName(k)[0] == 'R' && KindOf(KindName(k)) == k
  {
  }

  lemma RelocReadBack(r: Reloc)
    requires NameOk(r.sym)
    ensures ParseReloc(Join(RelocWords(r))) == Some(r) && !Silent(Join(RelocWords(r)))
  {
    KindReadBack(r.kind);
    SplitJoin(RelocWords(r));
    JoinStarts(RelocWords(r));
    DecimalReadBack(r.site);
    DecimalReadBack(r.addend);
  }
}
