/** Files as the toolchain's documents and its own text have them, read word by word. */
module FileExamples {
  import opened Words
  import opened Cpu
  import opened Objects
  import opened Locator
  import opened LineText
  import opened Formats
  import opened Opcodes
  import ObjectFile
  import ImageFile

  lemma SmallNumerals()
    ensures DecimalValue("0") == Some(0) && DecimalValue("1") == Some(1) && DecimalValue("3") == Some(3)
    ensures DecimalValue("8") == Some(8) && DecimalValue("12") == Some(12) && DecimalValue("32") == Some(32)
    ensures DecimalValue("40") == Some(40) && DecimalValue("-8") == Some(-8)
  {
    assert NumeralValue("1", 10) == Some(1) && NumeralValue("3", 10) == Some(3) && NumeralValue("4", 10) == Some(4);
    assert "12"[..1] == "1" && "32"[..1] == "3" && "40"[..1] == "4" && "-8"[1..] == "8";
  }

  /** `li r1, 40`, and `j` to instruction 3. */
  lemma InstructionRows(fl: Floats, li: string, jump: string)
    requires WordsOf(li) == ["0", "0", "1", "0", "0", "40", "0", "0"] && fl.read("0") == Some(0)
    requires WordsOf(jump) == ["1", "32", "0", "0", "0", "0", "0", "3"]
    ensures ParseInstr(fl, li) == Some(Instr(LI, 1, 0, 0, 40, 0, 0))
    ensures ParseInstr(fl, jump) == Some(Instr(J, 0, 0, 0, 0, 0, 3))
  {
    SmallNumerals();
  }

  /** `addi r2, r3, -8` and `add r2, r3, r12`. */
  lemma OperandColumns(fl: Floats, addi: string, add: string)
    requires WordsOf(addi) == ["0", "5", "1", "3", "0", "-8", "0", "0"] && fl.read("0") == Some(0)
    requires WordsOf(add) == ["0", "2", "1", "3", "12", "0", "0", "0"]
    requires DecimalValue("5") == Some(5) && DecimalValue("2") == Some(2)
    ensures ParseInstr(fl, addi) == Some(Instr(ADDI, 1, 3, 0, -8, 0, 0))
    ensures ParseInstr(fl, add) == Some(Instr(ADD, 1, 3, 12, 0, 0, 0))
  {
    SmallNumerals();
  }

  /** The symbol rows of the documented object. */
  lemma SymbolRows(sum: string, arr: string, cont: string, printf: string)
    requires WordsOf(sum) == ["sum", "text", "0", "12", "global", "1"]
    requires WordsOf(arr) == ["arr", "data", "0", "40", "local", "0"]
    requires WordsOf(cont) == ["cont", "shared", "0", "8", "global", "0"]
    requires WordsOf(printf) == ["printf", "----", "-", "-", "extern", "-"]
    ensures ParseSymbol(sum) == Some(Symbol("sum", Text, 0, 12, Global, 1))
    ensures ParseSymbol(arr) == Some(Symbol("arr", Data, 0, 40, Local, 0))
    ensures ParseSymbol(cont) == Some(Symbol("cont", Shared, 0, 8, Global, 0))
    ensures ParseSymbol(printf) == Some(Symbol("printf", NoSection, 0, 0, Extern, -1))
  {
    SmallNumerals();
  }

  /** Its relocation rows, and one of the third kind. */
  lemma RelocationRows(address: string, branch: string, access: string)
    requires WordsOf(address) == ["R_ADDR", "0", "arr", "0"]
    requires WordsOf(branch) == ["R_CODE", "12", "loop", "3"]
    requires WordsOf(access) == ["R_DATA", "1", "arr", "-8"]
    ensures ParseReloc(address) == Some(Reloc(RAddr, 0, "arr", 0))
    ensures ParseReloc(branch) == Some(Reloc(RCode, 12, "loop", 3))
    ensures ParseReloc(access) == Some(Reloc(RData, 1, "arr", -8))
  {
    SmallNumerals();
  }

  /** The bytes of a data row, whose offset is a word with a colon. */
  lemma DataRowBytes(line: string)
    requires WordsOf(line) == ["0010:", "00", "20", "41", "a0", "F0", "cd"]
    ensures LineBytes(line) == [0x00, 0x20, 0x41, 0xa0, 0xf0, 0xcd]
  {
    HexBytes();
    var ws := ["0010:", "00", "20", "41", "a0", "F0", "cd"];
    assert ws[0][4] == ':';
    assert ws[1..] == ["00", "20", "41", "a0", "F0", "cd"];
    assert BytesOf(ws) == BytesOf(ws[1..]);
    TwoBytes("00", "20", ["41", "a0", "F0", "cd"]);
    assert ws[1..] == ["00", "20"] + ["41", "a0", "F0", "cd"];
    TwoBytes("41", "a0", ["F0", "cd"]);
    assert ["41", "a0", "F0", "cd"] == ["41", "a0"] + ["F0", "cd"];
    TwoBytes("F0", "cd", []);
    assert ["F0", "cd"] == ["F0", "cd"] + [];
  }

  lemma TwoDigits(a: char, b: char)
    requires DigitValue(a).Some? && DigitValue(b).Some?
    ensures ByteValue([a, b]) == 16 * DigitValue(a).value + DigitValue(b).value
  {
    var w := [a, b];
    assert w[..1] == [a] && [a][..0] == [];
    assert NumeralValue([a], 16) == DigitValue(a);
  }

  lemma HexBytes()
    ensures ByteValue("00") == 0 && ByteValue("20") == 0x20 && ByteValue("41") == 0x41
    ensures ByteValue("a0") == 0xa0 && ByteValue("F0") == 0xf0 && ByteValue("cd") == 0xcd
  {
    TwoDigits('0', '0');
    TwoDigits('2', '0');
    TwoDigits('4', '1');
    TwoDigits('a', '0');
    TwoDigits('F', '0');
    TwoDigits('c', 'd');
  }

  lemma TwoBytes(a: string, b: string, more: seq<string>)
    requires ':' !in a && ':' !in b
    ensures BytesOf([a, b] + more) == [ByteValue(a), ByteValue(b)] + BytesOf(more)
  {
    var ws := [a, b] + more;
    assert ws[1..] == [b] + more && ws[1..][1..] == more;
  }

  /** What the headers begin. */
  lemma Headers(text: string, data: string, shared: string)
    requires WordsOf(text) == [".text", "3"] && WordsOf(data) == [".data", "40"] && WordsOf(shared) == [".shared", "8"]
    ensures ObjectFile.Header(text) == (ObjectFile.TextTag, 3) && ObjectFile.Header(data) == (ObjectFile.DataTag, 40)
    ensures ObjectFile.Header(shared) == (ObjectFile.SharedTag, 8)
  {
    SmallNumerals();
  }

  lemma MoreHeaders(symtab: string, reloc: string, end: string)
    requires WordsOf(symtab) == [".symtab", "1"] && WordsOf(reloc) == [".reloc", "12"] && WordsOf(end) == [".end"]
    ensures ObjectFile.Header(symtab) == (ObjectFile.SymbolTag, 1)
    ensures ObjectFile.Header(reloc) == (ObjectFile.RelocTag, 12) && ObjectFile.Header(end).0 == ObjectFile.EndTag
  {
    SmallNumerals();
  }

  /** What each section of an object file fills. */
  lemma Sections(fl: Floats, o: Object, n: nat, ms: seq<string>)
    ensures var r := ObjectFile.ReadSection(fl, o, ObjectFile.TextTag, n, ms);
      r.Some? ==> r.value.0 == o.(text := r.value.0.text) && |r.value.0.text| == n
    ensures var r := ObjectFile.ReadSection(fl, o, ObjectFile.DataTag, n, ms);
      r.Some? ==> r.value.0 == o.(data := r.value.0.data) && |r.value.0.data| == n
    ensures ObjectFile.ReadSection(fl, o, ObjectFile.SharedTag, n, ms) == Some((o.(shared := n), ms))
    ensures var r := ObjectFile.ReadSection(fl, o, ObjectFile.SymbolTag, n, ms);
      r.Some? ==> r.value.0 == o.(syms := r.value.0.syms) && Extends(r.value.0.syms, o.syms, n)
    ensures var r := ObjectFile.ReadSection(fl, o, ObjectFile.RelocTag, n, ms);
      r.Some? ==> r.value.0 == o.(relocs := r.value.0.relocs) && Extends(r.value.0.relocs, o.relocs, n)
  {
    RowsExactly(ObjectFile.InstrParser(fl), ms, n, []);
    RowsExactly(ObjectFile.SymbolParser(), ms, n, o.syms);
    RowsExactly(ObjectFile.RelocParser(), ms, n, o.relocs);
  }

  /** n entries more. */
  predicate Extends<T(==)>(xs: seq<T>, was: seq<T>, n: nat) { was <= xs && |xs| == |was| + n }

  /** A field that begins with a dash says nothing, whatever follows it. */
  lemma FieldsAbsent(w: string, absent: int)
    ensures Field("-" + w, absent) == absent
    ensures w != "" && w[0] != '-' ==> Field(w, absent) == if DecimalValue(w).Some? then DecimalValue(w).value else 0
  {
  }

  /** Bytes are written in two small digits, and numbers without leading zeros. */
  lemma DigitsWritten()
    ensures HexByte(0xab) == "ab" && HexByte(0x05) == "05" && HexByte(0xf0) == "f0"
    ensures Decimal(-8) == "-8" && Decimal(40) == "40" && Decimal(0) == "0"
  {
    assert Numeral(4, 10) == "4" && Numeral(8, 10) == "8" && Numeral(0, 10) == "0";
    assert Numeral(40, 10) == Numeral(4, 10) + "0";
  }

  /** An operation's number in a file is its place in the enumeration. */
  lemma NumbersArePlaces()
    ensures Numbered(0) == LI && Numbered(1) == MOV && Numbered(2) == ADD && Numbered(3) == SUB
    ensures Numbered(4) == MUL && Numbered(5) == ADDI && Numbered(6) == SLLI && Numbered(7) == SRLI
    ensures Numbered(8) == AND && Numbered(9) == OR && Numbered(10) == XOR && Numbered(11) == DIV
    ensures Numbered(12) == REM && Numbered(13) == FLI && Numbered(14) == FLW && Numbered(15) == FSW
    ensures Numbered(16) == FADD && Numbered(17) == FMUL && Numbered(18) == FMACC && Numbered(19) == FMOV
    ensures Numbered(20) == FMIN && Numbered(21) == FMAX && Numbered(22) == FSUB && Numbered(23) == FDIV
    ensures Numbered(24) == FNEG && Numbered(25) == FSQRT && Numbered(26) == LW && Numbered(27) == SW
    ensures Numbered(28) == SETVL && Numbered(29) == BEQ && Numbered(30) == BNE && Numbered(31) == BLT
    ensures Numbered(32) == J && Numbered(33) == JAL && Numbered(34) == JALR && Numbered(35) == STI
    ensures Numbered(36) == CLI && Numbered(37) == RETI && Numbered(38) == SETHANDLER && Numbered(39) == SETTIMER
    ensures Numbered(40) == MFPSW && Numbered(41) == MTPSW && Numbered(42) == MFEPC && Numbered(43) == MTEPC
  {
  }

  lemma LaterNumbersArePlaces()
    ensures Numbered(44) == HALT && Numbered(45) == VLOAD && Numbered(46) == VLOADS && Numbered(47) == VSTORE
    ensures Numbered(48) == VLOADX && Numbered(49) == VSTOREX && Numbered(50) == VADD && Numbered(51) == VSUB
    ensures Numbered(52) == VMUL && Numbered(53) == VMACC && Numbered(54) == VSCALE && Numbered(55) == VREDSUM
    ensures Numbered(56) == VREDMAX && Numbered(57) == VREDMIN && Numbered(58) == VSPLAT && Numbered(59) == VADDS
    ensures Numbered(60) == VMIN && Numbered(61) == VMAX && Numbered(62) == VMSLT && Numbered(63) == VMSGT
  {
  }

  lemma LastNumbersArePlaces()
    ensures Numbered(64) == VMSEQ && Numbered(65) == VMERGE && Numbered(66) == VADDM && Numbered(67) == VSUBM
    ensures Numbered(68) == VMULM && Numbered(69) == VSTOREM && Numbered(70) == DUMPS && Numbered(71) == DUMPF
    ensures Numbered(72) == DUMPV && Numbered(73) == DUMPM && Numbered(74) == DUMPMASK && Numbered(75) == MFEPSW
    ensures Numbered(76) == MTEPSW && Numbered(77) == MFVL && Numbered(78) == MTVL && Numbered(79) == MFVMASK
    ensures Numbered(80) == MTVMASK && Numbered(81) == MARK && Numbered(82) == MFCAUSE && Numbered(83) == VCVT
    ensures Numbered(84) == SRAI && Numbered(85) == LD && Numbered(86) == SD
  {
  }

  // --- how a file is written ------------------------------------------------------------------------------------

  /** The columns of an instruction. */
  lemma InstructionIsWritten(fl: Floats, i: nat, ins: Instr)
    ensures InstrRow(fl, i, ins) == Join([Decimal(i), Decimal(OpNumber(ins.op)), Decimal(ins.a), Decimal(ins.b),
      Decimal(ins.c), Decimal(ins.imm), fl.write(ins.fimm), Decimal(ins.target)])
  {
  }

  lemma {:induction false} RowIsWritten<T>(row: (nat, T) -> string, xs: seq<T>, i: nat, k: nat)
    requires i <= k < |xs|
    ensures RowsFrom(row, xs, i)[k - i] == row(k, xs[k])
    decreases k - i
  {
    if i < k {
      RowIsWritten(row, xs, i + 1, k);
    }
  }

  /** Sixteen bytes a line, the last line with what is left, each line labelled with where it begins. */
  lemma {:induction false} DataAreWritten(row: (nat, seq<byte>) -> string, data: seq<byte>, k: nat, i: nat)
    requires 16 * i <= 16 * k < |data|
    ensures var rows := DataRows(row, data, 16 * i);
      && |rows| == (|data| + 15) / 16 - i
      && rows[k - i] == row(16 * k, data[16 * k..if 16 * k + 16 < |data| then 16 * k + 16 else |data|])
    decreases |data| - 16 * i
  {
    if 16 * i + 16 < |data| {
      assert ChunkEnd(data, 16 * i) == 16 * (i + 1);
      DataAreWritten(row, data, if i < k then k else k + 1, i + 1);
    } else {
      assert DataRows(row, data, |data|) == [];
    }
  }

  /** The sections of an object file, each behind its header and its comment and before what comes after it,
      the shared one only if there is something in it. */
  lemma SectionsAreWritten(fl: Floats, o: Object, tail: seq<string>)
    ensures ObjectFile.TextLines(fl, o, tail) ==
      [Join([".text", Decimal(|o.text|)]), "; idx op a b c imm fimm target"] +
      (ObjectFile.TextRows(fl, o.text) + tail)
    ensures ObjectFile.DataLines(o, tail) ==
      ["", Join([".data", Decimal(|o.data|)])] + (ObjectFile.AllDataRows(o.data) + tail)
    ensures ObjectFile.SharedLines(o, tail) ==
      if o.shared > 0 then ["", Join([".shared", Decimal(o.shared)])] + tail else tail
  {
    assert [] + tail == tail;
  }

  lemma TablesAreWritten(o: Object, tail: seq<string>)
    ensures ObjectFile.SymbolLines(o, tail) ==
      ["", Join([".symtab", Decimal(|o.syms|)]), "; name section offset size binding is_code"] +
      (ObjectFile.SymbolRows(o.syms) + tail)
    ensures ObjectFile.RelocLines(o, tail) ==
      ["", Join([".reloc", Decimal(|o.relocs|)]), "; type site sym addend"] + (ObjectFile.RelocRows(o.relocs) + tail)
  {
  }

  /** In this order, between the magic and the end. */
  lemma ObjectIsWritten(fl: Floats, o: Object, after: seq<string>)
    ensures var relocs := ObjectFile.RelocLines(o, ["", ".end"] + after);
      var shared := ObjectFile.SharedLines(o, ObjectFile.SymbolLines(o, relocs));
      ObjectFile.ObjectLines(fl, o, after) ==
        ["VO1", ""] + ObjectFile.TextLines(fl, o, ObjectFile.DataLines(o, shared))
  {
  }

  /** The same of an executable, whose shared section has the base before the size. */
  lemma PartsAreWritten(fl: Floats, img: Image, tail: seq<string>)
    ensures ImageFile.TextLines(fl, img, tail) ==
      [Join([".text", Decimal(|img.text|)]), "; idx op a b c imm fimm target"] +
      (ObjectFile.TextRows(fl, img.text) + tail)
    ensures ImageFile.DataLines(img, tail) ==
      ["", Join([".data", Decimal(|img.data|)])] + (ObjectFile.AllDataRows(img.data) + tail)
  {
  }

  lemma MapIsWritten(img: Image, tail: seq<string>)
    ensures ImageFile.SharedLines(img, tail) ==
      if img.shared > 0 then ["", Join([".shared", Decimal(img.sharedBase), Decimal(img.shared)])] + tail else tail
    ensures ImageFile.MapLines(img, tail) ==
      ["", Join([".symmap", Decimal(|img.symmap|)]), "; name section value size is_code"] +
      (ImageFile.MapRows(img.symmap) + tail)
  {
    assert [] + tail == tail;
  }

  lemma ImageIsWritten(fl: Floats, img: Image)
    ensures var shared := ImageFile.SharedLines(img, ImageFile.MapLines(img, ["", ".end"]));
      ImageFile.ImageLines(fl, img) ==
        ["VX1"] + (["", Join([".entry", Decimal(img.entry)]), ""]
          + ImageFile.TextLines(fl, img, ImageFile.DataLines(img, shared)))
  {
  }

  /** A member is its file between a header and a blank line, and comes before those after it. */
  lemma MemberIsWritten(fl: Floats, m: (string, Object), rest: seq<string>)
    ensures ObjectFile.MemberText(fl, m, rest) ==
      [Join([".member", m.0])] + ObjectFile.ObjectLines(fl, m.1, [""] + rest)
  {
  }

  lemma ArchiveIsWritten(fl: Floats, members: seq<(string, Object)>, text: ObjectFile.Writer)
    ensures ObjectFile.ArchiveLines(fl, members) ==
      ["VA1"] + ObjectFile.MemberLines(ObjectFile.MemberWriter(fl), members)
    ensures members != [] ==>
      ObjectFile.MemberLines(text, members) == text(members[0], ObjectFile.MemberLines(text, members[1..]))
  {
  }

  // --- executables ----------------------------------------------------------------------------------------

  /** The rows of the documented symbol map: the value comes before the size. */
  lemma MapRows(saxpy: string, cont: string)
    requires WordsOf(saxpy) == ["saxpy", "text", "8", "12", "1"]
    requires WordsOf(cont) == ["cont", "shared", "32", "8", "0"]
    ensures ImageFile.ParseMapped(saxpy) == Some(Symbol("saxpy", Text, 8, 12, Global, 1))
    ensures ImageFile.ParseMapped(cont) == Some(Symbol("cont", Shared, 32, 8, Global, 0))
  {
    SmallNumerals();
  }

  lemma ImageHeaders(entry: string, text: string, data: string)
    requires WordsOf(entry) == [".entry", "0"] && WordsOf(text) == [".text", "3"] && WordsOf(data) == [".data", "40"]
    ensures ImageFile.Header(entry) == (ImageFile.EntryTag, 0, None)
    ensures ImageFile.Header(text) == (ImageFile.TextTag, 3, None)
    ensures ImageFile.Header(data) == (ImageFile.DataTag, 40, None)
  {
    SmallNumerals();
  }

  /** The shared header has the base first. */
  lemma MoreImageHeaders(shared: string, symmap: string, end: string)
    requires WordsOf(shared) == [".shared", "32", "8"]
    requires WordsOf(symmap) == [".symmap", "1"] && WordsOf(end) == [".end"]
    ensures ImageFile.Header(shared) == (ImageFile.SharedTag, 32, Some(8))
    ensures ImageFile.Header(symmap) == (ImageFile.MapTag, 1, None) && ImageFile.Header(end).0 == ImageFile.EndTag
  {
    SmallNumerals();
  }

  /** What the parts of an executable fill. */
  lemma Parts(fl: Floats, img: Image, n: nat, k: int, ms: seq<string>)
    ensures ImageFile.ReadPart(fl, img, ImageFile.EntryTag, n, None, ms) == Some((img.(entry := n), ms))
    ensures ImageFile.ReadPart(fl, img, ImageFile.SharedTag, n, Some(k), ms) ==
      Some((img.(sharedBase := n, shared := if k < 0 then 0 else k), ms))
    ensures ImageFile.ReadPart(fl, img, ImageFile.SharedTag, n, None, ms).None?
    ensures var r := ImageFile.ReadPart(fl, img, ImageFile.TextTag, n, None, ms);
      r.Some? ==> r.value.0 == img.(text := r.value.0.text)
    ensures var r := ImageFile.ReadPart(fl, img, ImageFile.DataTag, n, None, ms);
      r.Some? ==> r.value.0 == img.(data := r.value.0.data)
    ensures var r := ImageFile.ReadPart(fl, img, ImageFile.MapTag, n, None, ms);
      r.Some? ==> r.value.0 == img.(symmap := r.value.0.symmap) && Extends(r.value.0.symmap, img.symmap, n)
  {
    RowsExactly(ImageFile.MapParser(), ms, n, img.symmap);
  }

  // --- archives ---------------------------------------------------------------------------------------------

  /** A member is its name and the object after it, and there is no
      room for one more than `max`. */
  lemma Members(fl: Floats, ms: seq<string>, max: nat, done: seq<(string, Object)>, name: string, line: string)
    requires ms != [] && ms[0] == line && WordsOf(line) == [".member", name]
    ensures |done| >= max ==> ObjectFile.ReadMembers(fl, ms, max, done).None?
    ensures |done| < max ==>
      var o := ObjectFile.ReadObject(fl, ms[1..]);
      ObjectFile.ReadMembers(fl, ms, max, done) ==
        if o.None? then None else ObjectFile.ReadMembers(fl, o.value.1, max, done + [(name, o.value.0)])
  {
  }

  // --- rows and bytes -----------------------------------------------------------------------------------------

  /** The rows of a table are the next `n` lines, each of which has to be one. */
  lemma {:induction false} RowsExactly<T>(parse: string -> Option<T>, ms: seq<string>, n: nat, done: seq<T>)
    ensures var r := ReadRows(parse, ms, n, done);
      && (r.Some? <==> n <= |ms| && forall i | 0 <= i < n :: parse(ms[i]).Some?)
      && (r.Some? ==>
            && r.value.1 == ms[n..] && |r.value.0| == |done| + n && done <= r.value.0
            && forall i | 0 <= i < n :: parse(ms[i]) == Some(r.value.0[|done| + i]))
    decreases n
  {
    if n > 0 && ms != [] {
      if parse(ms[0]).Some? {
        var more := done + [parse(ms[0]).value];
        RowsExactly(parse, ms[1..], n - 1, more);
        if n <= |ms| {
          RowsShift(parse, ms, n);
        }
      } else {
        assert parse(ms[0]).None?;
      }
    }
  }

  lemma RowsShift<T>(parse: string -> Option<T>, ms: seq<string>, n: nat)
    requires n > 0 && ms != [] && parse(ms[0]).Some? && n <= |ms|
    ensures (forall i | 0 <= i < n :: parse(ms[i]).Some?) <==> forall i | 0 <= i < n - 1 :: parse(ms[1..][i]).Some?
  {
    forall i | 0 < i < n
      ensures ms[i] == ms[1..][i - 1]
    {
    }
  }

  /** The bytes of the first `k` lines. */
  function BytesOfLines(bytes: string -> seq<byte>, ms: seq<string>, k: nat): seq<byte>
    requires k <= |ms|
    decreases k
  {
    if k == 0 then [] else BytesOfLines(bytes, ms, k - 1) + bytes(ms[k - 1])
  }

  lemma {:induction false} BytesOfTail(bytes: string -> seq<byte>, ms: seq<string>, k: nat)
    requires 0 < k <= |ms|
    ensures BytesOfLines(bytes, ms, k) == bytes(ms[0]) + BytesOfLines(bytes, ms[1..], k - 1)
    decreases k
  {
    if k > 1 {
      BytesOfTail(bytes, ms, k - 1);
      assert ms[1..][k - 2] == ms[k - 1];
    }
  }

  /** As few lines as have enough: their bytes fill the section, what the last one has beyond it is dropped. */
  predicate Enough(bytes: string -> seq<byte>, ms: seq<string>, n: nat, got: seq<byte>, k: nat) {
    && k <= |ms| && |got| + |BytesOfLines(bytes, ms, k)| >= n
    && forall i | 0 <= i < k :: |got| + |BytesOfLines(bytes, ms, i)| < n
  }

  lemma {:induction false} BytesExactly(bytes: string -> seq<byte>, ms: seq<string>, n: nat, got: seq<byte>, k: nat)
    requires |got| <= n && Enough(bytes, ms, n, got, k)
    ensures ReadBytes(bytes, ms, n, got) == Some(((got + BytesOfLines(bytes, ms, k))[..n], ms[k..]))
    decreases k
  {
    if k > 0 {
      assert |got| + |BytesOfLines(bytes, ms, 0)| < n;
      var more := got + bytes(ms[0]);
      BytesOfTail(bytes, ms, k);
      assert BytesOfLines(bytes, ms, 1) == bytes(ms[0]);
      if k > 1 {
        assert more + BytesOfLines(bytes, ms[1..], k - 1) == got + BytesOfLines(bytes, ms, k);
        EnoughShifts(bytes, ms, n, got, k);
        BytesExactly(bytes, ms[1..], n, more, k - 1);
      } else {
        assert got + BytesOfLines(bytes, ms, k) == more;
        if |more| == n {
          assert more[..n] == more;
        }
      }
    }
  }

  lemma EnoughShifts(bytes: string -> seq<byte>, ms: seq<string>, n: nat, got: seq<byte>, k: nat)
    requires Enough(bytes, ms, n, got, k) && k > 1
    ensures Enough(bytes, ms[1..], n, got + bytes(ms[0]), k - 1)
  {
    forall i | 0 <= i < k
      ensures |got + bytes(ms[0])| + |BytesOfLines(bytes, ms[1..], i)| == |got| + |BytesOfLines(bytes, ms, i + 1)|
    {
      BytesOfTail(bytes, ms, i + 1);
    }
  }

  /** And with too few there is no section. */
  lemma {:induction false} TooFewBytes(bytes: string -> seq<byte>, ms: seq<string>, n: nat, got: seq<byte>)
    requires |got| + |BytesOfLines(bytes, ms, |ms|)| < n
    ensures ReadBytes(bytes, ms, n, got).None?
    decreases |ms|
  {
    if ms != [] {
      BytesOfTail(bytes, ms, |ms|);
      TooFewBytes(bytes, ms[1..], n, got + bytes(ms[0]));
    }
  }

  // --- whole files --------------------------------------------------------------------------------------------

  /** A file is known by how its first line begins, and nothing else is one. */
  lemma MagicExactly(fl: Floats, ms: seq<string>, max: nat)
    ensures ms == [] || !("VO1" <= ms[0]) ==> ObjectFile.ReadObject(fl, ms).None?
    ensures ms == [] || !("VA1" <= ms[0]) ==> ObjectFile.ReadArchive(fl, ms, max).None?
    ensures ms == [] || !("VX1" <= ms[0]) ==> ImageFile.ReadImage(fl, ms).None?
    ensures ObjectFile.ReadObject(fl, ["VO1"]) == Some((Object([], [], 0, [], []), []))
    ensures ObjectFile.ReadArchive(fl, ["VA1"], max) == Some([])
    ensures ImageFile.ReadImage(fl, ["VX1"]) == Some(Image([], [], 0, 0, [], 0))
  {
  }

  /** A section stands where its header is, after those before it; the end ends the file, the lines after it
      being another's; and a line that is none of these says nothing. */
  lemma SectionsInOrder(fl: Floats, o: Object, line: string, w: string, more: seq<string>, ms: seq<string>)
    requires WordsOf(line) == [w] + more
    ensures var read := ObjectFile.ReadSections(fl, o, [line] + ms);
      && (w == ".end" ==> read == Some((o, ms)))
      && (w !in {".text", ".data", ".shared", ".symtab", ".reloc", ".end"} ==>
            read == ObjectFile.ReadSections(fl, o, ms))
      && (w in {".text", ".data", ".shared", ".symtab", ".reloc"} ==>
            var (tag, n) := ObjectFile.Header(line);
            var section := ObjectFile.ReadSection(fl, o, tag, if n < 0 then 0 else n, ms);
            read == if section.None? then None else ObjectFile.ReadSections(fl, section.value.0, section.value.1))
    ensures ObjectFile.ReadSections(fl, o, []) == Some((o, []))
  {
    assert ([line] + ms)[1..] == ms;
  }

  /** The same of the parts of an executable, after which nothing is read. */
  lemma PartsInOrder(fl: Floats, img: Image, line: string, w: string, more: seq<string>, ms: seq<string>)
    requires WordsOf(line) == [w] + more
    ensures var read := ImageFile.ReadParts(fl, img, [line] + ms);
      && (w == ".end" ==> read == Some(img))
      && (w !in {".entry", ".text", ".data", ".shared", ".symmap", ".end"} ==> read == ImageFile.ReadParts(fl, img, ms))
      && (w in {".entry", ".text", ".data", ".shared", ".symmap"} ==>
            var (tag, n, second) := ImageFile.Header(line);
            var part := ImageFile.ReadPart(fl, img, tag, n, second, ms);
            read == if part.None? then None else ImageFile.ReadParts(fl, part.value.0, part.value.1))
    ensures ImageFile.ReadParts(fl, img, []) == Some(img)
  {
    assert ([line] + ms)[1..] == ms;
  }

  /** Between the members of an archive other lines say nothing, and its end is its last line. */
  lemma MembersOnly(fl: Floats, line: string, ms: seq<string>, max: nat, done: seq<(string, Object)>)
    requires WordsOf(line) == [] || WordsOf(line)[0] != ".member"
    ensures ObjectFile.ReadMembers(fl, [line] + ms, max, done) == ObjectFile.ReadMembers(fl, ms, max, done)
    ensures ObjectFile.ReadMembers(fl, [], max, done) == Some(done)
  {
    assert ([line] + ms)[1..] == ms;
  }
}

/** The placement the linker uses when no file is given, token by token. */
module BuiltinPlacement {
  import opened Locator
  import opened LocatorFile
  import Routes

  const PM: seq<string> := ["PM", ":", "CODE", "ORIGIN", "=", "0", "LENGTH", "=", "4096"]
  const LOCAL: seq<string> := ["LOCAL", ":", "DATA", "ORIGIN", "=", "4", "LENGTH", "=", "0xFFFFC"]
  const SHARED: seq<string> := ["SHARED", ":", "DATA", "ORIGIN", "=", "0x200000", "LENGTH", "=", "0x10000"]
  const PLACED: seq<string> := [".text", ">", "PM", ".data", ">", "LOCAL", ".shared", ">", "SHARED"]
  const TOKENS: seq<string> := ["MEMORY", "{"] + PM + LOCAL + SHARED + ["}", "SECTIONS", "{"] + PLACED + ["}"]

  lemma TokensInPlace()
    ensures |TOKENS| == 42 && TOKENS[2..11] == PM && TOKENS[11..20] == LOCAL && TOKENS[20..29] == SHARED
    ensures TOKENS[32..41] == PLACED && TOKENS[0] == "MEMORY" && TOKENS[1] == "{" && TOKENS[29] == "}"
    ensures TOKENS[30] == "SECTIONS" && TOKENS[31] == "{" && TOKENS[41] == "}"
  {
  }

  /** The numerals in it are read as strtoll reads them. */
  predicate ReadsNumerals(number: string -> Option<int>) {
    && number("0") == Some(0) && number("4") == Some(4) && number("4096") == Some(4096)
    && number("0xFFFFC") == Some(0xFFFFC) && number("0x200000") == Some(0x200000)
    && number("0x10000") == Some(0x10000)
  }

  function Memories(): Item { MemoryItem(Routes.Builtin().regions) }

  function Places(): Item { SectionsItem(Routes.Builtin().places) }

  lemma RegionStands(p: Parser, i: nat, r: Region, origin: string, length: string)
    requires i + 9 <= |p.toks| && RegionOk(r) && r.name != "}" && origin != "" && length != ""
    requires p.toks[i..i + 9] == [r.name, ":", if r.value.unit == CodeSpace then "CODE" else "DATA",
      "ORIGIN", "=", origin, "LENGTH", "=", length]
    requires p.number(origin) == Some(r.value.origin) && p.number(length) == Some(r.value.length)
    ensures p.RegionAt(i, r)
  {
    var ts := p.toks[i..i + 9];
    assert forall k | 0 <= k < 9 :: p.toks[i + k] == ts[k];
    assert p.Has(i, ts[0]) && p.Has(i + 1, ts[1]) && p.Has(i + 2, ts[2]) && p.Has(i + 3, ts[3]) && p.Has(i + 4, ts[4]);
    assert p.Number(i + 5, r.value.origin) && p.Has(i + 6, ts[6]) && p.Has(i + 7, ts[7]);
    assert p.Number(i + 8, r.value.length);
  }

  lemma PlaceStands(p: Parser, i: nat, q: Place)
    requires i + 3 <= |p.toks| && q.name != "" && q.name[0] == '.' && p.toks[i..i + 3] == [q.name, ">", q.value]
    ensures p.PlaceAt(i, q)
  {
    var ts := p.toks[i..i + 3];
    assert forall k | 0 <= k < 3 :: p.toks[i + k] == ts[k];
    assert p.Has(i, ts[0]) && p.Has(i + 1, ts[1]) && p.Has(i + 2, ts[2]);
  }

  lemma RegionsStand(p: Parser)
    requires p.toks == TOKENS && ReadsNumerals(p.number)
    ensures p.RegionsAt(2, Routes.Builtin().regions)
  {
    var rs := Routes.Builtin().regions;
    TokensInPlace();
    RegionStands(p, 2, rs[0], "0", "4096");
    RegionStands(p, 11, rs[1], "4", "0xFFFFC");
    RegionStands(p, 20, rs[2], "0x200000", "0x10000");
    forall k | 0 <= k < |rs|
      ensures p.RegionAt(2 + 9 * k, rs[k])
    {
      assert k == 0 || k == 1 || k == 2;
    }
  }

  lemma DistinctThree<T>(x: Named<T>, y: Named<T>, z: Named<T>)
    requires x.name != y.name && x.name != z.name && y.name != z.name
    ensures Locator.Distinct([x, y, z])
  {
  }

  lemma MemoriesStand(p: Parser)
    requires p.toks == TOKENS && p.RegionsAt(2, Routes.Builtin().regions)
    ensures p.ItemAt(0, EMPTY.board, Memories())
  {
    var rs := Routes.Builtin().regions;
    assert EMPTY.board.regions + rs == rs;
    DistinctThree(rs[0], rs[1], rs[2]);
    TokensInPlace();
    assert p.Has(0, "MEMORY") && p.Has(1, "{") && p.Has(29, "}");
  }

  lemma PlacesStand(p: Parser)
    requires p.toks == TOKENS
    ensures p.PlacesAt(32, Routes.Builtin().places)
  {
    var ps := Routes.Builtin().places;
    TokensInPlace();
    assert p.toks[32..35] == PLACED[..3] && p.toks[35..38] == PLACED[3..6] && p.toks[38..41] == PLACED[6..];
    PlaceStands(p, 32, ps[0]);
    PlaceStands(p, 35, ps[1]);
    PlaceStands(p, 38, ps[2]);
    forall k | 0 <= k < |ps|
      ensures p.PlaceAt(32 + 3 * k, ps[k])
    {
      assert k == 0 || k == 1 || k == 2;
    }
  }

  lemma SectionsStand(p: Parser, s: Scope)
    requires p.toks == TOKENS && s.places == [] && p.PlacesAt(32, Routes.Builtin().places)
    ensures p.ItemAt(30, s, Places())
  {
    var ps := Routes.Builtin().places;
    assert s.places + ps == ps;
    DistinctThree(ps[0], ps[1], ps[2]);
    TokensInPlace();
    assert p.Has(30, "SECTIONS") && p.Has(31, "{") && p.Has(41, "}");
  }

  /** The built-in text is a placement file, and it is this placement. */
  lemma BuiltinIsRead(p: Parser)
    requires p.toks == TOKENS && ReadsNumerals(p.number)
    ensures p.IsFile([Common(Memories()), Common(Places())])
    ensures p.LayoutOf([Common(Memories()), Common(Places())]) == Layout(Routes.Builtin(), [])
  {
    var (a, b) := (Common(Memories()), Common(Places()));
    RegionsStand(p);
    MemoriesStand(p);
    var l := p.Declared(EMPTY, a);
    PlacesStand(p);
    SectionsStand(p, l.board);
    TokensInPlace();
    assert [] + [a] == [a] && [a] + [b] == [a, b];
    ChainMore(p.Decls(), 0, EMPTY, [], a);
    ChainMore(p.Decls(), 0, EMPTY, [a], b);
    assert l.board.regions == Routes.Builtin().regions && p.Declared(l, b).board.places == Routes.Builtin().places;
  }

  /** So the parser reads it. */
  method ReadBuiltin(number: string -> Option<int>) returns (l: Option<Layout>)
    requires ReadsNumerals(number)
    ensures l == Some(Layout(Routes.Builtin(), []))
  {
    var p := new Parser(TOKENS, number);
    BuiltinIsRead(p);
    ghost var ds;
    l, ds := p.Parse();
  }
}
