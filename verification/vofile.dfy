/** Object files (.vo) and archives (.va): writer, reader, and that reading gives back what was written. */
module ObjectFile {
  import opened Words
  import opened Cpu
  import opened Objects
  import opened Locator
  import opened LineText
  import opened Formats

  const EMPTY: Object := Object([], [], 0, [], [])

  // --- the reader, on the lines that say something ----------------------------------------------------

  function InstrParser(fl: Floats): string -> Option<Instr> { line => ParseInstr(fl, line) }

  function SymbolParser(): string -> Option<Symbol> { line => ParseSymbol(line) }

  function RelocParser(): string -> Option<Reloc> { line => ParseReloc(line) }

  function BytesParser(): string -> seq<byte> { line => LineBytes(line) }

  function Count(n: int): nat { if n < 0 then 0 else n }

  datatype Tag = TextTag | DataTag | SharedTag | SymbolTag | RelocTag | EndTag | OtherTag

  function TagName(t: Tag): string {
    match t
    case TextTag => ".text"
    case DataTag => ".data"
    case SharedTag => ".shared"
    case SymbolTag => ".symtab"
    case RelocTag => ".reloc"
    case EndTag => ".end"
    case OtherTag => "."
  }

  function TagOf(w: string): Tag {
    if w == ".text" then TextTag else if w == ".data" then DataTag else if w == ".shared" then SharedTag
    else if w == ".symtab" then SymbolTag else if w == ".reloc" then RelocTag else if w == ".end" then EndTag
    else OtherTag
  }

  lemma TagReadBack(t: Tag)
    ensures TagOf(TagName(t)) == t && IsWord(TagName(t)) && !Silent(TagName(t))
  {
  }

  /** The tag of a section and its count, 0 if it has none. */
  function Header(line: string): (Tag, int) {
    var w := WordsOf(line);
    (if w == [] then OtherTag else TagOf(w[0]), if |w| < 2 then 0 else ValueOrZero(w[1]))
  }

  /** One section after its header. Tags the reader does not know are skipped. */
  function ReadSection(fl: Floats, o: Object, tag: Tag, n: nat, ms: seq<string>): (r: Reading<Object>)
    ensures r.Some? ==> |r.value.1| <= |ms|
  {
    match tag
    case TextTag => With(ReadRows(InstrParser(fl), ms, n, []), rows => o.(text := rows))
    case DataTag => With(ReadBytes(BytesParser(), ms, n, []), bs => o.(data := bs))
    case SharedTag => Some((o.(shared := n), ms))
    case SymbolTag => With(ReadRows(SymbolParser(), ms, n, o.syms), rows => o.(syms := rows))
    case RelocTag => With(ReadRows(RelocParser(), ms, n, o.relocs), rows => o.(relocs := rows))
    case _ => Some((o, ms))
  }

  function ReadSections(fl: Floats, o: Object, ms: seq<string>): (r: Reading<Object>)
    ensures r.Some? ==> |r.value.1| <= |ms|
    decreases |ms|
  {
    if ms == [] then Some((o, ms))
    else
      var (tag, n) := Header(ms[0]);
      if tag == EndTag then Some((o, ms[1..]))
      else
        match ReadSection(fl, o, tag, Count(n), ms[1..])
        case None => None
        case Some(p) => ReadSections(fl, p.0, p.1)
  }

  /** One object, from its magic to its `.end`. */
  function ReadObject(fl: Floats, ms: seq<string>): (r: Reading<Object>)
    ensures r.Some? ==> |r.value.1| < |ms|
  {
    if ms == [] || !("VO1" <= ms[0]) then None else ReadSections(fl, EMPTY, ms[1..])
  }

  // --- the writer --------------------------------------------------------------------------------------

  function HeaderLine(tag: Tag, n: nat): string { Join([TagName(tag), Decimal(n)]) }

  function InstrWriter(fl: Floats): (nat, Instr) -> string { (i: nat, ins: Instr) => InstrRow(fl, i, ins) }

  function SymbolWriter(): (nat, Symbol) -> string { (i: nat, s: Symbol) => Join(SymbolWords(s)) }

  function RelocWriter(): (nat, Reloc) -> string { (i: nat, r: Reloc) => Join(RelocWords(r)) }

  function TextRows(fl: Floats, text: seq<Instr>): seq<string> { RowsFrom(InstrWriter(fl), text, 0) }

  function SymbolRows(syms: seq<Symbol>): seq<string> { RowsFrom(SymbolWriter(), syms, 0) }

  function RelocRows(relocs: seq<Reloc>): seq<string> { RowsFrom(RelocWriter(), relocs, 0) }

  function RowWriter(): (nat, seq<byte>) -> string { (off: nat, bs: seq<byte>) => DataRow(off, bs) }

  function AllDataRows(data: seq<byte>): seq<string> { DataRows(RowWriter(), data, 0) }

  const INSTR_COMMENT := "; idx op a b c imm fimm target"
  const SYMBOL_COMMENT := "; name section offset size binding is_code"
  const RELOC_COMMENT := "; type site sym addend"

  // The sections of the file, each with what comes after it.

  function TextLines(fl: Floats, o: Object, tail: seq<string>): seq<string> {
    [HeaderLine(TextTag, |o.text|), INSTR_COMMENT] + (TextRows(fl, o.text) + tail)
  }

  function DataLines(o: Object, tail: seq<string>): seq<string> {
    ["", HeaderLine(DataTag, |o.data|)] + (AllDataRows(o.data) + tail)
  }

  /** The shared line is written only when something is reserved. */
  function SharedLines(o: Object, tail: seq<string>): seq<string> {
    if o.shared > 0 then ["", HeaderLine(SharedTag, o.shared)] + ([] + tail) else tail
  }

  function SymbolLines(o: Object, tail: seq<string>): seq<string> {
    ["", HeaderLine(SymbolTag, |o.syms|), SYMBOL_COMMENT] + (SymbolRows(o.syms) + tail)
  }

  function RelocLines(o: Object, tail: seq<string>): seq<string> {
    ["", HeaderLine(RelocTag, |o.relocs|), RELOC_COMMENT] + (RelocRows(o.relocs) + tail)
  }

  /** The file of an object, and what comes after it. */
  function ObjectLines(fl: Floats, o: Object, after: seq<string>): seq<string> {
    ["VO1", ""]
    + TextLines(fl, o, DataLines(o, SharedLines(o, SymbolLines(o, RelocLines(o, ["", ".end"] + after)))))
  }

  /** What the format can hold. */
  predicate Printable(o: Object) {
    (forall s | s in o.syms :: Canonical(s)) && forall r | r in o.relocs :: NameOk(r.sym)
  }

  // --- there and back -------------------------------------------------------------------------------------

  lemma HeaderReadBack(tag: Tag, n: nat)
    ensures Header(HeaderLine(tag, n)) == (tag, n) && !Silent(HeaderLine(tag, n))
  {
    TagReadBack(tag);
    SplitJoin([TagName(tag), Decimal(n)]);
    JoinStarts([TagName(tag), Decimal(n)]);
    DecimalReadBack(n);
  }

  lemma SilentLines()
    ensures Silent("") && Silent(INSTR_COMMENT) && Silent(SYMBOL_COMMENT) && Silent(RELOC_COMMENT)
  {
    assert INSTR_COMMENT[0] == ';' && SYMBOL_COMMENT[0] == ';' && RELOC_COMMENT[0] == ';';
  }

  lemma TextReadBack(fl: Floats, text: seq<Instr>, rest: seq<string>)
    requires Invertible(fl)
    ensures ReadRows(InstrParser(fl), TextRows(fl, text) + rest, |text|, []) == Some((text, rest))
    ensures forall l | l in TextRows(fl, text) :: !Silent(l)
  {
    forall i | 0 <= i < |text|
      ensures InstrParser(fl)(InstrWriter(fl)(i, text[i])) == Some(text[i]) && !Silent(InstrWriter(fl)(i, text[i]))
    {
      InstrReadBack(fl, i, text[i]);
    }
    RowsReadBack(InstrWriter(fl), InstrParser(fl), text, 0, rest);
    assert text[..0] == [];
  }

  lemma SymbolsReadBack(syms: seq<Symbol>, rest: seq<string>)
    requires forall s | s in syms :: Canonical(s)
    ensures ReadRows(SymbolParser(), SymbolRows(syms) + rest, |syms|, []) == Some((syms, rest))
    ensures forall l | l in SymbolRows(syms) :: !Silent(l)
  {
    forall i | 0 <= i < |syms|
      ensures SymbolParser()(SymbolWriter()(i, syms[i])) == Some(syms[i]) && !Silent(SymbolWriter()(i, syms[i]))
    {
      SymbolReadBack(syms[i]);
    }
    RowsReadBack(SymbolWriter(), SymbolParser(), syms, 0, rest);
    assert syms[..0] == [];
  }

  lemma RelocsReadBack(relocs: seq<Reloc>, rest: seq<string>)
    requires forall r | r in relocs :: NameOk(r.sym)
    ensures ReadRows(RelocParser(), RelocRows(relocs) + rest, |relocs|, []) == Some((relocs, rest))
    ensures forall l | l in RelocRows(relocs) :: !Silent(l)
  {
    forall i | 0 <= i < |relocs|
      ensures RelocParser()(RelocWriter()(i, relocs[i])) == Some(relocs[i]) && !Silent(RelocWriter()(i, relocs[i]))
    {
      RelocReadBack(relocs[i]);
    }
    RowsReadBack(RelocWriter(), RelocParser(), relocs, 0, rest);
    assert relocs[..0] == [];
  }

  lemma {:induction false} DataRowsSpeak(data: seq<byte>, off: nat)
    requires off <= |data|
    ensures forall l | l in DataRows(RowWriter(), data, off) :: !Silent(l)
    decreases |data| - off
  {
    if off < |data| {
      LineReadBack(off, data[off..ChunkEnd(data, off)]);
      DataRowsSpeak(data, ChunkEnd(data, off));
    }
  }

  lemma AllDataReadBack(data: seq<byte>, rest: seq<string>)
    ensures ReadBytes(BytesParser(), AllDataRows(data) + rest, |data|, []) == Some((data, rest))
    ensures forall l | l in AllDataRows(data) :: !Silent(l)
  {
    forall off: nat, bs: seq<byte>
      ensures BytesParser()(RowWriter()(off, bs)) == bs
    {
      LineReadBack(off, bs);
    }
    DataReadBack(RowWriter(), BytesParser(), data, 0, rest);
    assert data[..0] == [];
    DataRowsSpeak(data, 0);
  }

  /** A header, its rows, and what comes after: one section of the reading. */
  lemma SectionStep(fl: Floats, o: Object, tag: Tag, n: nat, rows: seq<string>, tail: seq<string>, p: Object)
    requires tag != EndTag && ReadSection(fl, o, tag, n, rows + tail) == Some((p, tail))
    ensures ReadSections(fl, o, [HeaderLine(tag, n)] + (rows + tail)) == ReadSections(fl, p, tail)
  {
    HeaderReadBack(tag, n);
    var ms := [HeaderLine(tag, n)] + (rows + tail);
    assert ms[1..] == rows + tail;
  }

  lemma EndStep(fl: Floats, o: Object, rest: seq<string>)
    ensures ReadSections(fl, o, [".end"] + rest) == Some((o, rest))
  {
    SplitJoin([".end"]);
    assert Join([".end"]) == ".end";
    assert ([".end"] + rest)[1..] == rest;
  }

  // The lines that say something, section by section.

  function TextPart(fl: Floats, o: Object, tail: seq<string>): seq<string> {
    [HeaderLine(TextTag, |o.text|)] + (TextRows(fl, o.text) + tail)
  }

  function DataPart(o: Object, tail: seq<string>): seq<string> {
    [HeaderLine(DataTag, |o.data|)] + (AllDataRows(o.data) + tail)
  }

  function SharedPart(o: Object, tail: seq<string>): seq<string> {
    if o.shared > 0 then [HeaderLine(SharedTag, o.shared)] + ([] + tail) else tail
  }

  function SymbolPart(o: Object, tail: seq<string>): seq<string> {
    [HeaderLine(SymbolTag, |o.syms|)] + (SymbolRows(o.syms) + tail)
  }

  function RelocPart(o: Object, tail: seq<string>): seq<string> {
    [HeaderLine(RelocTag, |o.relocs|)] + (RelocRows(o.relocs) + tail)
  }

  lemma TextPartBack(fl: Floats, o: Object, p: Object, tail: seq<string>)
    requires Invertible(fl)
    ensures ReadSections(fl, p, TextPart(fl, o, tail)) == ReadSections(fl, p.(text := o.text), tail)
  {
    TextReadBack(fl, o.text, tail);
    SectionStep(fl, p, TextTag, |o.text|, TextRows(fl, o.text), tail, p.(text := o.text));
  }

  lemma DataPartBack(fl: Floats, o: Object, p: Object, tail: seq<string>)
    ensures ReadSections(fl, p, DataPart(o, tail)) == ReadSections(fl, p.(data := o.data), tail)
  {
    AllDataReadBack(o.data, tail);
    SectionStep(fl, p, DataTag, |o.data|, AllDataRows(o.data), tail, p.(data := o.data));
  }

  lemma SharedPartBack(fl: Floats, o: Object, p: Object, tail: seq<string>)
    requires p.shared == 0
    ensures ReadSections(fl, p, SharedPart(o, tail)) == ReadSections(fl, p.(shared := o.shared), tail)
  {
    if o.shared > 0 {
      assert [] + tail == tail;
      SectionStep(fl, p, SharedTag, o.shared, [], tail, p.(shared := o.shared));
    } else {
      assert p == p.(shared := o.shared);
    }
  }

  lemma SymbolPartBack(fl: Floats, o: Object, p: Object, tail: seq<string>)
    requires Printable(o) && p.syms == []
    ensures ReadSections(fl, p, SymbolPart(o, tail)) == ReadSections(fl, p.(syms := o.syms), tail)
  {
    SymbolsReadBack(o.syms, tail);
    SectionStep(fl, p, SymbolTag, |o.syms|, SymbolRows(o.syms), tail, p.(syms := o.syms));
  }

  lemma RelocPartBack(fl: Floats, o: Object, p: Object, tail: seq<string>)
    requires Printable(o) && p.relocs == []
    ensures ReadSections(fl, p, RelocPart(o, tail)) == ReadSections(fl, p.(relocs := o.relocs), tail)
  {
    RelocsReadBack(o.relocs, tail);
    SectionStep(fl, p, RelocTag, |o.relocs|, RelocRows(o.relocs), tail, p.(relocs := o.relocs));
  }

  // Dropping the silent lines of the file leaves exactly those parts.

  /** A few lines, then rows that all speak, then the rest. */
  lemma PartSpeaks(lead: seq<string>, rows: seq<string>, tail: seq<string>)
    requires forall i | 0 <= i < |rows| :: !Silent(rows[i])
    ensures Meaningful(lead + (rows + tail)) == Meaningful(lead) + (rows + Meaningful(tail))
  {
    MeaningfulJoin(lead, rows + tail);
    MeaningfulJoin(rows, tail);
    AllMeaningful(rows);
  }

  /** Of a header with blank and comment lines around it the header remains. */
  lemma HeaderSpeaks(tag: Tag, n: nat, before: seq<string>, after: seq<string>)
    requires before in {[], [""]} && after in {[], [INSTR_COMMENT], [SYMBOL_COMMENT], [RELOC_COMMENT]}
    ensures Meaningful(before + ([HeaderLine(tag, n)] + after)) == [HeaderLine(tag, n)]
  {
    HeaderReadBack(tag, n);
    SilentLines();
    MeaningfulJoin(before, [HeaderLine(tag, n)] + after);
    MeaningfulJoin([HeaderLine(tag, n)], after);
    AllMeaningful([HeaderLine(tag, n)]);
    OneSilent("");
    OneSilent(INSTR_COMMENT);
    OneSilent(SYMBOL_COMMENT);
    OneSilent(RELOC_COMMENT);
  }

  lemma OneSilent(line: string)
    requires Silent(line)
    ensures Meaningful([line]) == []
  {
    assert [line][1..] == [];
  }

  lemma TextLinesSpeak(fl: Floats, o: Object, tail: seq<string>)
    requires Invertible(fl)
    ensures Meaningful(TextLines(fl, o, tail)) == TextPart(fl, o, Meaningful(tail))
  {
    TextReadBack(fl, o.text, []);
    HeaderSpeaks(TextTag, |o.text|, [], [INSTR_COMMENT]);
    assert [HeaderLine(TextTag, |o.text|), INSTR_COMMENT] == [] + ([HeaderLine(TextTag, |o.text|)] + [INSTR_COMMENT]);
    PartSpeaks([HeaderLine(TextTag, |o.text|), INSTR_COMMENT], TextRows(fl, o.text), tail);
  }

  lemma DataLinesSpeak(o: Object, tail: seq<string>)
    ensures Meaningful(DataLines(o, tail)) == DataPart(o, Meaningful(tail))
  {
    AllDataReadBack(o.data, []);
    HeaderSpeaks(DataTag, |o.data|, [""], []);
    assert ["", HeaderLine(DataTag, |o.data|)] == [""] + ([HeaderLine(DataTag, |o.data|)] + []);
    PartSpeaks(["", HeaderLine(DataTag, |o.data|)], AllDataRows(o.data), tail);
  }

  lemma SharedLinesSpeak(o: Object, tail: seq<string>)
    ensures Meaningful(SharedLines(o, tail)) == SharedPart(o, Meaningful(tail))
  {
    if o.shared > 0 {
      HeaderSpeaks(SharedTag, o.shared, [""], []);
      assert ["", HeaderLine(SharedTag, o.shared)] == [""] + ([HeaderLine(SharedTag, o.shared)] + []);
      PartSpeaks(["", HeaderLine(SharedTag, o.shared)], [], tail);
    }
  }

  lemma SymbolLinesSpeak(o: Object, tail: seq<string>)
    requires Printable(o)
    ensures Meaningful(SymbolLines(o, tail)) == SymbolPart(o, Meaningful(tail))
  {
    SymbolsReadBack(o.syms, []);
    HeaderSpeaks(SymbolTag, |o.syms|, [""], [SYMBOL_COMMENT]);
    assert ["", HeaderLine(SymbolTag, |o.syms|), SYMBOL_COMMENT] ==
      [""] + ([HeaderLine(SymbolTag, |o.syms|)] + [SYMBOL_COMMENT]);
    PartSpeaks(["", HeaderLine(SymbolTag, |o.syms|), SYMBOL_COMMENT], SymbolRows(o.syms), tail);
  }

  lemma RelocLinesSpeak(o: Object, tail: seq<string>)
    requires Printable(o)
    ensures Meaningful(RelocLines(o, tail)) == RelocPart(o, Meaningful(tail))
  {
    RelocsReadBack(o.relocs, []);
    HeaderSpeaks(RelocTag, |o.relocs|, [""], [RELOC_COMMENT]);
    assert ["", HeaderLine(RelocTag, |o.relocs|), RELOC_COMMENT] ==
      [""] + ([HeaderLine(RelocTag, |o.relocs|)] + [RELOC_COMMENT]);
    PartSpeaks(["", HeaderLine(RelocTag, |o.relocs|), RELOC_COMMENT], RelocRows(o.relocs), tail);
  }

  lemma EndSpeaks(after: seq<string>)
    ensures Meaningful(["", ".end"] + after) == [".end"] + Meaningful(after)
  {
    MeaningfulJoin(["", ".end"], after);
    assert ["", ".end"][1..] == [".end"];
    AllMeaningful([".end"]);
  }

  /** The whole file as the reader sees it. */
  function ObjectPart(fl: Floats, o: Object, tail: seq<string>): seq<string> {
    TextPart(fl, o, DataPart(o, SharedPart(o, SymbolPart(o, RelocPart(o, [".end"] + tail)))))
  }

  lemma ObjectSpeaks(fl: Floats, o: Object, after: seq<string>)
    requires Printable(o) && Invertible(fl)
    ensures Meaningful(ObjectLines(fl, o, after)) == ["VO1"] + ObjectPart(fl, o, Meaningful(after))
  {
    var end := ["", ".end"] + after;
    EndSpeaks(after);
    RelocLinesSpeak(o, end);
    SymbolLinesSpeak(o, RelocLines(o, end));
    SharedLinesSpeak(o, SymbolLines(o, RelocLines(o, end)));
    DataLinesSpeak(o, SharedLines(o, SymbolLines(o, RelocLines(o, end))));
    var sections := DataLines(o, SharedLines(o, SymbolLines(o, RelocLines(o, end))));
    TextLinesSpeak(fl, o, sections);
    MagicSpeaks(TextLines(fl, o, sections));
  }

  lemma MagicSpeaks(tail: seq<string>)
    ensures Meaningful(["VO1", ""] + tail) == ["VO1"] + Meaningful(tail)
  {
    MeaningfulJoin(["VO1", ""], tail);
    assert ["VO1", ""][1..] == [""];
    OneSilent("");
    assert !Silent("VO1");
  }

  lemma ObjectPartBack(fl: Floats, o: Object, tail: seq<string>)
    requires Printable(o) && Invertible(fl)
    ensures ReadSections(fl, EMPTY, ObjectPart(fl, o, tail)) == Some((o, tail))
  {
    var relocs := RelocPart(o, [".end"] + tail);
    var syms := SymbolPart(o, relocs);
    var shared := SharedPart(o, syms);
    TextPartBack(fl, o, EMPTY, DataPart(o, shared));
    DataPartBack(fl, o, Object(o.text, [], 0, [], []), shared);
    SharedPartBack(fl, o, Object(o.text, o.data, 0, [], []), syms);
    SymbolPartBack(fl, o, Object(o.text, o.data, o.shared, [], []), relocs);
    RelocPartBack(fl, o, Object(o.text, o.data, o.shared, o.syms, []), [".end"] + tail);
    EndStep(fl, o, tail);
  }

  /** Reading an object file gives the object, and stops at its end: what follows is left unread. */
  lemma ObjectReadBack(fl: Floats, o: Object, after: seq<string>)
    requires Printable(o) && Invertible(fl)
    ensures ReadObject(fl, Meaningful(ObjectLines(fl, o, after))) == Some((o, Meaningful(after)))
  {
    ObjectSpeaks(fl, o, after);
    ObjectPartBack(fl, o, Meaningful(after));
    var part := ObjectPart(fl, o, Meaningful(after));
    assert (["VO1"] + part)[1..] == part;
  }

  // --- archives ---------------------------------------------------------------------------------------------

  type Member = (string, Object)

  /** Writes a member in front of what comes after it. */
  type Writer = (Member, seq<string>) -> seq<string>

  /** A member is its file, whole, between a header and a blank line. */
  function MemberText(fl: Floats, m: Member, rest: seq<string>): seq<string> {
    [Join([".member", m.0])] + ObjectLines(fl, m.1, [""] + rest)
  }

  function MemberWriter(fl: Floats): Writer { (m: Member, rest: seq<string>) => MemberText(fl, m, rest) }

  function MemberLines(text: Writer, members: seq<Member>): seq<string> {
    if members == [] then [] else text(members[0], MemberLines(text, members[1..]))
  }

  function ArchiveLines(fl: Floats, members: seq<Member>): seq<string> {
    ["VA1"] + MemberLines(MemberWriter(fl), members)
  }

  /** The members, each read by the object reader where the one before it stopped. */
  function ReadMembers(fl: Floats, ms: seq<string>, max: nat, done: seq<Member>): Option<seq<Member>>
    decreases |ms|
  {
    if ms == [] then Some(done)
    else
      var w := WordsOf(ms[0]);
      if w == [] || w[0] != ".member" then ReadMembers(fl, ms[1..], max, done)
      else if |done| >= max then None
      else
        match ReadObject(fl, ms[1..])
        case None => None
        case Some(p) => ReadMembers(fl, p.1, max, done + [(if |w| < 2 then "" else w[1], p.0)])
  }

  function ReadArchive(fl: Floats, ms: seq<string>, max: nat): Option<seq<Member>> {
    if ms == [] || !("VA1" <= ms[0]) then None else ReadMembers(fl, ms[1..], max, [])
  }

  predicate MemberOk(m: Member) { IsWord(m.0) && Printable(m.1) }

  lemma MemberStep(fl: Floats, m: Member, body: seq<string>, rest: seq<string>, max: nat, done: seq<Member>)
    requires IsWord(m.0) && ReadObject(fl, body) == Some((m.1, rest))
    ensures ReadMembers(fl, [Join([".member", m.0])] + body, max, done) ==
      if |done| >= max then None else ReadMembers(fl, rest, max, done + [m])
  {
    SplitJoin([".member", m.0]);
    assert ([Join([".member", m.0])] + body)[1..] == body;
  }

  lemma MemberSpeaks(name: string, body: seq<string>)
    requires IsWord(name)
    ensures Meaningful([Join([".member", name])] + body) == [Join([".member", name])] + Meaningful(body)
  {
    var header := Join([".member", name]);
    JoinStarts([".member", name]);
    MeaningfulJoin([header], body);
    AllMeaningful([header]);
  }

  lemma BlankSpeaks(rest: seq<string>)
    ensures Meaningful([""] + rest) == Meaningful(rest)
  {
    MeaningfulJoin([""], rest);
    OneSilent("");
  }

  lemma FirstMember(fl: Floats, m: Member, rest: seq<string>, max: nat, done: seq<Member>)
    requires Invertible(fl) && MemberOk(m)
    ensures ReadMembers(fl, Meaningful(MemberText(fl, m, rest)), max, done) ==
      if |done| >= max then None else ReadMembers(fl, Meaningful(rest), max, done + [m])
  {
    BlankSpeaks(rest);
    var lines := ObjectLines(fl, m.1, [""] + rest);
    ObjectReadBack(fl, m.1, [""] + rest);
    MemberSpeaks(m.0, lines);
    MemberStep(fl, m, Meaningful(lines), Meaningful(rest), max, done);
  }

  /** A reader of lists that takes one member at a time. */
  type ListReader = (seq<string>, seq<Member>) -> Option<seq<Member>>

  function MembersReader(fl: Floats, max: nat): ListReader {
    (ms: seq<string>, done: seq<Member>) => ReadMembers(fl, ms, max, done)
  }

  predicate TakesOne(read: ListReader, text: Writer, max: nat, m: Member, rest: seq<string>, done: seq<Member>) {
    read(Meaningful(text(m, rest)), done) == if |done| >= max then None else read(Meaningful(rest), done + [m])
  }

  ghost predicate OneAtATime(read: ListReader, text: Writer, max: nat) {
    && (forall done: seq<Member> :: read([], done) == Some(done))
    && forall m: Member, rest: seq<string>, done: seq<Member> | MemberOk(m) :: TakesOne(read, text, max, m, rest, done)
  }

  lemma ReaderTakesOne(fl: Floats, max: nat)
    requires Invertible(fl)
    ensures OneAtATime(MembersReader(fl, max), MemberWriter(fl), max)
  {
    forall m: Member, rest: seq<string>, done: seq<Member> | MemberOk(m)
      ensures TakesOne(MembersReader(fl, max), MemberWriter(fl), max, m, rest, done)
    {
      FirstMember(fl, m, rest, max, done);
    }
  }

  lemma {:induction false} MembersReadBack(read: ListReader, text: Writer, members: seq<Member>, max: nat,
      done: seq<Member>)
    requires OneAtATime(read, text, max) && |done| <= max && forall m | m in members :: MemberOk(m)
    ensures read(Meaningful(MemberLines(text, members)), done) ==
      if |done| + |members| <= max then Some(done + members) else None
    decreases |members|
  {
    if members == [] {
      assert done + members == done;
    } else {
      assert TakesOne(read, text, max, members[0], MemberLines(text, members[1..]), done);
    }
    if members != [] && |done| < max {
      MembersReadBack(read, text, members[1..], max, done + [members[0]]);
      assert done + members == (done + [members[0]]) + members[1..];
    }
  }

  /** Reading an archive gives its members in order, and fails exactly when there is no room for them. */
  lemma ArchiveReadBack(fl: Floats, members: seq<Member>, max: nat)
    requires Invertible(fl) && forall m | m in members :: MemberOk(m)
    ensures ReadArchive(fl, Meaningful(ArchiveLines(fl, members)), max) ==
      if |members| <= max then Some(members) else None
  {
    var lines := MemberLines(MemberWriter(fl), members);
    MeaningfulJoin(["VA1"], lines);
    assert !Silent("VA1");
    AllMeaningful(["VA1"]);
    assert (["VA1"] + Meaningful(lines))[1..] == Meaningful(lines);
    ReaderTakesOne(fl, max);
    MembersReadBack(MembersReader(fl, max), MemberWriter(fl), members, max, []);
    assert [] + members == members;
  }

  // --- the loops ----------------------------------------------------------------------------------------------

  /** What a loop returned and left unread is what the reading says. */
  predicate Agrees<T(==)>(got: Option<T>, rest: seq<string>, r: Reading<T>) {
    if got.None? then r.None? else r == Some((got.value, rest))
  }

  method LoadRows<T(==)>(fp: Stream, parse: string -> Option<T>, n: nat, before: seq<T>) returns (rows: Option<seq<T>>)
    requires fp.Valid()
    modifies fp
    ensures fp.Valid() && Agrees(rows, fp.Rest(), ReadRows(parse, old(fp.Rest()), n, before))
  {
    var table := before;
    for i := 0 to n
      invariant fp.Valid()
      invariant ReadRows(parse, fp.Rest(), n - i, table) == ReadRows(parse, old(fp.Rest()), n, before)
    {
      var line := fp.NextLine();
      if line.None? {
        return None;
      }
      var row := parse(line.value);
      if row.None? {
        return None;
      }
      table := table + [row.value];
    }
    rows := Some(table);
  }

  method LoadBytes(fp: Stream, n: nat) returns (data: Option<seq<byte>>)
    requires fp.Valid()
    modifies fp
    ensures fp.Valid() && Agrees(data, fp.Rest(), ReadBytes(BytesParser(), old(fp.Rest()), n, []))
  {
    var got: seq<byte> := [];
    while |got| < n
      invariant fp.Valid() && |got| <= n
      invariant ReadBytes(BytesParser(), fp.Rest(), n, got) == ReadBytes(BytesParser(), old(fp.Rest()), n, [])
      decreases |fp.Rest()|
    {
      var line := fp.NextLine();
      if line.None? {
        return None;
      }
      var more := got + LineBytes(line.value);
      got := if |more| <= n then more else more[..n];
    }
    data := Some(got);
  }

  method LoadSection(fp: Stream, fl: Floats, o: Object, tag: Tag, n: nat) returns (p: Option<Object>)
    requires fp.Valid()
    modifies fp
    ensures fp.Valid() && Agrees(p, fp.Rest(), ReadSection(fl, o, tag, n, old(fp.Rest())))
  {
    match tag {
      case TextTag =>
        var rows := LoadRows(fp, InstrParser(fl), n, []);
        p := if rows.None? then None else Some(o.(text := rows.value));
      case DataTag =>
        var data := LoadBytes(fp, n);
        p := if data.None? then None else Some(o.(data := data.value));
      case SharedTag => p := Some(o.(shared := n));
      case SymbolTag =>
        var rows := LoadRows(fp, SymbolParser(), n, o.syms);
        p := if rows.None? then None else Some(o.(syms := rows.value));
      case RelocTag =>
        var rows := LoadRows(fp, RelocParser(), n, o.relocs);
        p := if rows.None? then None else Some(o.(relocs := rows.value));
      case _ => p := Some(o);
    }
  }

  /** Reads one object from an open stream, leaving what follows its `.end`. */
  method LoadObject(fp: Stream, fl: Floats) returns (o: Option<Object>)
    requires fp.Valid()
    modifies fp
    ensures fp.Valid() && Agrees(o, fp.Rest(), ReadObject(fl, old(fp.Rest())))
  {
    var magic := fp.NextLine();
    if magic.None? || !("VO1" <= magic.value) {
      return None;
    }
    ghost var goal := ReadObject(fl, old(fp.Rest()));
    var p := EMPTY;
    var more := true;
    while more
      invariant fp.Valid()
      invariant if more then ReadSections(fl, p, fp.Rest()) == goal else goal == Some((p, fp.Rest()))
      decreases more, |fp.Rest()|
    {
      var line := fp.NextLine();
      if line.None? {
        more := false;
      } else {
        var (tag, n) := Header(line.value);
        if tag == EndTag {
          more := false;
        } else {
          var q := LoadSection(fp, fl, p, tag, Count(n));
          if q.None? {
            return None;
          }
          p := q.value;
        }
      }
    }
    o := Some(p);
  }

  method LoadArchive(fp: Stream, fl: Floats, max: nat) returns (members: Option<seq<Member>>)
    requires fp.Valid()
    modifies fp
    ensures members == ReadArchive(fl, old(fp.Rest()), max)
  {
    var magic := fp.NextLine();
    if magic.None? || !("VA1" <= magic.value) {
      return None;
    }
    var table: seq<Member> := [];
    while true
      invariant fp.Valid() && ReadMembers(fl, fp.Rest(), max, table) == ReadArchive(fl, old(fp.Rest()), max)
      decreases |fp.Rest()|
    {
      var line := fp.NextLine();
      if line.None? {
        return Some(table);
      }
      var w := WordsOf(line.value);
      if w != [] && w[0] == ".member" {
        if |table| >= max {
          return None;
        }
        var o := LoadObject(fp, fl);
        if o.None? {
          return None;
        }
        table := table + [(if |w| < 2 then "" else w[1], o.value)];
      }
    }
  }

  method WriteData(data: seq<byte>) returns (lines: seq<string>)
    ensures lines == AllDataRows(data)
  {
    lines := [];
    var off := 0;
    while off < |data|
      invariant off <= |data| && AllDataRows(data) == lines + DataRows(RowWriter(), data, off)
      decreases |data| - off
    {
      var end := ChunkEnd(data, off);
      lines := lines + [DataRow(off, data[off..end])];
      off := end;
    }
  }

  method WriteRows<T>(lines: seq<string>, row: (nat, T) -> string, xs: seq<T>) returns (out: seq<string>)
    ensures out == lines + RowsFrom(row, xs, 0)
  {
    out := lines;
    for i := 0 to |xs|
      invariant out + RowsFrom(row, xs, i) == lines + RowsFrom(row, xs, 0)
    {
      out := out + [row(i, xs[i])];
    }
  }

  /** Each section is appended to what is written already; `tail` is what will come after it. */
  method PutText(lines: seq<string>, fl: Floats, o: Object, ghost tail: seq<string>) returns (out: seq<string>)
    ensures out + tail == lines + TextLines(fl, o, tail)
  {
    out := WriteRows(lines + [HeaderLine(TextTag, |o.text|), INSTR_COMMENT], InstrWriter(fl), o.text);
  }

  method PutData(lines: seq<string>, o: Object, ghost tail: seq<string>) returns (out: seq<string>)
    ensures out + tail == lines + DataLines(o, tail)
  {
    var data := WriteData(o.data);
    out := lines + ["", HeaderLine(DataTag, |o.data|)] + data;
  }

  method PutShared(lines: seq<string>, o: Object, ghost tail: seq<string>) returns (out: seq<string>)
    ensures out + tail == lines + SharedLines(o, tail)
  {
    out := lines;
    if o.shared > 0 {
      out := out + ["", HeaderLine(SharedTag, o.shared)];
    }
  }

  method PutSymbols(lines: seq<string>, o: Object, ghost tail: seq<string>) returns (out: seq<string>)
    ensures out + tail == lines + SymbolLines(o, tail)
  {
    out := WriteRows(lines + ["", HeaderLine(SymbolTag, |o.syms|), SYMBOL_COMMENT], SymbolWriter(), o.syms);
  }

  method PutRelocs(lines: seq<string>, o: Object, ghost tail: seq<string>) returns (out: seq<string>)
    ensures out + tail == lines + RelocLines(o, tail)
  {
    out := WriteRows(lines + ["", HeaderLine(RelocTag, |o.relocs|), RELOC_COMMENT], RelocWriter(), o.relocs);
  }

  method WriteObject(fl: Floats, o: Object) returns (lines: seq<string>)
    ensures lines == ObjectLines(fl, o, [])
  {
    ghost var end := ["", ".end"] + [];
    ghost var relocs := RelocLines(o, end);
    ghost var syms := SymbolLines(o, relocs);
    ghost var shared := SharedLines(o, syms);
    ghost var data := DataLines(o, shared);
    lines := PutText(["VO1", ""], fl, o, data);
    lines := PutData(lines, o, shared);
    lines := PutShared(lines, o, syms);
    lines := PutSymbols(lines, o, relocs);
    lines := PutRelocs(lines, o, end);
    lines := lines + ["", ".end"];
  }
}
