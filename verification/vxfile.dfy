/** Executable files (.vx): writer, reader, and what reading gives back. */
module ImageFile {
  import opened Objects
  import opened Locator
  import opened LineText
  import opened Formats
  import ObjectFile

  const EMPTY: Image := Image([], [], 0, 0, [], 0)

  datatype Tag = EntryTag | TextTag | DataTag | SharedTag | MapTag | EndTag | OtherTag

  function TagName(t: Tag): string {
    match t
    case EntryTag => ".entry"
    case TextTag => ".text"
    case DataTag => ".data"
    case SharedTag => ".shared"
    case MapTag => ".symmap"
    case EndTag => ".end"
    case OtherTag => "."
  }

  function TagOf(w: string): Tag {
    if w == ".entry" then EntryTag else if w == ".text" then TextTag else if w == ".data" then DataTag
    else if w == ".shared" then SharedTag else if w == ".symmap" then MapTag else if w == ".end" then EndTag
    else OtherTag
  }

  lemma TagReadBack(t: Tag)
    ensures TagOf(TagName(t)) == t && IsWord(TagName(t)) && !Silent(TagName(t))
  {
  }

  // --- rows of the symbol map ----------------------------------------------------------------------

  function MapWords(s: Symbol): seq<string> {
    [s.name, SectionName(s.section), Decimal(s.offset), Decimal(s.size), Decimal(s.isCode)]
  }

  /** Every symbol of an image is a global. */
  function ParseMapped(line: string): Option<Symbol> {
    var w := WordsOf(line);
    if |w| < 5 || DecimalValue(w[2]).None? || DecimalValue(w[3]).None? || DecimalValue(w[4]).None? then None
    else Some(Symbol(w[0], SectionOf(w[1]), DecimalValue(w[2]).value, DecimalValue(w[3]).value, Global,
                     DecimalValue(w[4]).value))
  }

  lemma MappedReadBack(s: Symbol)
    requires NameOk(s.name) && s.binding == Global
    ensures ParseMapped(Join(MapWords(s))) == Some(s) && !Silent(Join(MapWords(s)))
  {
    NamesReadBack(s.section, s.binding);
    SplitJoin(MapWords(s));
    JoinStarts(MapWords(s));
    DecimalReadBack(s.offset);
    DecimalReadBack(s.size);
    DecimalReadBack(s.isCode);
  }

  function MapParser(): string -> Option<Symbol> { line => ParseMapped(line) }

  function MapWriter(): (nat, Symbol) -> string { (i: nat, s: Symbol) => Join(MapWords(s)) }

  function MapRows(syms: seq<Symbol>): seq<string> { RowsFrom(MapWriter(), syms, 0) }

  lemma MapReadBack(syms: seq<Symbol>, rest: seq<string>)
    requires forall s | s in syms :: NameOk(s.name) && s.binding == Global
    ensures ReadRows(MapParser(), MapRows(syms) + rest, |syms|, []) == Some((syms, rest))
    ensures forall l | l in MapRows(syms) :: !Silent(l)
  {
    forall i | 0 <= i < |syms|
      ensures MapParser()(MapWriter()(i, syms[i])) == Some(syms[i]) && !Silent(MapWriter()(i, syms[i]))
    {
      MappedReadBack(syms[i]);
    }
    RowsReadBack(MapWriter(), MapParser(), syms, 0, rest);
    assert syms[..0] == [];
  }

  // --- the reader -------------------------------------------------------------------------------------

  /** The tag, the first number after it, 0 if there is none, and the second, if there are two. */
  function Header(line: string): (Tag, int, Option<int>) {
    var w := WordsOf(line);
    var first := if |w| < 2 then None else DecimalValue(w[1]);
    (if w == [] then OtherTag else TagOf(w[0]), if first.None? then 0 else first.value,
     if |w| < 3 || first.None? then None else DecimalValue(w[2]))
  }

  function ReadPart(fl: Floats, img: Image, tag: Tag, n: int, second: Option<int>, ms: seq<string>): (r: Reading<Image>)
    ensures r.Some? ==> |r.value.1| <= |ms|
  {
    match tag
    case EntryTag => Some((img.(entry := n), ms))
    case TextTag =>
      With(ReadRows(ObjectFile.InstrParser(fl), ms, ObjectFile.Count(n), []), rows => img.(text := rows))
    case DataTag =>
      With(ReadBytes(ObjectFile.BytesParser(), ms, ObjectFile.Count(n), []), bs => img.(data := bs))
    case SharedTag =>
      if second.None? then None else Some((img.(sharedBase := n, shared := ObjectFile.Count(second.value)), ms))
    case MapTag =>
      With(ReadRows(MapParser(), ms, ObjectFile.Count(n), img.symmap), rows => img.(symmap := rows))
    case _ => Some((img, ms))
  }

  function ReadParts(fl: Floats, img: Image, ms: seq<string>): Option<Image>
    decreases |ms|
  {
    if ms == [] then Some(img)
    else
      var (tag, n, second) := Header(ms[0]);
      if tag == EndTag then Some(img)
      else
        match ReadPart(fl, img, tag, n, second, ms[1..])
        case None => None
        case Some(p) => ReadParts(fl, p.0, p.1)
  }

  function ReadImage(fl: Floats, ms: seq<string>): Option<Image> {
    if ms == [] || !("VX1" <= ms[0]) then None else ReadParts(fl, EMPTY, ms[1..])
  }

  // --- the writer --------------------------------------------------------------------------------------

  function One(tag: Tag, n: int): string { Join([TagName(tag), Decimal(n)]) }

  function Two(tag: Tag, n: int, k: int): string { Join([TagName(tag), Decimal(n), Decimal(k)]) }

  const MAP_COMMENT := "; name section value size is_code"

  function TextLines(fl: Floats, img: Image, tail: seq<string>): seq<string> {
    [One(TextTag, |img.text|), ObjectFile.INSTR_COMMENT] + (ObjectFile.TextRows(fl, img.text) + tail)
  }

  function DataLines(img: Image, tail: seq<string>): seq<string> {
    ["", One(DataTag, |img.data|)] + (ObjectFile.AllDataRows(img.data) + tail)
  }

  function SharedLines(img: Image, tail: seq<string>): seq<string> {
    if img.shared > 0 then ["", Two(SharedTag, img.sharedBase, img.shared)] + ([] + tail) else tail
  }

  function MapLines(img: Image, tail: seq<string>): seq<string> {
    ["", One(MapTag, |img.symmap|), MAP_COMMENT] + (MapRows(img.symmap) + tail)
  }

  function ImageLines(fl: Floats, img: Image): seq<string> {
    ["VX1"] + (["", One(EntryTag, img.entry), ""]
    + TextLines(fl, img, DataLines(img, SharedLines(img, MapLines(img, ["", ".end"])))))
  }

  predicate Printable(img: Image) { forall s | s in img.symmap :: NameOk(s.name) && s.binding == Global }

  // --- there and back ------------------------------------------------------------------------------------

  lemma OneReadBack(tag: Tag, n: int)
    ensures Header(One(tag, n)) == (tag, n, None) && !Silent(One(tag, n))
  {
    TagReadBack(tag);
    SplitJoin([TagName(tag), Decimal(n)]);
    JoinStarts([TagName(tag), Decimal(n)]);
    DecimalReadBack(n);
  }

  lemma TwoReadBack(tag: Tag, n: int, k: int)
    ensures Header(Two(tag, n, k)) == (tag, n, Some(k)) && !Silent(Two(tag, n, k))
  {
    TagReadBack(tag);
    SplitJoin([TagName(tag), Decimal(n), Decimal(k)]);
    JoinStarts([TagName(tag), Decimal(n), Decimal(k)]);
    DecimalReadBack(n);
    DecimalReadBack(k);
  }

  lemma PartStep(fl: Floats, img: Image, header: string, rows: seq<string>, tail: seq<string>, p: Image)
    requires var (tag, n, second) := Header(header);
      tag != EndTag && ReadPart(fl, img, tag, n, second, rows + tail) == Some((p, tail))
    ensures ReadParts(fl, img, [header] + (rows + tail)) == ReadParts(fl, p, tail)
  {
    assert ([header] + (rows + tail))[1..] == rows + tail;
  }

  function TextPart(fl: Floats, img: Image, tail: seq<string>): seq<string> {
    [One(TextTag, |img.text|)] + (ObjectFile.TextRows(fl, img.text) + tail)
  }

  function DataPart(img: Image, tail: seq<string>): seq<string> {
    [One(DataTag, |img.data|)] + (ObjectFile.AllDataRows(img.data) + tail)
  }

  function SharedPart(img: Image, tail: seq<string>): seq<string> {
    if img.shared > 0 then [Two(SharedTag, img.sharedBase, img.shared)] + ([] + tail) else tail
  }

  function MapPart(img: Image, tail: seq<string>): seq<string> {
    [One(MapTag, |img.symmap|)] + (MapRows(img.symmap) + tail)
  }

  lemma TextPartBack(fl: Floats, img: Image, p: Image, tail: seq<string>)
    requires Invertible(fl)
    ensures ReadParts(fl, p, TextPart(fl, img, tail)) == ReadParts(fl, p.(text := img.text), tail)
  {
    ObjectFile.TextReadBack(fl, img.text, tail);
    OneReadBack(TextTag, |img.text|);
    PartStep(fl, p, One(TextTag, |img.text|), ObjectFile.TextRows(fl, img.text), tail, p.(text := img.text));
  }

  lemma DataPartBack(fl: Floats, img: Image, p: Image, tail: seq<string>)
    ensures ReadParts(fl, p, DataPart(img, tail)) == ReadParts(fl, p.(data := img.data), tail)
  {
    ObjectFile.AllDataReadBack(img.data, tail);
    OneReadBack(DataTag, |img.data|);
    PartStep(fl, p, One(DataTag, |img.data|), ObjectFile.AllDataRows(img.data), tail, p.(data := img.data));
  }

  /** The base survives only if something is reserved. */
  function BaseRead(img: Image): int { if img.shared > 0 then img.sharedBase else 0 }

  lemma SharedPartBack(fl: Floats, img: Image, p: Image, tail: seq<string>)
    requires p.shared == 0 && p.sharedBase == 0
    ensures ReadParts(fl, p, SharedPart(img, tail)) ==
      ReadParts(fl, p.(sharedBase := BaseRead(img), shared := img.shared), tail)
  {
    if img.shared > 0 {
      assert [] + tail == tail;
      TwoReadBack(SharedTag, img.sharedBase, img.shared);
      PartStep(fl, p, Two(SharedTag, img.sharedBase, img.shared), [], tail,
        p.(sharedBase := img.sharedBase, shared := img.shared));
    } else {
      assert p == p.(sharedBase := 0, shared := img.shared);
    }
  }

  lemma MapPartBack(fl: Floats, img: Image, p: Image, tail: seq<string>)
    requires Printable(img) && p.symmap == []
    ensures ReadParts(fl, p, MapPart(img, tail)) == ReadParts(fl, p.(symmap := img.symmap), tail)
  {
    MapReadBack(img.symmap, tail);
    OneReadBack(MapTag, |img.symmap|);
    PartStep(fl, p, One(MapTag, |img.symmap|), MapRows(img.symmap), tail, p.(symmap := img.symmap));
  }

  lemma EntryPartBack(fl: Floats, img: Image, p: Image, tail: seq<string>)
    ensures ReadParts(fl, p, [One(EntryTag, img.entry)] + tail) == ReadParts(fl, p.(entry := img.entry), tail)
  {
    OneReadBack(EntryTag, img.entry);
    assert [] + tail == tail;
    PartStep(fl, p, One(EntryTag, img.entry), [], tail, p.(entry := img.entry));
  }

  lemma EndPartBack(fl: Floats, p: Image)
    ensures ReadParts(fl, p, [".end"]) == Some(p)
  {
    SplitJoin([".end"]);
    assert Join([".end"]) == ".end";
  }

  /** Of a header with blank and comment lines around it the header remains. */
  lemma HeaderSpeaks(header: string, before: seq<string>, after: seq<string>)
    requires !Silent(header)
    requires before in {[], [""]} && after in {[], [""], [ObjectFile.INSTR_COMMENT], [MAP_COMMENT]}
    ensures Meaningful(before + ([header] + after)) == [header]
  {
    ObjectFile.SilentLines();
    MeaningfulJoin(before, [header] + after);
    MeaningfulJoin([header], after);
    AllMeaningful([header]);
    ObjectFile.OneSilent("");
    ObjectFile.OneSilent(ObjectFile.INSTR_COMMENT);
    assert MAP_COMMENT[0] == ';';
    ObjectFile.OneSilent(MAP_COMMENT);
  }

  lemma TextLinesSpeak(fl: Floats, img: Image, tail: seq<string>)
    requires Invertible(fl)
    ensures Meaningful(TextLines(fl, img, tail)) == TextPart(fl, img, Meaningful(tail))
  {
    var header := One(TextTag, |img.text|);
    ObjectFile.TextReadBack(fl, img.text, []);
    OneReadBack(TextTag, |img.text|);
    HeaderSpeaks(header, [], [ObjectFile.INSTR_COMMENT]);
    assert [header, ObjectFile.INSTR_COMMENT] == [] + ([header] + [ObjectFile.INSTR_COMMENT]);
    ObjectFile.PartSpeaks([header, ObjectFile.INSTR_COMMENT], ObjectFile.TextRows(fl, img.text), tail);
  }

  lemma DataLinesSpeak(img: Image, tail: seq<string>)
    ensures Meaningful(DataLines(img, tail)) == DataPart(img, Meaningful(tail))
  {
    var header := One(DataTag, |img.data|);
    ObjectFile.AllDataReadBack(img.data, []);
    OneReadBack(DataTag, |img.data|);
    HeaderSpeaks(header, [""], []);
    assert ["", header] == [""] + ([header] + []);
    ObjectFile.PartSpeaks(["", header], ObjectFile.AllDataRows(img.data), tail);
  }

  lemma SharedLinesSpeak(img: Image, tail: seq<string>)
    ensures Meaningful(SharedLines(img, tail)) == SharedPart(img, Meaningful(tail))
  {
    if img.shared > 0 {
      var header := Two(SharedTag, img.sharedBase, img.shared);
      TwoReadBack(SharedTag, img.sharedBase, img.shared);
      HeaderSpeaks(header, [""], []);
      assert ["", header] == [""] + ([header] + []);
      ObjectFile.PartSpeaks(["", header], [], tail);
    }
  }

  lemma MapLinesSpeak(img: Image, tail: seq<string>)
    requires Printable(img)
    ensures Meaningful(MapLines(img, tail)) == MapPart(img, Meaningful(tail))
  {
    var header := One(MapTag, |img.symmap|);
    MapReadBack(img.symmap, []);
    OneReadBack(MapTag, |img.symmap|);
    HeaderSpeaks(header, [""], [MAP_COMMENT]);
    assert ["", header, MAP_COMMENT] == [""] + ([header] + [MAP_COMMENT]);
    ObjectFile.PartSpeaks(["", header, MAP_COMMENT], MapRows(img.symmap), tail);
  }

  lemma LeadSpeaks(img: Image, tail: seq<string>)
    ensures Meaningful(["VX1"] + (["", One(EntryTag, img.entry), ""] + tail)) ==
      ["VX1"] + ([One(EntryTag, img.entry)] + Meaningful(tail))
  {
    MagicSpeaks();
    EntrySpeaks(img.entry);
    JoinedParts(["VX1"], ["", One(EntryTag, img.entry), ""], tail);
  }

  lemma JoinedParts(first: seq<string>, second: seq<string>, tail: seq<string>)
    ensures Meaningful(first + (second + tail)) == Meaningful(first) + (Meaningful(second) + Meaningful(tail))
  {
    MeaningfulJoin(first, second + tail);
    MeaningfulJoin(second, tail);
  }

  lemma MagicSpeaks()
    ensures Meaningful(["VX1"]) == ["VX1"]
  {
    assert !Silent("VX1");
    AllMeaningful(["VX1"]);
  }

  lemma EntrySpeaks(entry: int)
    ensures Meaningful(["", One(EntryTag, entry), ""]) == [One(EntryTag, entry)]
  {
    var header := One(EntryTag, entry);
    OneReadBack(EntryTag, entry);
    HeaderSpeaks(header, [""], [""]);
    assert ["", header, ""] == [""] + ([header] + [""]);
  }

  function ImagePart(fl: Floats, img: Image): seq<string> {
    TextPart(fl, img, DataPart(img, SharedPart(img, MapPart(img, [".end"]))))
  }

  lemma ImageSpeaks(fl: Floats, img: Image)
    requires Printable(img) && Invertible(fl)
    ensures Meaningful(ImageLines(fl, img)) == ["VX1"] + ([One(EntryTag, img.entry)] + ImagePart(fl, img))
  {
    ObjectFile.EndSpeaks([]);
    assert ["", ".end"] + [] == ["", ".end"] && [".end"] + [] == [".end"];
    var symmap := MapLines(img, ["", ".end"]);
    MapLinesSpeak(img, ["", ".end"]);
    SharedLinesSpeak(img, symmap);
    DataLinesSpeak(img, SharedLines(img, symmap));
    TextLinesSpeak(fl, img, DataLines(img, SharedLines(img, symmap)));
    LeadSpeaks(img, TextLines(fl, img, DataLines(img, SharedLines(img, symmap))));
  }

  lemma ImagePartBack(fl: Floats, img: Image, entry: int)
    requires Printable(img) && Invertible(fl)
    ensures ReadParts(fl, Image([], [], 0, 0, [], entry), ImagePart(fl, img)) ==
      Some(img.(sharedBase := BaseRead(img), entry := entry))
  {
    var symmap := MapPart(img, [".end"]);
    var shared := SharedPart(img, symmap);
    TextPartBack(fl, img, Image([], [], 0, 0, [], entry), DataPart(img, shared));
    DataPartBack(fl, img, Image(img.text, [], 0, 0, [], entry), shared);
    SharedPartBack(fl, img, Image(img.text, img.data, 0, 0, [], entry), symmap);
    MapPartBack(fl, img, Image(img.text, img.data, BaseRead(img), img.shared, [], entry), [".end"]);
    EndPartBack(fl, Image(img.text, img.data, BaseRead(img), img.shared, img.symmap, entry));
  }

  /** Reading an executable gives the image, except that the base of the shared memory is written only
      when some of it is reserved; with none reserved it reads as 0. */
  lemma ImageReadBack(fl: Floats, img: Image)
    requires Printable(img) && Invertible(fl)
    ensures ReadImage(fl, Meaningful(ImageLines(fl, img))) == Some(img.(sharedBase := BaseRead(img)))
  {
    ImageSpeaks(fl, img);
    var rest := [One(EntryTag, img.entry)] + ImagePart(fl, img);
    assert (["VX1"] + rest)[1..] == rest;
    EntryPartBack(fl, img, EMPTY, ImagePart(fl, img));
    ImagePartBack(fl, img, img.entry);
  }

  // --- the loop --------------------------------------------------------------------------------------------

  method LoadPart(fp: Stream, fl: Floats, img: Image, tag: Tag, n: int, second: Option<int>)
    returns (p: Option<Image>)
    requires fp.Valid()
    modifies fp
    ensures fp.Valid() && ObjectFile.Agrees(p, fp.Rest(), ReadPart(fl, img, tag, n, second, old(fp.Rest())))
  {
    match tag {
      case EntryTag => p := Some(img.(entry := n));
      case TextTag =>
        var rows := ObjectFile.LoadRows(fp, ObjectFile.InstrParser(fl), ObjectFile.Count(n), []);
        p := if rows.None? then None else Some(img.(text := rows.value));
      case DataTag =>
        var data := ObjectFile.LoadBytes(fp, ObjectFile.Count(n));
        p := if data.None? then None else Some(img.(data := data.value));
      case SharedTag =>
        p := if second.None? then None
             else Some(img.(sharedBase := n, shared := ObjectFile.Count(second.value)));
      case MapTag =>
        var rows := ObjectFile.LoadRows(fp, MapParser(), ObjectFile.Count(n), img.symmap);
        p := if rows.None? then None else Some(img.(symmap := rows.value));
      case _ => p := Some(img);
    }
  }

  method LoadImage(fp: Stream, fl: Floats) returns (img: Option<Image>)
    requires fp.Valid()
    modifies fp
    ensures img == ReadImage(fl, old(fp.Rest()))
  {
    var magic := fp.NextLine();
    if magic.None? || !("VX1" <= magic.value) {
      return None;
    }
    var p := EMPTY;
    while true
      invariant fp.Valid() && ReadParts(fl, p, fp.Rest()) == ReadImage(fl, old(fp.Rest()))
      decreases |fp.Rest()|
    {
      var line := fp.NextLine();
      if line.None? {
        return Some(p);
      }
      var (tag, n, second) := Header(line.value);
      if tag == EndTag {
        return Some(p);
      }
      var q := LoadPart(fp, fl, p, tag, n, second);
      if q.None? {
        return None;
      }
      p := q.value;
    }
  }
}
