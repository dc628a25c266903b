/** The linker: module bases inside the regions of the placement file, the map of the globals, the two
    concatenated images, the relocations, the entry point. */
module Linker {
  import opened Words
  import opened Cpu
  import opened Concatenation
  import opened Objects
  import opened Locator

  const MAX_OBJECTS := 64

  /** The first addresses of the three sections. */
  datatype Origins = Origins(text: int, data: int, shared: int)

  function OriginOf(o: Origins, sec: Section): int {
    match sec
    case Text => o.text
    case Shared => o.shared
    case Data => o.data
    case NoSection => 0
  }

  function RegionOrigin(r: Option<Region>): int { if r.Some? then r.value.value.origin else 0 }

  function OriginsOf(s: Scope): Origins {
    Origins(RegionOrigin(SectionRegion(s, ".text")), RegionOrigin(SectionRegion(s, ".data")),
      RegionOrigin(SectionRegion(s, ".shared")))
  }

  function Base(objs: seq<Object>, o: Origins, sec: Section, m: nat): int
    requires m <= |objs|
  {
    OriginOf(o, sec) + Sum(objs, sec, m)
  }

  // --- names -----------------------------------------------------------------------------------

  /** A symbol with the object that defines it. */
  datatype Definition = Definition(m: nat, sym: Symbol)

  predicate Exported(s: Symbol) { s.binding == Global && s.section != NoSection }

  predicate DefinedHere(s: Symbol, name: string) { s.section != NoSection && s.binding != Extern && s.name == name }

  /** The globals of the first `m` objects, and of the first `k` symbols of object `m`. */
  function Exports(objs: seq<Object>, m: nat, k: nat): (ds: seq<Definition>)
    requires (m < |objs| && k <= |objs[m].syms|) || (m == |objs| && k == 0)
    ensures forall d | d in ds :: d.m < |objs| && Exported(d.sym) && d.sym in objs[d.m].syms
    decreases m, k
  {
    if k > 0 then
      Exports(objs, m, k - 1) + if Exported(objs[m].syms[k - 1]) then [Definition(m, objs[m].syms[k - 1])] else []
    else if m > 0 then Exports(objs, m - 1, |objs[m - 1].syms|)
    else []
  }

  function AllExports(objs: seq<Object>): (ds: seq<Definition>)
    ensures forall d | d in ds :: d.m < |objs| && Exported(d.sym) && d.sym in objs[d.m].syms
  {
    Exports(objs, |objs|, 0)
  }

  predicate Unique(ds: seq<Definition>) { forall i, j | 0 <= i < j < |ds| :: ds[i].sym.name != ds[j].sym.name }

  function GlobalNamed(ds: seq<Definition>, name: string): (d: Option<Definition>)
    ensures d.Some? ==> d.value in ds && d.value.sym.name == name
    ensures d.None? ==> forall e | e in ds :: e.sym.name != name
  {
    if ds == [] then None else if ds[0].sym.name == name then Some(ds[0]) else GlobalNamed(ds[1..], name)
  }

  function Own(m: nat, syms: seq<Symbol>, name: string): (d: Option<Definition>)
    ensures d.Some? ==> d.value.m == m && d.value.sym in syms && DefinedHere(d.value.sym, name)
    ensures d.None? ==> forall s | s in syms :: !DefinedHere(s, name)
  {
    if syms == [] then None
    else if DefinedHere(syms[0], name) then Some(Definition(m, syms[0]))
    else Own(m, syms[1..], name)
  }

  /** What a name means inside object `m`: its own definition first, else the global. */
  function Meaning(objs: seq<Object>, m: nat, name: string): (d: Option<Definition>)
    requires m < |objs|
    ensures d.Some? ==> d.value.m < |objs| && d.value.sym.name == name && d.value.sym.section != NoSection
  {
    var own := Own(m, objs[m].syms, name);
    if own.Some? then own else GlobalNamed(AllExports(objs), name)
  }

  function Address(objs: seq<Object>, o: Origins, d: Definition): int
    requires d.m < |objs|
  {
    Base(objs, o, d.sym.section, d.m) + d.sym.offset
  }

  predicate KindFits(kind: RelocKind, isCode: int) {
    match kind
    case RCode => isCode == 1
    case RData => isCode == 0
    case RAddr => true
  }

  predicate Resolves(objs: seq<Object>, m: nat, r: Reloc)
    requires m < |objs|
  {
    var d := Meaning(objs, m, r.sym);
    d.Some? && KindFits(r.kind, d.value.sym.isCode)
  }

  // --- the instructions ------------------------------------------------------------------------

  /** The one field a relocation writes. */
  function Relocated(ins: Instr, kind: RelocKind, value: int): Instr {
    if kind == RCode then ins.(target := Wrap32(value)) else ins.(imm := value)
  }

  /** Instruction `i` of object `m` after the first `k` relocations of its object. */
  function Patched(objs: seq<Object>, o: Origins, m: nat, i: nat, k: nat): Instr
    requires m < |objs| && i < |objs[m].text| && k <= |objs[m].relocs|
    decreases k
  {
    if k == 0 then objs[m].text[i]
    else
      var (ins, r) := (Patched(objs, o, m, i, k - 1), objs[m].relocs[k - 1]);
      var d := Meaning(objs, m, r.sym);
      if r.site == i && d.Some? then Relocated(ins, r.kind, Address(objs, o, d.value) + r.addend) else ins
  }

  function Linked(objs: seq<Object>, o: Origins, m: nat, i: nat): Instr
    requires m < |objs| && i < |objs[m].text|
  {
    Patched(objs, o, m, i, |objs[m].relocs|)
  }

  // --- what a link is ----------------------------------------------------------------------------

  /** The sections are placed in regions of their space, and fit there. */
  predicate SectionsFit(objs: seq<Object>, s: Scope) {
    var (t, d, h) := (SectionRegion(s, ".text"), SectionRegion(s, ".data"), SectionRegion(s, ".shared"));
    var n := |objs|;
    && t.Some? && d.Some? && t.value.value.unit == CodeSpace && d.value.value.unit == DataSpace
    && (h.None? ==> Sum(objs, Shared, n) == 0)
    && (h.Some? ==> h.value.value.unit == DataSpace && Sum(objs, Shared, n) <= h.value.value.length)
    && n <= MAX_OBJECTS
    && Sum(objs, Text, n) <= t.value.value.length && Sum(objs, Data, n) <= d.value.value.length
    && Base(objs, OriginsOf(s), Text, n) <= MAX_INSTR
  }

  /** The first `k` relocations of object `m` can be done. */
  predicate ResolvesUpTo(objs: seq<Object>, m: nat, k: nat)
    requires m < |objs| && k <= |objs[m].relocs|
  {
    forall j | 0 <= j < k :: Resolves(objs, m, objs[m].relocs[j])
  }

  predicate AllResolve(objs: seq<Object>) {
    forall m | 0 <= m < |objs| :: ResolvesUpTo(objs, m, |objs[m].relocs|)
  }

  predicate IsEntry(d: Definition, name: string) { d.sym.name == name && d.sym.isCode == 1 }

  function EntryOf(ds: seq<Definition>, name: string): (e: Option<Definition>)
    ensures e.Some? ==> e.value in ds && IsEntry(e.value, name)
    ensures e.None? ==> forall d | d in ds :: !IsEntry(d, name)
  {
    if ds == [] then None else if IsEntry(ds[0], name) then Some(ds[0]) else EntryOf(ds[1..], name)
  }

  /** The entry is `main` unless another was asked for, and only one that was asked for must exist. */
  function EntryName(entry: Option<string>): string { if entry.Some? then entry.value else "main" }

  predicate Accepts(objs: seq<Object>, entry: Option<string>, s: Scope) {
    && SectionsFit(objs, s) && Unique(AllExports(objs)) && AllResolve(objs)
    && (entry.Some? ==> EntryOf(AllExports(objs), entry.value).Some?)
  }

  function Mapped(objs: seq<Object>, o: Origins, ds: seq<Definition>): (ms: seq<Symbol>)
    requires forall d | d in ds :: d.m < |objs|
    ensures |ms| == |ds|
  {
    seq(|ds|, j requires 0 <= j < |ds| => assert ds[j] in ds; ds[j].sym.(offset := Address(objs, o, ds[j])))
  }

  predicate SlotIs(objs: seq<Object>, o: Origins, text: seq<Instr>, p: nat)
    requires p < |text| == Sum(objs, Text, |objs|)
  {
    var (m, i) := Locate(objs, Text, p);
    text[p] == Linked(objs, o, m, i)
  }

  predicate ByteIs(objs: seq<Object>, o: Origins, data: seq<byte>, a: nat)
    requires a < |data| == Base(objs, o, Data, |objs|)
  {
    data[a] == ByteAt(objs, o, a)
  }

  /** The image of a list of objects, place by place. */
  predicate IsImage(objs: seq<Object>, entry: Option<string>, s: Scope, img: Image) {
    var (o, n) := (OriginsOf(s), |objs|);
    && |img.text| == Base(objs, o, Text, n) == Sum(objs, Text, n)
    && (forall p | 0 <= p < |img.text| :: SlotIs(objs, o, img.text, p))
    && |img.data| == Base(objs, o, Data, n)
    && (forall a | 0 <= a < |img.data| :: ByteIs(objs, o, img.data, a))
    && img.sharedBase == o.shared && img.shared == Sum(objs, Shared, n)
    && img.symmap == Mapped(objs, o, AllExports(objs))
    && img.entry == var e := EntryOf(AllExports(objs), EntryName(entry));
         if e.Some? then Address(objs, o, e.value) else 0
  }

  /** The byte at an address of the data image: zero below the region, else the datum placed there. */
  function ByteAt(objs: seq<Object>, o: Origins, a: int): byte
    requires a < Base(objs, o, Data, |objs|)
  {
    if a < o.data then 0
    else
      var (m, i) := Locate(objs, Data, a - o.data);
      objs[m].data[i]
  }

  // --- the linker ----------------------------------------------------------------------------------

  /** What the linker is given: objects as the assembler writes them, and a resolved placement whose
      data regions do not start below 0. */
  predicate Given(objs: seq<Object>, s: Scope) {
    && Sound(s) && (forall o | o in objs :: WellFormed(o)) && OriginsOf(s).data >= 0
  }

  method FitSections(objs: seq<Object>, s: Scope) returns (ok: bool)
    requires Given(objs, s)
    ensures ok == SectionsFit(objs, s)
  {
    var rtext := SectionRegion(s, ".text");
    var rdata := SectionRegion(s, ".data");
    if rtext.None? || rdata.None? || rtext.value.value.unit != CodeSpace || rdata.value.value.unit != DataSpace {
      return false;
    }
    var _, shared := AssignBases(Sizes(objs, Shared), 0);
    var rshared := SectionRegion(s, ".shared");
    if shared > 0 && rshared.None? {
      return false;
    }
    if rshared.Some? && rshared.value.value.unit != DataSpace {
      return false;
    }
    if |objs| > MAX_OBJECTS {
      return false;
    }
    var o := OriginsOf(s);
    var _, tcur := AssignBases(Sizes(objs, Text), o.text);
    var _, dcur := AssignBases(Sizes(objs, Data), o.data);
    var _, scur := AssignBases(Sizes(objs, Shared), o.shared);
    if rshared.Some? && scur > End(rshared.value) {
      return false;
    }
    ok := tcur <= End(rtext.value) && dcur <= End(rdata.value) && tcur <= MAX_INSTR;
  }

  lemma {:induction false} ExportsGrow(objs: seq<Object>, m: nat, k: nat)
    requires m < |objs| && k <= |objs[m].syms|
    ensures Exports(objs, m, k) <= AllExports(objs)
    decreases |objs| - m, |objs[m].syms| - k
  {
    if k < |objs[m].syms| {
      ExportsGrow(objs, m, k + 1);
    } else if m + 1 < |objs| {
      ExportsGrow(objs, m + 1, 0);
    }
  }

  lemma MappedSnoc(objs: seq<Object>, o: Origins, ds: seq<Definition>, d: Definition)
    requires d.m < |objs| && forall e | e in ds :: e.m < |objs|
    ensures Mapped(objs, o, ds + [d]) == Mapped(objs, o, ds) + [d.sym.(offset := Address(objs, o, d))]
  {
  }

  /** Adds one symbol to the map unless its name is there already. */
  method AddGlobal(objs: seq<Object>, o: Origins, table: seq<Symbol>, m: nat, i: nat) returns (out: Option<seq<Symbol>>)
    requires m < |objs| && i < |objs[m].syms|
    requires Unique(Exports(objs, m, i)) && table == Mapped(objs, o, Exports(objs, m, i))
    ensures var after := Exports(objs, m, i + 1);
      out == if Unique(after) then Some(Mapped(objs, o, after)) else None
  {
    var s := objs[m].syms[i];
    ghost var (before, after) := (Exports(objs, m, i), Exports(objs, m, i + 1));
    if s.binding == Global && s.section != NoSection {
      assert after == before + [Definition(m, s)];
      var j := 0;
      while j < |table| && table[j].name != s.name
        invariant j <= |table| && forall k | 0 <= k < j :: before[k].sym.name != s.name
      {
        j := j + 1;
      }
      if j < |table| {
        assert after[j].sym.name == after[|before|].sym.name;
        return None;
      }
      MappedSnoc(objs, o, before, Definition(m, s));
      assert Unique(after);
      return Some(table + [s.(offset := Base(objs, o, s.section, m) + s.offset)]);
    }
    assert after == before;
    out := Some(table);
  }

  /** The map of the globals, refused at the first name met twice. */
  method MapGlobals(objs: seq<Object>, o: Origins) returns (symmap: Option<seq<Symbol>>)
    ensures symmap == if Unique(AllExports(objs)) then Some(Mapped(objs, o, AllExports(objs))) else None
  {
    symmap := Some([]);
    for m := 0 to |objs|
      invariant Unique(Exports(objs, m, 0)) && symmap == Some(Mapped(objs, o, Exports(objs, m, 0)))
    {
      for i := 0 to |objs[m].syms|
        invariant Unique(Exports(objs, m, i)) && symmap == Some(Mapped(objs, o, Exports(objs, m, i)))
      {
        symmap := AddGlobal(objs, o, symmap.value, m, i);
        if symmap.None? {
          ExportsGrow(objs, m, i + 1);
          return;
        }
      }
    }
  }

  /** The value and the kind of a name in object `m`. */
  method ResolveName(objs: seq<Object>, o: Origins, symmap: seq<Symbol>, m: nat, name: string)
    returns (value: Option<(int, int)>)
    requires m < |objs| && symmap == Mapped(objs, o, AllExports(objs))
    ensures var d := Meaning(objs, m, name);
      value == if d.Some? then Some((Address(objs, o, d.value), d.value.sym.isCode)) else None
  {
    var syms := objs[m].syms;
    var j := 0;
    while j < |syms|
      invariant j <= |syms| && Own(m, syms[j..], name) == Own(m, syms, name)
    {
      assert syms[j..][1..] == syms[j + 1..];
      if DefinedHere(syms[j], name) {
        return Some((Base(objs, o, syms[j].section, m) + syms[j].offset, syms[j].isCode));
      }
      j := j + 1;
    }
    ghost var all := AllExports(objs);
    j := 0;
    while j < |symmap|
      invariant j <= |symmap| && GlobalNamed(all[j..], name) == GlobalNamed(all, name)
    {
      assert all[j..][1..] == all[j + 1..] && symmap[j].name == all[j].sym.name;
      if symmap[j].name == name {
        return Some((symmap[j].offset, symmap[j].isCode));
      }
      j := j + 1;
    }
    value := None;
  }

  /** How many of object `n`'s relocations are done when the first `k` of object `m` are. */
  function Progress(objs: seq<Object>, m: nat, k: nat, n: nat): (c: nat)
    requires m <= |objs| && n < |objs| && (m < |objs| ==> k <= |objs[m].relocs|)
    ensures c <= |objs[n].relocs|
  {
    if n < m then |objs[n].relocs| else if n == m then k else 0
  }

  /** The instruction expected in slot `p` when the first `k` relocations of object `m` are done. */
  function Expected(objs: seq<Object>, o: Origins, m: nat, k: nat, p: nat): Instr
    requires m <= |objs| && (m < |objs| ==> k <= |objs[m].relocs|) && p < Sum(objs, Text, |objs|)
  {
    var (n, i) := Locate(objs, Text, p);
    Patched(objs, o, n, i, Progress(objs, m, k, n))
  }

  predicate PatchedUpTo(objs: seq<Object>, o: Origins, text: seq<Instr>, m: nat, k: nat)
    requires m <= |objs| && (m < |objs| ==> k <= |objs[m].relocs|)
  {
    && |text| == Sum(objs, Text, |objs|)
    && forall p | 0 <= p < |text| :: text[p] == Expected(objs, o, m, k, p)
  }

  /** A relocation changes what is expected of its own slot only. */
  lemma ExpectedStep(objs: seq<Object>, o: Origins, m: nat, k: nat, p: nat)
    requires m < |objs| && k < |objs[m].relocs| && WellFormed(objs[m]) && p < Sum(objs, Text, |objs|)
    requires Resolves(objs, m, objs[m].relocs[k])
    ensures var was := Expected(objs, o, m, k, p);
      Expected(objs, o, m, k + 1, p) ==
        if p == SiteOf(objs, m, k) then Relocated(was, objs[m].relocs[k].kind, ValueOf(objs, o, m, k)) else was
  {
    var r := objs[m].relocs[k];
    assert r in objs[m].relocs;
    LocateInverse(objs, Text, m, r.site);
    var (n, i) := Locate(objs, Text, p);
    if n == m {
      assert Progress(objs, m, k + 1, n) == k + 1 && Progress(objs, m, k, n) == k;
    } else {
      assert Progress(objs, m, k + 1, n) == Progress(objs, m, k, n);
    }
  }

  /** The slot and the value of the k-th relocation of object `m`. */
  function SiteOf(objs: seq<Object>, m: nat, k: nat): int
    requires m < |objs| && k < |objs[m].relocs|
  {
    Sum(objs, Text, m) + objs[m].relocs[k].site
  }

  function ValueOf(objs: seq<Object>, o: Origins, m: nat, k: nat): int
    requires m < |objs| && k < |objs[m].relocs| && Resolves(objs, m, objs[m].relocs[k])
  {
    var r := objs[m].relocs[k];
    Address(objs, o, Meaning(objs, m, r.sym).value) + r.addend
  }

  lemma OnePatch(objs: seq<Object>, o: Origins, text: seq<Instr>, m: nat, k: nat)
    requires m < |objs| && k < |objs[m].relocs| && WellFormed(objs[m])
    requires PatchedUpTo(objs, o, text, m, k) && Resolves(objs, m, objs[m].relocs[k])
    ensures var site := SiteOf(objs, m, k);
      && 0 <= site < |text|
      && var patched := Relocated(text[site], objs[m].relocs[k].kind, ValueOf(objs, o, m, k));
      PatchedUpTo(objs, o, text[site := patched], m, k + 1)
  {
    var r := objs[m].relocs[k];
    assert r in objs[m].relocs;
    LocateInverse(objs, Text, m, r.site);
    forall p | 0 <= p < |text|
      ensures Expected(objs, o, m, k + 1, p) ==
        if p == SiteOf(objs, m, k) then Relocated(text[p], r.kind, ValueOf(objs, o, m, k)) else text[p]
    {
      ExpectedStep(objs, o, m, k, p);
    }
  }

  method PatchSlot(text: array<Instr>, site: nat, ins: Instr)
    requires site < text.Length
    modifies text
    ensures text[..] == old(text[..])[site := ins]
  {
    text[site] := ins;
  }

  /** One relocation, on the one instruction it names. */
  method RelocateOne(objs: seq<Object>, o: Origins, symmap: seq<Symbol>, text: array<Instr>, m: nat, k: nat)
    returns (ok: bool)
    requires m < |objs| && k < |objs[m].relocs| && WellFormed(objs[m]) && o.text == 0
    requires symmap == Mapped(objs, o, AllExports(objs)) && PatchedUpTo(objs, o, text[..], m, k)
    modifies text
    ensures ok == Resolves(objs, m, objs[m].relocs[k])
    ensures ok ==> PatchedUpTo(objs, o, text[..], m, k + 1)
  {
    var r := objs[m].relocs[k];
    var found := ResolveName(objs, o, symmap, m, r.sym);
    if found.None? || !KindFits(r.kind, found.value.1) {
      return false;
    }
    var value := found.value.0 + r.addend;
    var site := Base(objs, o, Text, m) + r.site;
    assert site == SiteOf(objs, m, k) && value == ValueOf(objs, o, m, k);
    OnePatch(objs, o, text[..], m, k);
    PatchSlot(text, site, Relocated(text[site], r.kind, value));
    ok := true;
  }

  lemma NextObject(objs: seq<Object>, o: Origins, text: seq<Instr>, m: nat)
    requires m < |objs| && PatchedUpTo(objs, o, text, m, |objs[m].relocs|)
    ensures PatchedUpTo(objs, o, text, m + 1, 0)
  {
    forall p | 0 <= p < |text|
      ensures Expected(objs, o, m, |objs[m].relocs|, p) == Expected(objs, o, m + 1, 0, p)
    {
    }
  }

  method RelocateObject(objs: seq<Object>, o: Origins, symmap: seq<Symbol>, text: array<Instr>, m: nat)
    returns (ok: bool)
    requires m < |objs| && WellFormed(objs[m]) && o.text == 0
    requires symmap == Mapped(objs, o, AllExports(objs)) && PatchedUpTo(objs, o, text[..], m, 0)
    modifies text
    ensures ok == ResolvesUpTo(objs, m, |objs[m].relocs|)
    ensures ok ==> PatchedUpTo(objs, o, text[..], m, |objs[m].relocs|)
  {
    for k := 0 to |objs[m].relocs|
      invariant PatchedUpTo(objs, o, text[..], m, k) && ResolvesUpTo(objs, m, k)
    {
      ok := RelocateOne(objs, o, symmap, text, m, k);
      if !ok {
        return;
      }
    }
    ok := true;
  }

  method Relocate(objs: seq<Object>, o: Origins, symmap: seq<Symbol>, text: array<Instr>) returns (ok: bool)
    requires (forall m | 0 <= m < |objs| :: WellFormed(objs[m])) && o.text == 0
    requires symmap == Mapped(objs, o, AllExports(objs)) && PatchedUpTo(objs, o, text[..], 0, 0)
    modifies text
    ensures ok == AllResolve(objs)
    ensures ok ==> PatchedUpTo(objs, o, text[..], |objs|, 0)
  {
    for m := 0 to |objs|
      invariant PatchedUpTo(objs, o, text[..], m, 0)
      invariant forall n | 0 <= n < m :: ResolvesUpTo(objs, n, |objs[n].relocs|)
    {
      ok := RelocateObject(objs, o, symmap, text, m);
      if !ok {
        return;
      }
      NextObject(objs, o, text[..], m);
    }
    ok := true;
  }

  method FindEntry(objs: seq<Object>, o: Origins, symmap: seq<Symbol>, name: string) returns (entry: Option<int>)
    requires symmap == Mapped(objs, o, AllExports(objs))
    ensures var e := EntryOf(AllExports(objs), name);
      entry == if e.Some? then Some(Address(objs, o, e.value)) else None
  {
    ghost var all := AllExports(objs);
    var j := 0;
    while j < |symmap|
      invariant j <= |symmap| && EntryOf(all[j..], name) == EntryOf(all, name)
    {
      assert all[j..][1..] == all[j + 1..];
      assert symmap[j].name == all[j].sym.name && symmap[j].isCode == all[j].sym.isCode;
      if symmap[j].name == name && symmap[j].isCode == 1 {
        return Some(symmap[j].offset);
      }
      j := j + 1;
    }
    entry := None;
  }

  /** The entry point: an entry asked for must exist, `main` need not. */
  method EntryPoint(objs: seq<Object>, o: Origins, symmap: seq<Symbol>, entry: Option<string>)
    returns (start: Option<int>)
    requires symmap == Mapped(objs, o, AllExports(objs))
    ensures var e := EntryOf(AllExports(objs), EntryName(entry));
      start == if e.Some? then Some(Address(objs, o, e.value)) else if entry.Some? then None else Some(0)
  {
    start := FindEntry(objs, o, symmap, if entry.Some? then entry.value else "main");
    if start.None? && entry.None? {
      start := Some(0);
    }
  }

  /** Concatenates the texts. */
  method ConcatenateText(objs: seq<Object>) returns (text: array<Instr>)
    ensures fresh(text) && text.Length == Sum(objs, Text, |objs|)
    ensures forall p | 0 <= p < text.Length ::
      var (m, i) := Locate(objs, Text, p); text[p] == objs[m].text[i]
  {
    var parts := seq(|objs|, m requires 0 <= m < |objs| => objs[m].text);
    assert Lengths(parts) == Sizes(objs, Text);
    text := new Instr[Total(Lengths(parts), |parts|)](i => Instr(LI, 0, 0, 0, 0, 0, 0));
    Concatenate(parts, 0, text);
    forall p | 0 <= p < text.Length
      ensures var (m, i) := Locate(objs, Text, p); text[p] == objs[m].text[i]
    {
      assert text[p] == PartAt(parts, p);
    }
  }

  /** Concatenates the data behind the guard, which stays zero. */
  method ConcatenateData(objs: seq<Object>, o: Origins) returns (data: array<byte>)
    requires o.data >= 0
    ensures fresh(data) && data.Length == Base(objs, o, Data, |objs|)
    ensures forall a | 0 <= a < data.Length :: data[a] == ByteAt(objs, o, a)
  {
    var parts := seq(|objs|, m requires 0 <= m < |objs| => objs[m].data);
    assert Lengths(parts) == Sizes(objs, Data);
    data := new byte[o.data + Total(Lengths(parts), |parts|)](i => 0);
    Concatenate(parts, o.data, data);
    forall a | 0 <= a < data.Length
      ensures data[a] == ByteAt(objs, o, a)
    {
      assert a >= o.data ==> data[a] == PartAt(parts, a - o.data);
    }
  }

  /** The whole link: refused exactly when the sections do not fit, a global is defined twice, a name is
      undefined or of the wrong kind, or the entry asked for does not exist. */
  method LinkObjects(objs: seq<Object>, entry: Option<string>, s: Scope) returns (img: Option<Image>)
    requires Given(objs, s)
    ensures img.Some? <==> Accepts(objs, entry, s)
    ensures img.Some? ==> IsImage(objs, entry, s, img.value)
  {
    var fits := FitSections(objs, s);
    if !fits {
      return None;
    }
    var o := OriginsOf(s);
    var symmap := MapGlobals(objs, o);
    if symmap.None? {
      return None;
    }
    var text := ConcatenateText(objs);
    var data := ConcatenateData(objs, o);
    var relocated := Relocate(objs, o, symmap.value, text);
    if !relocated {
      return None;
    }
    var start := EntryPoint(objs, o, symmap.value, entry);
    if start.None? {
      return None;
    }
    var _, shared := AssignBases(Sizes(objs, Shared), 0);
    img := Some(Image(text[..], data[..], o.shared, shared, symmap.value, start.value));
  }
}
