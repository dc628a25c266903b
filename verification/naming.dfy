/** Whose definition a name is, said of the objects alone: a module's own comes first, and only exported
    ones are seen from elsewhere. */
module LinkNames {
  import opened Words
  import opened Objects
  import opened Locator
  import opened Linker
  import opened LinkMeaning

  // --- symbols of an object ---------------------------------------------------------------------------

  predicate DefinedAt(syms: seq<Symbol>, j: int, name: string) {
    0 <= j < |syms| && syms[j].name == name && syms[j].section != NoSection && syms[j].binding != Extern
  }

  predicate ExportedAt(syms: seq<Symbol>, j: int, name: string) {
    0 <= j < |syms| && syms[j].name == name && syms[j].section != NoSection && syms[j].binding == Global
  }

  /** Symbol j is the first definition under that name in its object. */
  predicate FirstAt(syms: seq<Symbol>, j: int, name: string) {
    DefinedAt(syms, j, name) && forall i | 0 <= i < j :: !DefinedAt(syms, i, name)
  }

  predicate NotDefined(syms: seq<Symbol>, name: string) { forall i | 0 <= i < |syms| :: !DefinedAt(syms, i, name) }

  lemma {:induction false} OwnIsFirst(m: nat, syms: seq<Symbol>, j: nat, name: string)
    requires FirstAt(syms, j, name)
    ensures Own(m, syms, name) == Some(Definition(m, syms[j]))
  {
    if j > 0 {
      assert !DefinedAt(syms, 0, name);
      forall i | 0 <= i < j - 1
        ensures !DefinedAt(syms[1..], i, name)
      {
        assert !DefinedAt(syms, i + 1, name);
      }
      OwnIsFirst(m, syms[1..], j - 1, name);
    }
  }

  // --- where a name leads -------------------------------------------------------------------------------

  /** Where symbol j of object n comes to lie: behind what the objects before it have of its section. */
  function PlaceOf(objs: seq<Object>, s: Scope, n: nat, j: nat): int
    requires n < |objs| && j < |objs[n].syms|
  {
    var (d, o) := (objs[n].syms[j], OriginsOf(s));
    var origin := if d.section == Text then o.text else if d.section == Data then o.data
      else if d.section == Shared then o.shared else 0;
    origin + Sum(objs, d.section, n) + d.offset
  }

  /** The instruction that relocation r of object m is for has `value` in its target, if r is for a branch,
      and in its immediate otherwise. */
  predicate Written(objs: seq<Object>, img: Image, m: nat, r: Reloc, value: int)
    requires m < |objs|
  {
    && 0 <= r.site && Sum(objs, Text, m) + r.site < |img.text|
    && var ins := img.text[Sum(objs, Text, m) + r.site];
    if r.kind == RCode then ins.target == Wrap32(value) else ins.imm == value
  }

  predicate Relocates(objs: seq<Object>, m: nat, r: Reloc) {
    m < |objs| && OnePerSite(objs[m]) && r in objs[m].relocs && 0 <= r.site < |objs[m].text|
  }

  lemma MeaningIsWritten(
      objs: seq<Object>, entry: Option<string>, s: Scope, img: Image, m: nat, r: Reloc, n: nat, j: nat)
    requires IsImage(objs, entry, s, img) && Relocates(objs, m, r) && n < |objs| && j < |objs[n].syms|
    requires Meaning(objs, m, r.sym) == Some(Definition(n, objs[n].syms[j]))
    ensures Written(objs, img, m, r, PlaceOf(objs, s, n, j) + r.addend)
  {
    var d := Definition(n, objs[n].syms[j]);
    LinkedSlot(objs, entry, s, img, m, r.site);
    ReadByName(objs, OriginsOf(s), m, r, d);
    assert Address(objs, OriginsOf(s), d) == PlaceOf(objs, s, n, j);
  }

  /** A name that its own module defines is that definition, the first of them, whatever the other modules
      export under the name. */
  lemma OwnDefinitionWins(objs: seq<Object>, entry: Option<string>, s: Scope, img: Image, m: nat, r: Reloc, j: nat)
    requires IsImage(objs, entry, s, img) && Relocates(objs, m, r) && FirstAt(objs[m].syms, j, r.sym)
    ensures Written(objs, img, m, r, PlaceOf(objs, s, m, j) + r.addend)
  {
    OwnIsFirst(m, objs[m].syms, j, r.sym);
    MeaningIsWritten(objs, entry, s, img, m, r, m, j);
  }

  /** So a branch to it lands in its own module, at the label. */
  lemma OwnLabelIsReached(objs: seq<Object>, entry: Option<string>, s: Scope, img: Image, m: nat, r: Reloc, j: nat)
    requires IsImage(objs, entry, s, img) && |img.text| <= Cpu.MAX_INSTR && Relocates(objs, m, r)
    requires r.kind == RCode && FirstAt(objs[m].syms, j, r.sym) && objs[m].syms[j].section == Text
    requires 0 <= objs[m].syms[j].offset + r.addend < |objs[m].text|
    ensures Sum(objs, Text, m) + r.site < |img.text|
    ensures var target := img.text[Sum(objs, Text, m) + r.site].target;
      && 0 <= target < Sum(objs, Text, |objs|)
      && Locate(objs, Text, target) == (m, objs[m].syms[j].offset + r.addend)
  {
    OwnIsFirst(m, objs[m].syms, j, r.sym);
    BranchLandsOnLabel(objs, entry, s, img, m, r, Definition(m, objs[m].syms[j]));
  }

  /** A name its module does not define is the global some module exports under it. */
  lemma GlobalOtherwise(
      objs: seq<Object>, entry: Option<string>, s: Scope, img: Image, m: nat, r: Reloc, n: nat, j: nat)
    requires IsImage(objs, entry, s, img) && Accepts(objs, entry, s) && Relocates(objs, m, r)
    requires NotDefined(objs[m].syms, r.sym) && n < |objs| && ExportedAt(objs[n].syms, j, r.sym)
    ensures Written(objs, img, m, r, PlaceOf(objs, s, n, j) + r.addend)
  {
    NothingOwn(objs[m].syms, r.sym);
    GlobalMeaning(objs, m, r.sym, n, j);
    MeaningIsWritten(objs, entry, s, img, m, r, n, j);
  }

  lemma NothingOwn(syms: seq<Symbol>, name: string)
    requires NotDefined(syms, name)
    ensures forall s | s in syms :: !DefinedHere(s, name)
  {
    forall s | s in syms
      ensures !DefinedHere(s, name)
    {
      var i :| 0 <= i < |syms| && syms[i] == s;
      assert !DefinedAt(syms, i, name);
    }
  }

  // --- the globals, one by one ---------------------------------------------------------------------------

  /** Every place of the list of globals is an exported symbol's, at the number of those before it. */
  lemma {:induction false} ExportPlace(objs: seq<Object>, m: nat, k: nat, a: nat) returns (n: nat, j: nat)
    requires (m < |objs| && k <= |objs[m].syms|) || (m == |objs| && k == 0)
    requires a < |Exports(objs, m, k)|
    ensures n < |objs| && j < |objs[n].syms| && Exported(objs[n].syms[j])
    ensures |Exports(objs, n, j)| == a && Exports(objs, m, k)[a] == Definition(n, objs[n].syms[j])
    decreases m, k
  {
    if k > 0 {
      if a < |Exports(objs, m, k - 1)| {
        n, j := ExportPlace(objs, m, k - 1, a);
      } else {
        n, j := m, k - 1;
      }
    } else {
      n, j := ExportPlace(objs, m - 1, |objs[m - 1].syms|, a);
    }
  }

  lemma ExportAt(objs: seq<Object>, n: nat, j: nat)
    requires n < |objs| && j < |objs[n].syms| && Exported(objs[n].syms[j])
    ensures |Exports(objs, n, j)| < |AllExports(objs)|
    ensures AllExports(objs)[|Exports(objs, n, j)|] == Definition(n, objs[n].syms[j])
  {
    ExportsGrow(objs, n, j + 1);
    assert Exports(objs, n, j + 1)[|Exports(objs, n, j)|] == Definition(n, objs[n].syms[j]);
  }

  /** Some two symbols are exported under one name. */
  ghost predicate ExportedTwice(objs: seq<Object>) {
    exists m, i, n, j, name {:trigger ExportedAt(objs[m].syms, i, name), ExportedAt(objs[n].syms, j, name)} ::
      && 0 <= m < |objs| && 0 <= n < |objs| && (m != n || i != j)
      && ExportedAt(objs[m].syms, i, name) && ExportedAt(objs[n].syms, j, name)
  }

  lemma {:induction false} LaterIsFurther(objs: seq<Object>, m: nat, i: nat, n: nat, j: nat)
    requires m < |objs| && i < |objs[m].syms| && Exported(objs[m].syms[i])
    requires (n < |objs| && j <= |objs[n].syms|) && (m < n || (m == n && i < j))
    ensures |Exports(objs, m, i)| < |Exports(objs, n, j)|
    decreases n, j
  {
    if j > 0 {
      if m < n || i < j - 1 {
        LaterIsFurther(objs, m, i, n, j - 1);
      }
    } else {
      assert Exports(objs, n, 0) == Exports(objs, n - 1, |objs[n - 1].syms|);
      LaterIsFurther(objs, m, i, n - 1, |objs[n - 1].syms|);
    }
  }

  /** The globals are unique exactly when no name is exported twice. */
  lemma UniqueExactly(objs: seq<Object>)
    ensures Unique(AllExports(objs)) <==> !ExportedTwice(objs)
  {
    var all := AllExports(objs);
    if !Unique(all) {
      var a, b :| 0 <= a < b < |all| && all[a].sym.name == all[b].sym.name;
      var m, i := ExportPlace(objs, |objs|, 0, a);
      var n, j := ExportPlace(objs, |objs|, 0, b);
      assert ExportedAt(objs[m].syms, i, all[a].sym.name) && ExportedAt(objs[n].syms, j, all[a].sym.name);
    }
    if ExportedTwice(objs) {
      var m, i, n, j, name :|
        && 0 <= m < |objs| && 0 <= n < |objs| && (m != n || i != j)
        && ExportedAt(objs[m].syms, i, name) && ExportedAt(objs[n].syms, j, name);
      if m < n || (m == n && i < j) {
        LaterIsFurther(objs, m, i, n, j);
      } else {
        LaterIsFurther(objs, n, j, m, i);
      }
      ExportAt(objs, m, i);
      ExportAt(objs, n, j);
    }
  }

  // --- what a link accepts ---------------------------------------------------------------------------------

  /** A branch wants code, an access data; an address may be either's. */
  predicate Wanted(kind: RelocKind, isCode: int) { (kind == RCode ==> isCode == 1) && (kind == RData ==> isCode == 0) }

  ghost predicate OwnAnswers(objs: seq<Object>, m: nat, r: Reloc)
    requires m < |objs|
  {
    exists j :: FirstAt(objs[m].syms, j, r.sym) && Wanted(r.kind, objs[m].syms[j].isCode)
  }

  ghost predicate OthersAnswer(objs: seq<Object>, name: string, kind: RelocKind) {
    exists n, j :: 0 <= n < |objs| && ExportedAt(objs[n].syms, j, name) && Wanted(kind, objs[n].syms[j].isCode)
  }

  /** The module's own first definition is of the kind wanted, or it has none and an exported one is. */
  ghost predicate Answered(objs: seq<Object>, m: nat, r: Reloc)
    requires m < |objs|
  {
    OwnAnswers(objs, m, r) || (NotDefined(objs[m].syms, r.sym) && OthersAnswer(objs, r.sym, r.kind))
  }

  lemma {:induction false} FirstOne(syms: seq<Symbol>, i: nat, name: string) returns (j: nat)
    requires DefinedAt(syms, i, name)
    ensures FirstAt(syms, j, name)
    decreases i
  {
    if k: nat :| k < i && DefinedAt(syms, k, name) {
      j := FirstOne(syms, k, name);
    } else {
      j := i;
    }
  }

  lemma ListedIsExported(objs: seq<Object>, d: Definition) returns (n: nat, j: nat)
    requires d in AllExports(objs)
    ensures n < |objs| && ExportedAt(objs[n].syms, j, d.sym.name) && d == Definition(n, objs[n].syms[j])
  {
    var a :| 0 <= a < |AllExports(objs)| && AllExports(objs)[a] == d;
    n, j := ExportPlace(objs, |objs|, 0, a);
  }

  lemma ResolvesExactly(objs: seq<Object>, m: nat, r: Reloc)
    requires m < |objs| && Unique(AllExports(objs))
    ensures Resolves(objs, m, r) <==> Answered(objs, m, r)
  {
    if NotDefined(objs[m].syms, r.sym) {
      NothingOwn(objs[m].syms, r.sym);
      if OthersAnswer(objs, r.sym, r.kind) {
        var n, j :| 0 <= n < |objs| && ExportedAt(objs[n].syms, j, r.sym) && Wanted(r.kind, objs[n].syms[j].isCode);
        GlobalMeaning(objs, m, r.sym, n, j);
      }
      var d := Meaning(objs, m, r.sym);
      if d.Some? {
        var n, j := ListedIsExported(objs, d.value);
      }
    } else {
      var i :| 0 <= i < |objs[m].syms| && DefinedAt(objs[m].syms, i, r.sym);
      var j := FirstOne(objs[m].syms, i, r.sym);
      OwnIsFirst(m, objs[m].syms, j, r.sym);
      OnlyFirst(objs[m].syms, j, r.sym);
    }
  }

  lemma OnlyFirst(syms: seq<Symbol>, j: nat, name: string)
    requires FirstAt(syms, j, name)
    ensures forall k | FirstAt(syms, k, name) :: k == j
  {
  }

  /** The sections have regions of their space, with room for all that the objects have of them, and there
      are no more objects and instructions than the linker can hold. */
  predicate Room(objs: seq<Object>, s: Scope) {
    var (t, d, h) := (SectionRegion(s, ".text"), SectionRegion(s, ".data"), SectionRegion(s, ".shared"));
    && t.Some? && t.value.value.unit == CodeSpace && Sum(objs, Text, |objs|) <= t.value.value.length
    && d.Some? && d.value.value.unit == DataSpace && Sum(objs, Data, |objs|) <= d.value.value.length
    && (if h.Some? then h.value.value.unit == DataSpace && Sum(objs, Shared, |objs|) <= h.value.value.length
        else Sum(objs, Shared, |objs|) == 0)
    && |objs| <= 64 && t.value.value.origin + Sum(objs, Text, |objs|) <= 4096
  }

  ghost predicate HasEntry(objs: seq<Object>, name: string) {
    exists n, j :: 0 <= n < |objs| && ExportedAt(objs[n].syms, j, name) && objs[n].syms[j].isCode == 1
  }

  lemma EntryExactly(objs: seq<Object>, name: string)
    ensures EntryOf(AllExports(objs), name).Some? <==> HasEntry(objs, name)
  {
    var e := EntryOf(AllExports(objs), name);
    if e.Some? {
      var n, j := ListedIsExported(objs, e.value);
    }
    if HasEntry(objs, name) {
      var n, j :| 0 <= n < |objs| && ExportedAt(objs[n].syms, j, name) && objs[n].syms[j].isCode == 1;
      ExportListed(objs, n, j);
    }
  }

  /** A link is accepted exactly when there is room, no name is exported twice, every relocation has an
      answer of its kind, and an entry that is asked for is exported code. */
  lemma LinkAcceptsExactly(objs: seq<Object>, entry: Option<string>, s: Scope)
    ensures Accepts(objs, entry, s) <==>
      && Room(objs, s) && !ExportedTwice(objs)
      && (forall m, k | 0 <= m < |objs| && 0 <= k < |objs[m].relocs| :: Answered(objs, m, objs[m].relocs[k]))
      && (entry.Some? ==> HasEntry(objs, entry.value))
  {
    UniqueExactly(objs);
    if entry.Some? {
      EntryExactly(objs, entry.value);
    }
    if Unique(AllExports(objs)) {
      forall m, k | 0 <= m < |objs| && 0 <= k < |objs[m].relocs|
        ensures Resolves(objs, m, objs[m].relocs[k]) <==> Answered(objs, m, objs[m].relocs[k])
      {
        ResolvesExactly(objs, m, objs[m].relocs[k]);
      }
    }
  }

  // --- what an image says of names ---------------------------------------------------------------------------

  /** The image starts at the entry asked for, or at `main` if it is exported code, or at 0. */
  lemma EntryIsPlaced(objs: seq<Object>, entry: Option<string>, s: Scope, img: Image, n: nat, j: nat)
    requires IsImage(objs, entry, s, img) && !ExportedTwice(objs)
    ensures var name := if entry.Some? then entry.value else "main";
      && (n < |objs| && ExportedAt(objs[n].syms, j, name) && objs[n].syms[j].isCode == 1 ==>
            img.entry == PlaceOf(objs, s, n, j))
      && (!HasEntry(objs, name) ==> img.entry == 0)
  {
    var name := if entry.Some? then entry.value else "main";
    EntryExactly(objs, name);
    UniqueExactly(objs);
    if n < |objs| && ExportedAt(objs[n].syms, j, name) && objs[n].syms[j].isCode == 1 {
      var e := EntryOf(AllExports(objs), name);
      assert HasEntry(objs, name);
      var n', j' := ListedIsExported(objs, e.value);
      assert (n', j') == (n, j);
    }
  }

  predicate Mentions(row: Symbol, sym: Symbol, place: int) { row == sym.(offset := place) }

  ghost predicate InMap(objs: seq<Object>, s: Scope, img: Image, n: nat, j: nat)
    requires n < |objs| && j < |objs[n].syms|
  {
    exists a :: 0 <= a < |img.symmap| && Mentions(img.symmap[a], objs[n].syms[j], PlaceOf(objs, s, n, j))
  }

  ghost predicate IsGlobal(objs: seq<Object>, s: Scope, row: Symbol) {
    exists n, j ::
      0 <= n < |objs| && ExportedAt(objs[n].syms, j, row.name) && Mentions(row, objs[n].syms[j], PlaceOf(objs, s, n, j))
  }

  /** The symbol map of the image has exactly the exported symbols, each with its place. */
  lemma MapHasTheGlobals(objs: seq<Object>, entry: Option<string>, s: Scope, img: Image)
    requires IsImage(objs, entry, s, img)
    ensures forall n, j, name | 0 <= n < |objs| && ExportedAt(objs[n].syms, j, name) :: InMap(objs, s, img, n, j)
    ensures forall a | 0 <= a < |img.symmap| :: IsGlobal(objs, s, img.symmap[a])
  {
    forall n, j, name | 0 <= n < |objs| && ExportedAt(objs[n].syms, j, name)
      ensures InMap(objs, s, img, n, j)
    {
      GlobalIsMapped(objs, entry, s, img, n, j);
    }
    forall a | 0 <= a < |img.symmap|
      ensures IsGlobal(objs, s, img.symmap[a])
    {
      RowIsGlobal(objs, entry, s, img, a);
    }
  }

  lemma GlobalIsMapped(objs: seq<Object>, entry: Option<string>, s: Scope, img: Image, n: nat, j: nat)
    requires IsImage(objs, entry, s, img) && n < |objs| && j < |objs[n].syms| && Exported(objs[n].syms[j])
    ensures InMap(objs, s, img, n, j)
  {
    ExportAt(objs, n, j);
    assert Mentions(img.symmap[|Exports(objs, n, j)|], objs[n].syms[j], PlaceOf(objs, s, n, j));
  }

  lemma RowIsGlobal(objs: seq<Object>, entry: Option<string>, s: Scope, img: Image, a: nat)
    requires IsImage(objs, entry, s, img) && a < |img.symmap|
    ensures IsGlobal(objs, s, img.symmap[a])
  {
    var n, j := ExportPlace(objs, |objs|, 0, a);
    assert ExportedAt(objs[n].syms, j, img.symmap[a].name);
    assert Mentions(img.symmap[a], objs[n].syms[j], PlaceOf(objs, s, n, j));
  }

  /** The sizes of an image, and where its shared part begins: at the origin of its region, or at 0 without
      one. Below the origin of the data there is nothing. */
  lemma ImageIsSized(objs: seq<Object>, entry: Option<string>, s: Scope, img: Image)
    requires IsImage(objs, entry, s, img)
    ensures var (d, h) := (SectionRegion(s, ".data"), SectionRegion(s, ".shared"));
      && |img.text| == Sum(objs, Text, |objs|)
      && |img.data| == (if d.Some? then d.value.value.origin else 0) + Sum(objs, Data, |objs|)
      && img.sharedBase == (if h.Some? then h.value.value.origin else 0) && img.shared == Sum(objs, Shared, |objs|)
      && forall a | 0 <= a < |img.data| && d.Some? && a < d.value.value.origin :: img.data[a] == 0
  {
    forall a | 0 <= a < |img.data| && a < OriginsOf(s).data
      ensures img.data[a] == 0
    {
      assert ByteIs(objs, OriginsOf(s), img.data, a);
    }
  }
}
