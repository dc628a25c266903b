/** What linking preserves. A module's instructions name things; the image only holds numbers. Every
    image the linker makes runs as its modules do when each name is read where the layout puts it. */
module LinkMeaning {
  import opened Cpu
  import opened Concatenation
  import opened Objects
  import opened Locator
  import opened Linker

  // --- the modules run by name --------------------------------------------------------------------

  /** The relocation of instruction `i`, if there is one. */
  function RelocAt(relocs: seq<Reloc>, i: nat): (o: Option<Reloc>)
    ensures o.Some? ==> o.value in relocs && o.value.site == i
    ensures o.None? ==> forall r | r in relocs :: r.site != i
  {
    if relocs == [] then None else if relocs[0].site == i then Some(relocs[0]) else RelocAt(relocs[1..], i)
  }

  /** An instruction of a module with its one name, if it has one, read under the layout `o`. */
  function Read(objs: seq<Object>, o: Origins, m: nat, i: nat): Instr
    requires m < |objs| && i < |objs[m].text|
  {
    match RelocAt(objs[m].relocs, i)
    case None => objs[m].text[i]
    case Some(r) =>
      var d := Meaning(objs, m, r.sym);
      if d.Some? then Relocated(objs[m].text[i], r.kind, Address(objs, o, d.value) + r.addend) else objs[m].text[i]
  }

  predicate OnePerSite(o: Object) {
    forall j, k | 0 <= j < k < |o.relocs| :: o.relocs[j].site != o.relocs[k].site
  }

  lemma {:induction false} RelocFirst(relocs: seq<Reloc>, k: nat)
    requires k < |relocs| && forall j | 0 <= j < k :: relocs[j].site != relocs[k].site
    requires relocs[k].site >= 0
    ensures RelocAt(relocs, relocs[k].site) == Some(relocs[k])
  {
    if k > 0 {
      RelocFirst(relocs[1..], k - 1);
    }
  }

  lemma {:induction false} PatchedIsRead(objs: seq<Object>, o: Origins, m: nat, i: nat, k: nat)
    requires m < |objs| && i < |objs[m].text| && k <= |objs[m].relocs| && OnePerSite(objs[m])
    ensures Patched(objs, o, m, i, k) ==
      if exists j :: 0 <= j < k && objs[m].relocs[j].site == i then Read(objs, o, m, i) else objs[m].text[i]
    decreases k
  {
    if k > 0 {
      PatchedIsRead(objs, o, m, i, k - 1);
      if objs[m].relocs[k - 1].site == i {
        RelocFirst(objs[m].relocs, k - 1);
      }
    }
  }

  /** Slot text_base + i of the image holds instruction i of its module with one field read by name
      and every other field untouched. */
  lemma LinkedSlot(objs: seq<Object>, entry: Option<string>, s: Scope, img: Image, m: nat, i: nat)
    requires IsImage(objs, entry, s, img) && m < |objs| && i < |objs[m].text| && OnePerSite(objs[m])
    ensures Sum(objs, Text, m) + i < |img.text|
    ensures img.text[Sum(objs, Text, m) + i] == Read(objs, OriginsOf(s), m, i)
  {
    LocateInverse(objs, Text, m, i);
    assert SlotIs(objs, OriginsOf(s), img.text, Sum(objs, Text, m) + i);
    PatchedIsRead(objs, OriginsOf(s), m, i, |objs[m].relocs|);
    var r := RelocAt(objs[m].relocs, i);
    if r.Some? {
      var j :| 0 <= j < |objs[m].relocs| && objs[m].relocs[j] == r.value;
    }
  }

  /** Inside its own module a name means the module's definition; elsewhere the one global there is. */
  lemma {:induction false} ExportListed(objs: seq<Object>, m: nat, j: nat)
    requires m < |objs| && j < |objs[m].syms| && Exported(objs[m].syms[j])
    ensures Definition(m, objs[m].syms[j]) in AllExports(objs)
  {
    var d := Definition(m, objs[m].syms[j]);
    ExportsGrow(objs, m, j + 1);
    assert Exports(objs, m, j + 1)[|Exports(objs, m, j)|] == d;
    assert AllExports(objs)[|Exports(objs, m, j)|] == d;
  }

  lemma GlobalMeaning(objs: seq<Object>, m: nat, name: string, n: nat, j: nat)
    requires m < |objs| && n < |objs| && j < |objs[n].syms| && Unique(AllExports(objs))
    requires Exported(objs[n].syms[j]) && objs[n].syms[j].name == name
    requires forall s | s in objs[m].syms :: !DefinedHere(s, name)
    ensures Meaning(objs, m, name) == Some(Definition(n, objs[n].syms[j]))
  {
    ExportListed(objs, n, j);
    var (all, d) := (AllExports(objs), Definition(n, objs[n].syms[j]));
    var e := GlobalNamed(all, name).value;
    var a :| 0 <= a < |all| && all[a] == d;
    var b :| 0 <= b < |all| && all[b] == e;
    assert a == b;
  }

  // --- the runs -----------------------------------------------------------------------------------

  /** The image on any core. */
  function ImageRun<I>(core: Stepper<I>, img: Image, s: State, xs: seq<I>): State
    decreases |xs|
  {
    if xs == [] || s.halted || !(0 <= s.pc < |img.text|) then s
    else ImageRun(core, img, core(s, xs[0], img.text[s.pc]), xs[1..])
  }

  /** The same run, fetching from the modules. */
  function ModulesRun<I>(core: Stepper<I>, objs: seq<Object>, o: Origins, s: State, xs: seq<I>): State
    decreases |xs|
  {
    if xs == [] || s.halted || !(0 <= s.pc < Sum(objs, Text, |objs|)) then s
    else
      var (m, i) := Locate(objs, Text, s.pc);
      ModulesRun(core, objs, o, core(s, xs[0], Read(objs, o, m, i)), xs[1..])
  }

  /** Linking preserves meaning: from every state and for every behaviour of core and bus, the image
      and the modules go through the same states. */
  lemma {:induction false} LinkingPreservesRuns<I>(core: Stepper<I>, objs: seq<Object>, entry: Option<string>, s: Scope,
      img: Image, st: State, xs: seq<I>)
    requires IsImage(objs, entry, s, img) && forall m | 0 <= m < |objs| :: OnePerSite(objs[m])
    ensures ImageRun(core, img, st, xs) == ModulesRun(core, objs, OriginsOf(s), st, xs)
    decreases |xs|
  {
    if xs != [] && !st.halted && 0 <= st.pc < |img.text| {
      var (m, i) := Locate(objs, Text, st.pc);
      LinkedSlot(objs, entry, s, img, m, i);
      LinkingPreservesRuns(core, objs, entry, s, img, core(st, xs[0], img.text[st.pc]), xs[1..]);
    }
  }

  lemma ReadByName(objs: seq<Object>, o: Origins, m: nat, r: Reloc, d: Definition)
    requires m < |objs| && OnePerSite(objs[m]) && r in objs[m].relocs && 0 <= r.site < |objs[m].text|
    requires Meaning(objs, m, r.sym) == Some(d)
    ensures Read(objs, o, m, r.site) ==
      Relocated(objs[m].text[r.site], r.kind, Address(objs, o, d) + r.addend)
  {
    var k :| 0 <= k < |objs[m].relocs| && objs[m].relocs[k] == r;
    RelocFirst(objs[m].relocs, k);
  }

  lemma ReadBranch(objs: seq<Object>, o: Origins, m: nat, r: Reloc, d: Definition)
    requires m < |objs| && OnePerSite(objs[m]) && r in objs[m].relocs && 0 <= r.site < |objs[m].text|
    requires r.kind == RCode && Meaning(objs, m, r.sym) == Some(d) && d.sym.section == Text && o.text == 0
    requires 0 <= d.sym.offset + r.addend < |objs[d.m].text| && Sum(objs, Text, |objs|) <= MAX_INSTR
    ensures var target := Read(objs, o, m, r.site).target;
      0 <= target < Sum(objs, Text, |objs|) && Locate(objs, Text, target) == (d.m, d.sym.offset + r.addend)
  {
    ReadByName(objs, o, m, r, d);
    LocateInverse(objs, Text, d.m, d.sym.offset + r.addend);
  }

  /** A branch to a label leads to the instruction the label marks, in the module that defines it. */
  lemma BranchLandsOnLabel(
      objs: seq<Object>, entry: Option<string>, s: Scope, img: Image, m: nat, r: Reloc, d: Definition)
    requires IsImage(objs, entry, s, img) && |img.text| <= MAX_INSTR && m < |objs| && OnePerSite(objs[m])
    requires r in objs[m].relocs && 0 <= r.site < |objs[m].text| && r.kind == RCode
    requires Meaning(objs, m, r.sym) == Some(d) && d.sym.section == Text
    requires 0 <= d.sym.offset + r.addend < |objs[d.m].text|
    ensures Sum(objs, Text, m) + r.site < |img.text|
    ensures var target := img.text[Sum(objs, Text, m) + r.site].target;
      && 0 <= target < Sum(objs, Text, |objs|)
      && Locate(objs, Text, target) == (d.m, d.sym.offset + r.addend)
  {
    LinkedSlot(objs, entry, s, img, m, r.site);
    ReadBranch(objs, OriginsOf(s), m, r, d);
  }

  lemma ByteOfDatum(objs: seq<Object>, o: Origins, m: nat, i: nat)
    requires m < |objs| && i < |objs[m].data|
    ensures var a := Base(objs, o, Data, m) + i;
      a < Base(objs, o, Data, |objs|) && (o.data >= 0 ==> a >= 0 && ByteAt(objs, o, a) == objs[m].data[i])
  {
    LocateInverse(objs, Data, m, i);
  }

  lemma ReadDatum(objs: seq<Object>, o: Origins, m: nat, r: Reloc, d: Definition)
    requires m < |objs| && OnePerSite(objs[m]) && r in objs[m].relocs && 0 <= r.site < |objs[m].text|
    requires r.kind != RCode && Meaning(objs, m, r.sym) == Some(d) && d.sym.section == Data && o.data >= 0
    requires 0 <= d.sym.offset + r.addend < |objs[d.m].data|
    ensures var a := Read(objs, o, m, r.site).imm;
      && 0 <= a < Base(objs, o, Data, |objs|)
      && ByteAt(objs, o, a) == objs[d.m].data[d.sym.offset + r.addend]
  {
    ReadByName(objs, o, m, r, d);
    ByteOfDatum(objs, o, d.m, d.sym.offset + r.addend);
  }

  /** An address of a datum is where the image keeps that datum's bytes. */
  lemma AddressReachesDatum(
      objs: seq<Object>, entry: Option<string>, s: Scope, img: Image, m: nat, r: Reloc, d: Definition)
    requires IsImage(objs, entry, s, img) && OriginsOf(s).data >= 0 && m < |objs| && OnePerSite(objs[m])
    requires r in objs[m].relocs && 0 <= r.site < |objs[m].text| && r.kind != RCode
    requires Meaning(objs, m, r.sym) == Some(d) && d.sym.section == Data
    requires 0 <= d.sym.offset + r.addend < |objs[d.m].data|
    ensures Sum(objs, Text, m) + r.site < |img.text|
    ensures var address := img.text[Sum(objs, Text, m) + r.site].imm;
      0 <= address < |img.data| && img.data[address] == objs[d.m].data[d.sym.offset + r.addend]
  {
    LinkedSlot(objs, entry, s, img, m, r.site);
    ReadDatum(objs, OriginsOf(s), m, r, d);
    assert ByteIs(objs, OriginsOf(s), img.data, img.text[Sum(objs, Text, m) + r.site].imm);
  }

  // --- the placement --------------------------------------------------------------------------------

  /** Address `a` belongs to the part of section `sec` that object `m` brought. */
  predicate Occupies(objs: seq<Object>, o: Origins, sec: Section, m: nat, a: int)
    requires m < |objs|
  {
    Base(objs, o, sec, m) <= a < Base(objs, o, sec, m) + Size(objs[m], sec)
  }

  function DotName(sec: Section): string {
    match sec
    case Text => ".text"
    case Data => ".data"
    case Shared => ".shared"
    case NoSection => ""
  }

  lemma PartInRegion(objs: seq<Object>, entry: Option<string>, s: Scope, sec: Section, m: nat, a: int)
    requires Accepts(objs, entry, s) && sec != NoSection && m < |objs| && Occupies(objs, OriginsOf(s), sec, m, a)
    ensures SectionRegion(s, DotName(sec)).Some? && Inside(SectionRegion(s, DotName(sec)).value, a)
  {
    var sizes := Sizes(objs, sec);
    TotalGrows(sizes, m + 1, |objs|);
    TotalGrows(sizes, 0, m);
  }

  lemma PartsApart(objs: seq<Object>, o: Origins, sec: Section, m: nat, n: nat, a: int)
    requires m < |objs| && n < |objs| && Occupies(objs, o, sec, m, a) && Occupies(objs, o, sec, n, a)
    ensures m == n
  {
    if m < n {
      TotalGrows(Sizes(objs, sec), m + 1, n);
    } else if n < m {
      TotalGrows(Sizes(objs, sec), n + 1, m);
    }
  }

  predicate SameSpace(a: Section, b: Section) { a == b || (a in {Data, Shared} && b in {Data, Shared}) }

  /** After a resolved placement and a successful link nothing overlaps, everything is in its region,
      and no datum has address 0, provided the two data sections are given different regions. */
  lemma PlacementIsDisjoint(objs: seq<Object>, entry: Option<string>, s: Scope,
      sec: Section, m: nat, sec': Section, n: nat, a: int)
    requires Given(objs, s) && Accepts(objs, entry, s) && NoOverlap(s) && OriginsOf(s).shared >= 0
    requires SectionRegion(s, ".data") != SectionRegion(s, ".shared")
    requires sec != NoSection && sec' != NoSection && SameSpace(sec, sec') && m < |objs| && n < |objs|
    requires Occupies(objs, OriginsOf(s), sec, m, a) && Occupies(objs, OriginsOf(s), sec', n, a)
    ensures sec == sec' && m == n
    ensures SectionRegion(s, DotName(sec)).Some? && Inside(SectionRegion(s, DotName(sec)).value, a)
    ensures sec != Text ==> a > 0
  {
    PartInRegion(objs, entry, s, sec, m, a);
    PartInRegion(objs, entry, s, sec', n, a);
    if sec != sec' {
      RegionsApart(s, SectionRegion(s, ".data").value, SectionRegion(s, ".shared").value, a);
    }
    PartsApart(objs, OriginsOf(s), sec, m, n, a);
  }

  /** The linker does not ask that `.data` and `.shared` go to different regions. In one region both
      start at its origin, so they collide exactly when both have something in it. */
  lemma OneRegionForBoth(objs: seq<Object>, entry: Option<string>, s: Scope)
    requires Given(objs, s) && Accepts(objs, entry, s) && SectionRegion(s, ".data") == SectionRegion(s, ".shared")
    ensures (exists m, n, a :: 0 <= m < |objs| && 0 <= n < |objs|
                && Occupies(objs, OriginsOf(s), Data, m, a) && Occupies(objs, OriginsOf(s), Shared, n, a))
      <==> Sum(objs, Data, |objs|) > 0 && Sum(objs, Shared, |objs|) > 0
  {
    var o := OriginsOf(s);
    if Sum(objs, Data, |objs|) > 0 && Sum(objs, Shared, |objs|) > 0 {
      var (m, i) := Locate(objs, Data, 0);
      var (n, j) := Locate(objs, Shared, 0);
      assert Occupies(objs, o, Data, m, o.data) && Occupies(objs, o, Shared, n, o.data);
    } else {
      forall m, n, a | 0 <= m < |objs| && 0 <= n < |objs|
        ensures !(Occupies(objs, o, Data, m, a) && Occupies(objs, o, Shared, n, a))
      {
        TotalGrows(Sizes(objs, Data), m + 1, |objs|);
        TotalGrows(Sizes(objs, Shared), n + 1, |objs|);
      }
    }
  }
}
