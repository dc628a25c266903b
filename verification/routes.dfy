/** The same source can be assembled straight into memory, or to an object that is linked and loaded.
    Both routes give the same program and the same memory. */
module Routes {
  import opened Words
  import opened Cpu
  import opened Concatenation
  import opened Objects
  import opened Locator
  import opened Linker
  import opened LinkMeaning
  import opened Assembly
  import Memory

  // --- the built-in placement and the loader -------------------------------------------------------------

  function Builtin(): Scope {
    Scope("",
      [Named("PM", Extent(CodeSpace, 0, MAX_INSTR)),
       Named("LOCAL", Extent(DataSpace, NULL_GUARD, MEM_SIZE - NULL_GUARD)),
       Named("SHARED", Extent(DataSpace, Memory.SHARED_BASE, Memory.SHARED_SIZE))],
      [Named(".text", "PM"), Named(".data", "LOCAL"), Named(".shared", "SHARED")])
  }

  lemma ThreeEntries<T>(x: Named<T>, y: Named<T>, z: Named<T>)
    requires x.name != y.name && x.name != z.name && y.name != z.name
    ensures Lookup([x, y, z], x.name) == Some(x) && Lookup([x, y, z], y.name) == Some(y)
    ensures Lookup([x, y, z], z.name) == Some(z)
  {
    assert [x, y, z][1..] == [y, z] && [y, z][1..] == [z];
  }

  lemma BuiltinOrigins()
    ensures OriginsOf(Builtin()) == AtGuard(Memory.SHARED_BASE)
  {
    var (rs, ps) := (Builtin().regions, Builtin().places);
    ThreeEntries(rs[0], rs[1], rs[2]);
    ThreeEntries(ps[0], ps[1], ps[2]);
  }

  /** The memory after loading: the data image over what was there. */
  function Loaded(img: Image, mem: seq<byte>): (m: seq<byte>)
    requires |img.data| <= |mem|
    ensures |m| == |mem|
  {
    Splice(mem, 0, img.data)
  }

  method Load(img: Image, mem: array<byte>, prog: array<Instr>) returns (length: nat, entry: int)
    requires |img.data| <= mem.Length && |img.text| <= prog.Length
    modifies mem, prog
    ensures mem[..] == Loaded(img, old(mem[..]))
    ensures length == |img.text| && prog[..length] == img.text && entry == img.entry
  {
    CopyPart(img.text, 0, prog);
    CopyPart(img.data, 0, mem);
    length, entry := |img.text|, img.entry;
  }

  // --- the two first passes differ by the guard ----------------------------------------------------------

  predicate Moved(s: Sym, t: Sym) {
    t.name == s.name && t.isCode == s.isCode && t.value == s.value + (if s.isCode then 0 else NULL_GUARD)
  }

  predicate SymsMoved(ss: seq<Sym>, ts: seq<Sym>) {
    |ss| == |ts| && forall i | 0 <= i < |ss| :: Moved(ss[i], ts[i])
  }

  /** `t`'s memory is `m` moved up by the guard, which is zero; above `ptr` there is nothing yet. */
  predicate MemMoved(m: seq<byte>, ptr: nat, t: seq<byte>) {
    && |m| == |t| == MEM_SIZE
    && (forall a | 0 <= a < NULL_GUARD :: t[a] == 0)
    && (forall a | NULL_GUARD <= a < MEM_SIZE :: t[a] == m[a - NULL_GUARD])
    && forall a | ptr <= a < MEM_SIZE :: m[a] == 0
  }

  /** The object's first pass and the direct one, on the same lines. */
  predicate Guarded(u: Tables, v: Tables) {
    && Within(u) && Within(v)
    && v.inData == u.inData && v.code == u.code && v.globals == u.globals && v.ptr == u.ptr + NULL_GUARD
    && SymsMoved(u.syms, v.syms) && MemMoved(u.mem, u.ptr, v.mem)
  }

  lemma StartsGuarded()
    ensures Guarded(Start(0), Start(NULL_GUARD))
  {
  }

  lemma WordGuarded(m: seq<byte>, ptr: nat, t: seq<byte>, bs: seq<byte>)
    requires MemMoved(m, ptr, t) && ptr + NULL_GUARD + |bs| <= MEM_SIZE
    ensures MemMoved(Splice(m, ptr, bs), ptr + |bs|, Splice(t, ptr + NULL_GUARD, bs))
  {
  }

  lemma {:induction false} WordsGuarded(u: Tables, v: Tables, values: seq<int32>)
    requires Guarded(u, v) && PutWords(v, values).Some?
    ensures PutWords(u, values).Some? && Guarded(PutWords(u, values).value, PutWords(v, values).value)
    decreases |values|
  {
    if values != [] {
      var bs := Bytes32(values[0]);
      WordGuarded(u.mem, u.ptr, v.mem, bs);
      WordsGuarded(u.(mem := Splice(u.mem, u.ptr, bs), ptr := u.ptr + 4),
        v.(mem := Splice(v.mem, v.ptr, bs), ptr := v.ptr + 4), values[1..]);
    }
  }

  lemma LabelGuarded(u: Tables, v: Tables, name: string)
    requires Guarded(u, v) && Collect(v, Label(name)).Some?
    ensures Collect(u, Label(name)).Some? && Guarded(Collect(u, Label(name)).value, Collect(v, Label(name)).value)
  {
    assert Known(u.syms, name) == Known(v.syms, name) by {
      assert forall i | 0 <= i < |u.syms| :: v.syms[i].name == u.syms[i].name;
    }
  }

  lemma CollectGuarded(u: Tables, v: Tables, item: Item)
    requires Guarded(u, v) && Collect(v, item).Some?
    ensures Collect(u, item).Some? && Guarded(Collect(u, item).value, Collect(v, item).value)
  {
    match item {
      case Label(n) => LabelGuarded(u, v, n);
      case Words(vs) => WordsGuarded(u, v, vs);
      case _ =>
    }
  }

  lemma {:induction false} AllGuarded(u: Tables, v: Tables, items: seq<Item>)
    requires Guarded(u, v) && CollectAll(v, items).Some?
    ensures CollectAll(u, items).Some? && Guarded(CollectAll(u, items).value, CollectAll(v, items).value)
    decreases |items|
  {
    if items != [] {
      CollectGuarded(u, v, items[0]);
      AllGuarded(Collect(u, items[0]).value, Collect(v, items[0]).value, items[1..]);
    }
  }

  // --- names resolve alike ----------------------------------------------------------------------------------

  lemma {:induction false} FindMoved(ss: seq<Sym>, ts: seq<Sym>, name: string)
    requires SymsMoved(ss, ts)
    ensures FindSym(ts, name).Some? <==> FindSym(ss, name).Some?
    ensures FindSym(ts, name).Some? ==> Moved(FindSym(ss, name).value, FindSym(ts, name).value)
    decreases |ss|
  {
    if ss != [] {
      assert Moved(ss[0], ts[0]);
      FindMoved(ss[1..], ts[1..], name);
    }
  }

  lemma {:induction false} OwnIsFind(u: Tables, k: nat, name: string)
    requires k <= |u.syms|
    ensures var s := FindSym(u.syms[k..], name);
      Own(0, SymbolsOf(u)[k..], name) == if s.None? then None else Some(Definition(0, SymbolOf(u, s.value)))
    decreases |u.syms| - k
  {
    if k < |u.syms| {
      assert u.syms[k..][1..] == u.syms[k + 1..] && SymbolsOf(u)[k..][1..] == SymbolsOf(u)[k + 1..];
      assert SymbolsOf(u)[k..][0] == SymbolOf(u, u.syms[k]);
      OwnIsFind(u, k + 1, name);
    }
  }

  function RelocOf(l: Line, i: nat): Option<Reloc> {
    if l.operand.None? then None
    else Some(Reloc(KindFor(l.ins.op), i, l.operand.value.sym, l.operand.value.addend))
  }

  lemma LastReloc(code: seq<Line>, n: nat, i: nat)
    requires i < n <= |code|
    ensures RelocAt(RelocsOf(code, n), i) ==
      if i < n - 1 || code[n - 1].operand.None? then RelocAt(RelocsOf(code, n - 1), i) else RelocOf(code[n - 1], i)
  {
    var rs := RelocsOf(code, n - 1);
    if code[n - 1].operand.None? {
      assert RelocsOf(code, n) == rs;
    } else {
      var r := RelocOf(code[n - 1], n - 1).value;
      assert RelocsOf(code, n) == rs + [r];
      RelocAtSnoc(rs, r, i);
    }
  }

  lemma {:induction false} RelocOfLine(code: seq<Line>, n: nat, i: nat)
    requires i < n <= |code|
    ensures RelocAt(RelocsOf(code, n), i) == RelocOf(code[i], i)
    decreases n
  {
    LastReloc(code, n, i);
    if i < n - 1 {
      RelocOfLine(code, n - 1, i);
    } else {
      assert RelocAt(RelocsOf(code, n - 1), i).None?;
    }
  }

  lemma {:induction false} RelocAtSnoc(rs: seq<Reloc>, r: Reloc, i: nat)
    ensures RelocAt(rs + [r], i) ==
      if RelocAt(rs, i).Some? then RelocAt(rs, i) else if r.site == i then Some(r) else None
    decreases |rs|
  {
    if rs == [] {
      assert rs + [r] == [r] && [r][1..] == [];
    } else {
      assert (rs + [r])[1..] == rs[1..] + [r];
      RelocAtSnoc(rs[1..], r, i);
    }
  }

  lemma {:induction false} SitesDiffer(code: seq<Line>, n: nat)
    requires n <= |code|
    ensures forall j, k | 0 <= j < k < |RelocsOf(code, n)| :: RelocsOf(code, n)[j].site != RelocsOf(code, n)[k].site
    decreases n
  {
    if n > 0 {
      SitesDiffer(code, n - 1);
      assert forall r | r in RelocsOf(code, n - 1) :: r.site < n - 1;
    }
  }

  /** Text at 0 and data behind the guard, as the direct route has them. */
  function AtGuard(shared: int): Origins { Origins(0, NULL_GUARD, shared) }

  /** A name of the only object is where the direct route put it. */
  lemma AddressAgrees(u: Tables, v: Tables, shared: int, name: string)
    requires Guarded(u, v) && FindSym(v.syms, name).Some?
    ensures Meaning([ObjectOf(u)], 0, name).Some?
    ensures Address([ObjectOf(u)], AtGuard(shared), Meaning([ObjectOf(u)], 0, name).value) ==
      FindSym(v.syms, name).value.value
  {
    FindMoved(u.syms, v.syms, name);
    OwnIsFind(u, 0, name);
    assert u.syms[0..] == u.syms && SymbolsOf(u)[0..] == SymbolsOf(u);
    var s := FindSym(u.syms, name).value;
    assert Meaning([ObjectOf(u)], 0, name) == Some(Definition(0, SymbolOf(u, s)));
  }

  /** One instruction: a placeholder patched by the linker is the instruction resolved on the spot. */
  lemma LineAgrees(u: Tables, v: Tables, shared: int, i: nat)
    requires Guarded(u, v) && i < |u.code| && EncodeDirect(v.syms, v.code[i]).Some?
    ensures Read([ObjectOf(u)], AtGuard(shared), 0, i) == EncodeDirect(v.syms, v.code[i]).value
  {
    var (l, obj) := (u.code[i], ObjectOf(u));
    RelocOfLine(u.code, |u.code|, i);
    assert RelocAt(obj.relocs, i) == RelocOf(l, i);
    assert obj.text[i] == EncodeObject(l);
    if l.operand.Some? {
      AddressAgrees(u, v, shared, l.operand.value.sym);
    }
  }

  lemma OneObject(obj: Object)
    ensures forall sec :: Sum([obj], sec, 0) == 0 && Sum([obj], sec, 1) == Size(obj, sec)
  {
    forall sec
      ensures Sum([obj], sec, 0) == 0 && Sum([obj], sec, 1) == Size(obj, sec)
    {
      assert Sizes([obj], sec)[0] == Size(obj, sec);
    }
  }

  lemma SlotAgrees(u: Tables, v: Tables, entry: Option<string>, s: Scope, img: Image, i: nat)
    requires Guarded(u, v) && i < |u.code| && EncodeDirect(v.syms, v.code[i]).Some?
    requires OriginsOf(s) == AtGuard(OriginsOf(s).shared) && IsImage([ObjectOf(u)], entry, s, img)
    requires OnePerSite(ObjectOf(u))
    ensures i < |img.text| && img.text[i] == EncodeDirect(v.syms, v.code[i]).value
  {
    OneObject(ObjectOf(u));
    LinkedSlot([ObjectOf(u)], entry, s, img, 0, i);
    LineAgrees(u, v, OriginsOf(s).shared, i);
  }

  lemma TextAgrees(u: Tables, v: Tables, entry: Option<string>, s: Scope, img: Image, text: seq<Instr>)
    requires Guarded(u, v) && EncodeAll(v.syms, v.code) == Some(text)
    requires OriginsOf(s) == AtGuard(OriginsOf(s).shared) && IsImage([ObjectOf(u)], entry, s, img)
    ensures img.text == text
  {
    SitesDiffer(u.code, |u.code|);
    assert OnePerSite(ObjectOf(u));
    OneObject(ObjectOf(u));
    assert |img.text| == |text|;
    forall i | 0 <= i < |text|
      ensures img.text[i] == text[i]
    {
      SlotAgrees(u, v, entry, s, img, i);
    }
  }

  lemma OneObjectByte(obj: Object, shared: int, a: nat)
    requires a < NULL_GUARD + |obj.data|
    ensures a < Base([obj], AtGuard(shared), Data, 1)
    ensures ByteAt([obj], AtGuard(shared), a) == if a < NULL_GUARD then 0 else obj.data[a - NULL_GUARD]
  {
    OneObject(obj);
  }

  lemma MemoryAgrees(u: Tables, v: Tables, entry: Option<string>, s: Scope, img: Image)
    requires Guarded(u, v)
    requires OriginsOf(s) == AtGuard(OriginsOf(s).shared) && IsImage([ObjectOf(u)], entry, s, img)
    ensures |img.data| <= MEM_SIZE && Loaded(img, Blank(MEM_SIZE)) == v.mem
  {
    OneObject(ObjectOf(u));
    assert |img.data| == NULL_GUARD + u.ptr;
    forall a | 0 <= a < |img.data|
      ensures img.data[a] == v.mem[a]
    {
      OneObjectByte(ObjectOf(u), OriginsOf(s).shared, a);
      assert ByteIs([ObjectOf(u)], OriginsOf(s), img.data, a);
    }
    DataOverBlank(img, v.mem);
  }

  lemma DataOverBlank(img: Image, mem: seq<byte>)
    requires |img.data| <= MEM_SIZE == |mem| && forall a | 0 <= a < |img.data| :: img.data[a] == mem[a]
    requires forall a | |img.data| <= a < MEM_SIZE :: mem[a] == 0
    ensures Loaded(img, Blank(MEM_SIZE)) == mem
  {
  }

  /** The two routes agree: from any source that both accept, the linked and loaded program is the one
      assembled directly, instruction for instruction, and so is the memory, byte for byte. */
  lemma RoutesAgree(items: seq<Item>, entry: Option<string>, img: Image)
    requires Assembled(items).Some? && AssembledObject(items).Some?
    requires IsImage([AssembledObject(items).value], entry, Builtin(), img)
    ensures |img.data| <= MEM_SIZE
    ensures (img.text, Loaded(img, Blank(MEM_SIZE))) == Assembled(items).value
  {
    StartsGuarded();
    AllGuarded(Start(0), Start(NULL_GUARD), items);
    BuiltinOrigins();
    var (u, v) := (CollectAll(Start(0), items).value, CollectAll(Start(NULL_GUARD), items).value);
    TextAgrees(u, v, entry, Builtin(), img, EncodeAll(v.syms, v.code).value);
    MemoryAgrees(u, v, entry, Builtin(), img);
  }
}
