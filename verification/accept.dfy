/** When the two assembly routes accept the same source. */
module RouteAcceptance {
  import opened Words
  import opened Objects
  import opened Locator
  import opened Linker
  import opened Assembly
  import opened Routes

  // --- the direct first pass succeeds when the data leave room for the guard -----------------------------

  lemma {:induction false} WordsFit(u: Tables, v: Tables, values: seq<int32>)
    requires Guarded(u, v) && PutWords(u, values).Some?
    ensures PutWords(u, values).value.ptr == u.ptr + 4 * |values|
    ensures PutWords(u, values).value.ptr + NULL_GUARD <= MEM_SIZE ==> PutWords(v, values).Some?
    decreases |values|
  {
    if values != [] {
      var bs := Bytes32(values[0]);
      var u1 := u.(mem := Splice(u.mem, u.ptr, bs), ptr := u.ptr + 4);
      if v.ptr + 4 <= MEM_SIZE {
        WordGuarded(u.mem, u.ptr, v.mem, bs);
        WordsFit(u1, v.(mem := Splice(v.mem, v.ptr, bs), ptr := v.ptr + 4), values[1..]);
      } else {
        WordsTake(u1, values[1..]);
      }
    }
  }

  lemma {:induction false} WordsTake(u: Tables, values: seq<int32>)
    requires Within(u) && PutWords(u, values).Some?
    ensures PutWords(u, values).value.ptr == u.ptr + 4 * |values|
    decreases |values|
  {
    if values != [] {
      WordsTake(u.(mem := Splice(u.mem, u.ptr, Bytes32(values[0])), ptr := u.ptr + 4), values[1..]);
    }
  }

  lemma SameNames(u: Tables, v: Tables, name: string)
    requires SymsMoved(u.syms, v.syms)
    ensures Known(u.syms, name) == Known(v.syms, name)
  {
    assert forall i | 0 <= i < |u.syms| :: v.syms[i].name == u.syms[i].name;
  }

  /** One line: the pointer never goes back, and where it leaves room for the guard both passes go on. */
  lemma LineFits(u: Tables, v: Tables, item: Item)
    requires Guarded(u, v) && Collect(u, item).Some?
    ensures Collect(u, item).value.ptr >= u.ptr
    ensures Collect(u, item).value.ptr + NULL_GUARD <= MEM_SIZE ==> Collect(v, item).Some?
  {
    match item {
      case Label(n) => SameNames(u, v, n);
      case Words(vs) => WordsFit(u, v, vs);
      case _ =>
    }
  }

  lemma LineGrows(u: Tables, item: Item)
    requires Within(u) && Collect(u, item).Some?
    ensures Collect(u, item).value.ptr >= u.ptr
  {
    if item.Words? {
      WordsTake(u, item.values);
    }
  }

  lemma {:induction false} AllGrow(u: Tables, items: seq<Item>)
    requires Within(u) && CollectAll(u, items).Some?
    ensures CollectAll(u, items).value.ptr >= u.ptr
    decreases |items|
  {
    if items != [] {
      LineGrows(u, items[0]);
      AllGrow(Collect(u, items[0]).value, items[1..]);
    }
  }

  lemma {:induction false} AllFit(u: Tables, v: Tables, items: seq<Item>)
    requires Guarded(u, v) && CollectAll(u, items).Some? && CollectAll(u, items).value.ptr + NULL_GUARD <= MEM_SIZE
    ensures CollectAll(v, items).Some?
    decreases |items|
  {
    if items != [] {
      AllGrow(Collect(u, items[0]).value, items[1..]);
      LineFits(u, v, items[0]);
      CollectGuarded(u, v, items[0]);
      AllFit(Collect(u, items[0]).value, Collect(v, items[0]).value, items[1..]);
    }
  }

  // --- labels are different names ----------------------------------------------------------------------------

  predicate Distinct(syms: seq<Sym>) { forall i, j | 0 <= i < j < |syms| :: syms[i].name != syms[j].name }

  lemma {:induction false} WordsKeepSyms(u: Tables, values: seq<int32>)
    requires Within(u) && PutWords(u, values).Some?
    ensures PutWords(u, values).value.syms == u.syms
    decreases |values|
  {
    if values != [] {
      WordsKeepSyms(u.(mem := Splice(u.mem, u.ptr, Bytes32(values[0])), ptr := u.ptr + 4), values[1..]);
    }
  }

  lemma {:induction false} LabelsDiffer(u: Tables, items: seq<Item>)
    requires Within(u) && Distinct(u.syms) && CollectAll(u, items).Some?
    ensures Distinct(CollectAll(u, items).value.syms)
    decreases |items|
  {
    if items != [] {
      if items[0].Words? {
        WordsKeepSyms(u, items[0].values);
      }
      LabelsDiffer(Collect(u, items[0]).value, items[1..]);
    }
  }

  /** The exports of the only object are symbols of its own, in their order. */
  lemma {:induction false} ExportsDiffer(u: Tables, k: nat)
    requires Within(u) && Distinct(u.syms) && k <= |u.syms|
    ensures Unique(Exports([ObjectOf(u)], 0, k))
    ensures forall d | d in Exports([ObjectOf(u)], 0, k) :: exists i :: 0 <= i < k && u.syms[i].name == d.sym.name
    decreases k
  {
    if k > 0 {
      ExportsDiffer(u, k - 1);
      var (front, s) := (Exports([ObjectOf(u)], 0, k - 1), SymbolsOf(u)[k - 1]);
      assert s.name == u.syms[k - 1].name;
      forall d | d in front
        ensures d.sym.name != s.name
      {
        var i :| 0 <= i < k - 1 && u.syms[i].name == d.sym.name;
      }
    }
  }

  // --- names ------------------------------------------------------------------------------------------------

  /** In a list of one object a name means what the assembler finds under it, and nothing else. */
  lemma OneMeaning(u: Tables, name: string)
    requires Within(u)
    ensures Meaning([ObjectOf(u)], 0, name) ==
      var s := FindSym(u.syms, name); if s.None? then None else Some(Definition(0, SymbolOf(u, s.value)))
  {
    OwnIsFind(u, 0, name);
    assert u.syms[0..] == u.syms && SymbolsOf(u)[0..] == SymbolsOf(u);
    var d := GlobalNamed(AllExports([ObjectOf(u)]), name);
    if FindSym(u.syms, name).None? && d.Some? {
      assert false;
    }
  }

  lemma {:induction false} RelocsOfLines(code: seq<Line>, n: nat, r: Reloc)
    requires n <= |code|
    ensures r in RelocsOf(code, n) <==> exists i :: 0 <= i < n && RelocOf(code[i], i) == Some(r)
    decreases n
  {
    if n > 0 {
      RelocsOfLines(code, n - 1, r);
      assert r in RelocsOf(code, n) <==> r in RelocsOf(code, n - 1) || RelocOf(code[n - 1], n - 1) == Some(r);
    }
  }

  /** The name an instruction uses, if it uses one, is defined. */
  predicate Defined(syms: seq<Sym>, l: Line) { l.operand.Some? ==> FindSym(syms, l.operand.value.sym).Some? }

  /** A branch names code; `li` may name either, and any other instruction names data. */
  predicate Fits(syms: seq<Sym>, l: Line)
    requires Defined(syms, l)
  {
    l.operand.Some? ==>
      KindFits(KindFor(l.ins.op), if FindSym(syms, l.operand.value.sym).value.isCode then 1 else 0)
  }

  lemma LineResolves(u: Tables, i: nat)
    requires Within(u) && i < |u.code| && u.code[i].operand.Some?
    ensures Resolves([ObjectOf(u)], 0, RelocOf(u.code[i], i).value) <==>
      Defined(u.syms, u.code[i]) && Fits(u.syms, u.code[i])
  {
    OneMeaning(u, u.code[i].operand.value.sym);
  }

  predicate AllDefined(syms: seq<Sym>, code: seq<Line>) { forall i | 0 <= i < |code| :: Defined(syms, code[i]) }

  predicate AllFitting(syms: seq<Sym>, code: seq<Line>) {
    forall i | 0 <= i < |code| :: Defined(syms, code[i]) && Fits(syms, code[i])
  }

  lemma LinesResolve(u: Tables)
    requires Within(u)
    ensures AllResolve([ObjectOf(u)]) <==> AllFitting(u.syms, u.code)
  {
    var (objs, rs) := ([ObjectOf(u)], RelocsOf(u.code, |u.code|));
    assert AllResolve(objs) == ResolvesUpTo(objs, 0, |rs|);
    if AllFitting(u.syms, u.code) {
      forall j | 0 <= j < |rs|
        ensures Resolves(objs, 0, rs[j])
      {
        RelocsOfLines(u.code, |u.code|, rs[j]);
        var i :| 0 <= i < |u.code| && RelocOf(u.code[i], i) == Some(rs[j]);
        LineResolves(u, i);
      }
    }
    if ResolvesUpTo(objs, 0, |rs|) {
      forall i | 0 <= i < |u.code|
        ensures Defined(u.syms, u.code[i]) && Fits(u.syms, u.code[i])
      {
        if u.code[i].operand.Some? {
          var r := RelocOf(u.code[i], i).value;
          RelocsOfLines(u.code, |u.code|, r);
          var j :| 0 <= j < |rs| && rs[j] == r;
          assert Resolves(objs, 0, rs[j]);
          LineResolves(u, i);
        }
      }
    }
  }

  lemma {:induction false} EncodesAll(syms: seq<Sym>, code: seq<Line>)
    ensures EncodeAll(syms, code).Some? <==> AllDefined(syms, code)
    decreases |code|
  {
    if code != [] {
      var front := code[..|code| - 1];
      EncodesAll(syms, front);
      assert forall i | 0 <= i < |front| :: front[i] == code[i];
    }
  }

  lemma LinesMoved(u: Tables, v: Tables)
    requires Guarded(u, v)
    ensures AllDefined(u.syms, u.code) <==> AllDefined(v.syms, v.code)
    ensures AllFitting(u.syms, u.code) <==> AllFitting(v.syms, v.code)
    ensures GlobalsKnown(u) <==> GlobalsKnown(v)
  {
    forall l: Line
      ensures Defined(u.syms, l) == Defined(v.syms, l)
      ensures Defined(u.syms, l) ==> Fits(u.syms, l) == Fits(v.syms, l)
    {
      if l.operand.Some? {
        FindMoved(u.syms, v.syms, l.operand.value.sym);
      }
    }
    forall n
      ensures Known(u.syms, n) == Known(v.syms, n)
    {
      SameNames(u, v, n);
    }
  }

  // --- room ---------------------------------------------------------------------------------------------------

  lemma BuiltinRegions()
    ensures SectionRegion(Builtin(), ".text") == Some(Builtin().regions[0])
    ensures SectionRegion(Builtin(), ".data") == Some(Builtin().regions[1])
    ensures SectionRegion(Builtin(), ".shared") == Some(Builtin().regions[2])
  {
    var (rs, ps) := (Builtin().regions, Builtin().places);
    ThreeEntries(rs[0], rs[1], rs[2]);
    ThreeEntries(ps[0], ps[1], ps[2]);
  }

  lemma OneObjectFits(u: Tables)
    requires Within(u)
    ensures SectionsFit([ObjectOf(u)], Builtin()) <==> u.ptr + NULL_GUARD <= MEM_SIZE
  {
    BuiltinRegions();
    BuiltinOrigins();
    OneObject(ObjectOf(u));
  }

  lemma ObjectAccepted(items: seq<Item>)
    requires CollectAll(Start(0), items).Some?
    ensures var u := CollectAll(Start(0), items).value;
      Accepts([ObjectOf(u)], None, Builtin()) <==> u.ptr + NULL_GUARD <= MEM_SIZE && AllFitting(u.syms, u.code)
  {
    var u := CollectAll(Start(0), items).value;
    LabelsDiffer(Start(0), items);
    ExportsDiffer(u, |u.syms|);
    assert AllExports([ObjectOf(u)]) == Exports([ObjectOf(u)], 0, |u.syms|);
    OneObjectFits(u);
    LinesResolve(u);
  }

  /** The object route, its link in the built-in placement included, accepts a source exactly when the
      direct route does, every name listed by `.global` is defined, and names are of the kind their
      instructions want: these two conditions are all that the direct route does not ask. */
  lemma RoutesAcceptAlike(items: seq<Item>)
    ensures AssembledObject(items).Some? && Accepts([AssembledObject(items).value], None, Builtin()) <==>
      && Assembled(items).Some?
      && var v := CollectAll(Start(NULL_GUARD), items).value; GlobalsKnown(v) && AllFitting(v.syms, v.code)
  {
    StartsGuarded();
    if CollectAll(Start(NULL_GUARD), items).Some? {
      AllGuarded(Start(0), Start(NULL_GUARD), items);
      var (u, v) := (CollectAll(Start(0), items).value, CollectAll(Start(NULL_GUARD), items).value);
      LinesMoved(u, v);
      EncodesAll(v.syms, v.code);
      ObjectAccepted(items);
    } else if CollectAll(Start(0), items).Some? {
      ObjectAccepted(items);
      if CollectAll(Start(0), items).value.ptr + NULL_GUARD <= MEM_SIZE {
        AllFit(Start(0), Start(NULL_GUARD), items);
      }
    }
  }
}
